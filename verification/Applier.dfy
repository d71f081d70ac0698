/** `apply_bundle` as it runs: item after item, a commit after each, stopped when it is told to. */
module Applier {
  import opened Common
  import opened Review
  import opened Apply
  import opened Resume

  datatype End = NotApplicable | Interrupted | GaveUp | Done

  /** A run has the first `i` items behind it. */
  predicate Behind(st: State, b: nat, ids: seq<nat>, i: nat, trash: Option<string>, now: State) {
    && Appliable(st, b) && WellMade(st.rows.bundles[b]) && Ensured(st, b) && ids == InOrder(st.rows, b) && i <= |ids|
    && ApplyAll(st, b, ids[..i], trash) == Progress(now, i, false)
  }

  lemma NextWaits(st: State, b: nat, ids: seq<nat>, i: nat, trash: Option<string>, now: State)
    requires Behind(st, b, ids, i, trash, now) && i < |ids|
    ensures Appliable(now, b) && Waiting(now.rows, b, ids[i])
  {
    SomeLeave(st, b, ids, i, trash);
    assert ids[i..][0] == ids[i] && ids[i..][0] in InOrder(now.rows, b);
  }

  /** The next item cannot be reached: this is as far as any longer run gets. */
  lemma NextFails(st: State, b: nat, ids: seq<nat>, i: nat, trash: Option<string>, now: State, n: nat)
    requires Behind(st, b, ids, i, trash, now) && i < n <= |ids| && b < |now.rows.bundles| && Waiting(now.rows, b, ids[i])
    requires ApplyItem(now, b, ids[i], trash).failed
    ensures var run := ApplyAll(st, b, ids[..n], trash); run.state == now && run.failed
  {
    assert ids[..n][..i] == ids[..i] && ids[..n][i..][0] == ids[i];
    InTwo(st, b, ids[..n], i, trash);
  }

  /** One item more. */
  lemma OneMore(st: State, b: nat, ids: seq<nat>, i: nat, trash: Option<string>, now: State)
    requires Behind(st, b, ids, i, trash, now) && i < |ids| && b < |now.rows.bundles| && Waiting(now.rows, b, ids[i])
    requires !ApplyItem(now, b, ids[i], trash).failed
    ensures Behind(st, b, ids, i + 1, trash, ApplyItem(now, b, ids[i], trash).state)
  {
    assert ids[..i + 1][..i] == ids[..i] && ids[..i + 1][i..] == [ids[i]];
    InTwo(st, b, ids[..i + 1], i, trash);
    assert [ids[i]][1..] == [];
    assert ApplyAll(now, b, [ids[i]], trash) == Progress(ApplyItem(now, b, ids[i], trash).state, 1, false);
  }

  /** How far a run gets in `k` items. */
  function Part(st: State, b: nat, ids: seq<nat>, k: nat, trash: Option<string>): Progress
    requires b < |st.rows.bundles|
  {
    ApplyAll(st, b, if k < |ids| then ids[..k] else ids, trash)
  }

  ghost predicate AllParts(states: seq<State>, st: State, b: nat, ids: seq<nat>, trash: Option<string>)
    requires b < |st.rows.bundles|
  {
    forall s <- states :: exists k: nat :: s == Part(st, b, ids, k, trash).state
  }

  lemma OnePartMore(states: seq<State>, st: State, b: nat, ids: seq<nat>, trash: Option<string>, k: nat)
    requires b < |st.rows.bundles| && AllParts(states, st, b, ids, trash)
    ensures AllParts(states + [Part(st, b, ids, k, trash).state], st, b, ids, trash)
  {}

  /** Every one of these states is one a run of the bundle can be cut off in. */
  ghost predicate AllCuts(states: seq<State>, st: State, b: nat, trash: Option<string>) {
    forall s <- states :: exists k: nat :: s == CutOff(st, b, k, trash)
  }

  lemma PartsAreCuts(states: seq<State>, st: State, b: nat, trash: Option<string>)
    requires Appliable(st, b) && InOrder(st.rows, b) != [] && !EnsureTarget(st, b).failed
    requires AllParts(states, EnsureTarget(st, b).state, b, InOrder(st.rows, b), trash)
    ensures AllCuts(states, st, b, trash)
  {
    forall s | s in states ensures exists k: nat :: s == CutOff(st, b, k, trash) {
      var k: nat :| s == Part(EnsureTarget(st, b).state, b, InOrder(st.rows, b), k, trash).state;
      assert s == CutOff(st, b, k, trash);
    }
  }

  class Applier {
    var rows: World
    var server: Server
    /** Every state that was committed: a crash goes back to the last of them. */
    ghost var log: seq<State>

    function Now(): State
      reads this
    {
      State(rows, server)
    }

    constructor (rows: World, server: Server)
      ensures Now() == State(rows, server) && log == [Now()]
    {
      this.rows, this.server, log := rows, server, [State(rows, server)];
    }

    method ApplyOrdered(b: nat, ordered: seq<nat>, trash: Option<string>, stop: nat) returns (end: End)
      requires Appliable(Now(), b) && WellMade(rows.bundles[b]) && Ensured(Now(), b) && ordered == InOrder(rows, b)
      modifies this
      ensures Now() == Part(old(Now()), b, ordered, stop, trash).state
      ensures end != NotApplicable
      ensures end == Done <==> stop >= |ordered| && !Part(old(Now()), b, ordered, stop, trash).failed
      ensures old(log) <= log && AllParts(log[|old(log)|..], old(Now()), b, ordered, trash)
    {
      ghost var st := Now();
      ghost var parts: seq<State> := [];
      var done := 0;
      assert ordered[..|ordered|] == ordered && ordered[..0] == [];
      while done < |ordered|
        invariant done <= stop && Behind(st, b, ordered, done, trash, Now())
        invariant log == old(log) + parts && AllParts(parts, st, b, ordered, trash)
      {
        if done == stop {
          return Interrupted;
        }
        NextWaits(st, b, ordered, done, trash, Now());
        var one := ApplyItem(Now(), b, ordered[done], trash);
        if one.failed {
          NextFails(st, b, ordered, done, trash, Now(), if stop < |ordered| then stop else |ordered|);
          return GaveUp;
        }
        OneMore(st, b, ordered, done, trash, Now());
        rows, server := one.state.rows, one.state.server;
        done := done + 1;
        log := log + [Now()];
        OnePartMore(parts, st, b, ordered, trash, done);
        parts := parts + [Now()];
      }
      end := Done;
    }

    /** `stop` is the number of items after which the service is asked to stop. */
    method ApplyBundle(b: nat, trash: Option<string>, stop: nat) returns (end: End)
      requires b < |rows.bundles| && WellMade(rows.bundles[b])
      modifies this
      ensures Now() == if Appliable(old(Now()), b) && stop < |InOrder(old(rows), b)| then CutOff(old(Now()), b, stop, trash)
                       else Finished(old(Now()), b, trash)
      ensures end == NotApplicable ==> Now() == old(Now())
      ensures old(log) <= log && AllCuts(log[|old(log)|..], old(Now()), b, trash)
    {
      if rows.bundles[b].status != BundleAccepted {
        return NotApplicable;
      }
      ghost var st := Now();
      var ordered := InOrder(rows, b);
      if ordered == [] {
        rows := ClosingApply(rows, b, false);
        return Done;
      }
      var ensured := EnsureTarget(Now(), b);
      if ensured.failed {
        return NotApplicable;
      }
      EnsuringIsOrderly(st, b);
      rows, server := ensured.state.rows, ensured.state.server;
      log := log + [Now()];
      ghost var before := log;
      end := ApplyOrdered(b, ordered, trash, stop);
      ghost var parts := [ensured.state] + log[|before|..];
      assert parts == log[|old(log)|..];
      assert ensured.state == Part(ensured.state, b, ordered, 0, trash).state;
      PartsAreCuts(parts, st, b, trash);
      if end == Done {
        rows := ClosingApply(rows, b, true);
      }
    }
  }
}
