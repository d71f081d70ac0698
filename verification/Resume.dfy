/** Crashing and starting again. */
module Resume {
  import opened Common
  import opened Sync
  import opened Freshness
  import opened Review
  import opened ReviewSafety
  import opened Growth
  import opened Apply
  import FolderTree

  // Stopping and crashing change nothing about what an accepted bundle does: runs of `apply_bundle` cut off
  // anywhere and taken up again, against one that was left alone.

  // ------------------------------------------------------------------ there is one order

  lemma {:induction false} StringLeqAntisymmetric(a: string, b: string)
    requires FolderTree.StringLeq(a, b) && FolderTree.StringLeq(b, a)
    ensures a == b
    decreases |a|
  {
    if a != "" {
      StringLeqAntisymmetric(a[1..], b[1..]);
    }
  }

  lemma KeyBeforeOneWay(x: Key, y: Key)
    ensures !(KeyBefore(x, y) && KeyBefore(y, x))
    ensures x != y ==> KeyBefore(x, y) || KeyBefore(y, x)
  {
    FolderTree.StringLeqTotal(x.name, y.name);
    if FolderTree.StringLeq(x.name, y.name) && FolderTree.StringLeq(y.name, x.name) {
      StringLeqAntisymmetric(x.name, y.name);
    }
  }

  lemma KeyBeforeTransitive(x: Key, y: Key, z: Key)
    requires KeyBefore(x, y) && KeyBefore(y, z)
    ensures KeyBefore(x, z)
  {
    if x.levels == y.levels == z.levels {
      FolderTree.StringLeqTransitive(x.name, y.name, z.name);
      if x.name == z.name {
        StringLeqAntisymmetric(x.name, y.name);
      }
    }
  }

  predicate Sorted(keys: seq<Key>, ids: seq<nat>)
    requires Ids(keys, ids)
  {
    forall i, j :: 0 <= i < j < |ids| ==> Before(keys, ids[i], ids[j])
  }

  lemma BeforeTransitive(keys: seq<Key>, i: nat, j: nat, k: nat)
    requires 1 <= i <= |keys| && 1 <= j <= |keys| && 1 <= k <= |keys| && Before(keys, i, j) && Before(keys, j, k)
    ensures Before(keys, i, k)
  {
    if KeyBefore(keys[i - 1], keys[j - 1]) && KeyBefore(keys[j - 1], keys[k - 1]) {
      KeyBeforeTransitive(keys[i - 1], keys[j - 1], keys[k - 1]);
    }
  }

  lemma {:induction false} InsertSorts(keys: seq<Key>, id: nat, sorted: seq<nat>)
    requires 1 <= id <= |keys| && Ids(keys, sorted) && Sorted(keys, sorted) && id !in sorted
    ensures Sorted(keys, Insert(keys, id, sorted))
    decreases |sorted|
  {
    var r := Insert(keys, id, sorted);
    if sorted != [] {
      var head := sorted[0];
      if Before(keys, id, head) {
        forall j | 0 < j < |r| ensures Before(keys, id, r[j]) {
          if j > 1 {
            BeforeTransitive(keys, id, head, r[j]);
          }
        }
      } else {
        InsertSorts(keys, id, sorted[1..]);
        KeyBeforeOneWay(keys[id - 1], keys[head - 1]);
        forall j | 0 < j < |r| ensures Before(keys, head, r[j]) {
          assert r[j] in Insert(keys, id, sorted[1..]);
          if r[j] != id {
            assert r[j] in sorted[1..];
          }
        }
      }
    }
  }

  lemma {:induction false} OrderedIsSorted(rows: World, b: nat, n: nat)
    requires b < |rows.bundles| && n <= |rows.items|
    ensures Sorted(KeysOf(rows, b), Ordered(rows, b, n))
  {
    if n > 0 {
      OrderedIsSorted(rows, b, n - 1);
      if Waiting(rows, b, n) {
        InsertSorts(KeysOf(rows, b), n, Ordered(rows, b, n - 1));
      }
    }
  }

  lemma HeadIsLeast(keys: seq<Key>, a: seq<nat>, c: seq<nat>)
    requires Ids(keys, a) && Ids(keys, c) && Sorted(keys, a) && Sorted(keys, c) && a != [] && c != []
    requires forall id: nat :: id in a <==> id in c
    ensures a[0] == c[0]
  {
    if a[0] != c[0] {
      assert a[0] in c && c[0] in a;
      assert Before(keys, a[0], c[0]) && Before(keys, c[0], a[0]);
      KeyBeforeOneWay(keys[a[0] - 1], keys[c[0] - 1]);
    }
  }

  lemma TailsAlike(keys: seq<Key>, a: seq<nat>, c: seq<nat>)
    requires Ids(keys, a) && Ids(keys, c) && Sorted(keys, a) && Sorted(keys, c) && a != [] && c != []
    requires (forall id: nat :: id in a <==> id in c) && a[0] == c[0]
    ensures forall id: nat :: id in a[1..] <==> id in c[1..]
  {
    NotAgain(keys, a);
    NotAgain(keys, c);
    AfterTheHead(a);
    AfterTheHead(c);
  }

  lemma AfterTheHead(ids: seq<nat>)
    requires ids != [] && ids[0] !in ids[1..]
    ensures forall id: nat :: id in ids[1..] <==> id in ids && id != ids[0]
  {
    assert ids == [ids[0]] + ids[1..];
  }

  lemma NotAgain(keys: seq<Key>, ids: seq<nat>)
    requires Ids(keys, ids) && Sorted(keys, ids) && ids != []
    ensures ids[0] !in ids[1..]
  {
    forall j | 1 <= j < |ids| ensures ids[j] != ids[0] {
      assert Before(keys, ids[0], ids[j]);
      KeyBeforeOneWay(keys[ids[0] - 1], keys[ids[0] - 1]);
    }
  }

  /** What is in order is determined by what there is. */
  lemma {:induction false} OneOrder(keys: seq<Key>, a: seq<nat>, c: seq<nat>)
    requires Ids(keys, a) && Ids(keys, c) && Sorted(keys, a) && Sorted(keys, c)
    requires forall id: nat :: id in a <==> id in c
    ensures a == c
    decreases |a|
  {
    assert c != [] ==> c[0] in c;
    if a != [] {
      assert a[0] in a;
      HeadIsLeast(keys, a, c);
      TailsAlike(keys, a, c);
      OneOrder(keys, a[1..], c[1..]);
      assert a == [a[0]] + a[1..] && c == [c[0]] + c[1..];
    }
  }

  // ------------------------------------------------------------------ what is left after some of it

  /** A discard has nowhere to move anything. */
  predicate WellMade(bundle: Bundle) { bundle.operation == Discard ==> bundle.target.None? }

  predicate Ensured(st: State, b: nat)
    requires b < |st.rows.bundles|
  {
    var target := st.rows.bundles[b].target;
    target.None? || target.value >= |st.rows.folders| || st.rows.folders[target.value].row.made
  }

  /** One item further: that item is no longer waiting, and nothing else about the order has changed. */
  lemma OneFurther(st: State, b: nat, id: nat, trash: Option<string>)
    requires Appliable(st, b) && WellMade(st.rows.bundles[b]) && Waiting(st.rows, b, id) && Ensured(st, b)
    requires !ApplyItem(st, b, id, trash).failed
    ensures var v := ApplyItem(st, b, id, trash).state;
            && v.rows.bundles == st.rows.bundles && KeysOf(v.rows, b) == KeysOf(st.rows, b) && Ensured(v, b)
            && forall k: nat :: Waiting(v.rows, b, k) <==> Waiting(st.rows, b, k) && k != id
  {
    var v := ApplyItem(st, b, id, trash).state;
    assert v.rows == ApplyingOne(st.rows, id, true) || v.rows == ApplyingOne(st.rows, id, false);
    forall i | 0 <= i < |v.rows.items| ensures KeyOf(v.rows, b, v.rows.items[i]) == KeyOf(st.rows, b, st.rows.items[i]) {}
    assert KeysOf(v.rows, b) == KeysOf(st.rows, b);
  }

  lemma OneLeaves(st: State, b: nat, trash: Option<string>)
    requires Appliable(st, b) && WellMade(st.rows.bundles[b]) && Ensured(st, b) && InOrder(st.rows, b) != []
    requires !ApplyItem(st, b, InOrder(st.rows, b)[0], trash).failed
    ensures var v := ApplyItem(st, b, InOrder(st.rows, b)[0], trash).state;
            Appliable(v, b) && Ensured(v, b) && v.rows.bundles == st.rows.bundles && InOrder(v.rows, b) == InOrder(st.rows, b)[1..]
  {
    var ids := InOrder(st.rows, b);
    assert ids[0] in ids;
    OneFurther(st, b, ids[0], trash);
    var v := ApplyItem(st, b, ids[0], trash).state;
    OrderedIsSorted(st.rows, b, |st.rows.items|);
    OrderedIsSorted(v.rows, b, |v.rows.items|);
    NotAgain(KeysOf(st.rows, b), ids);
    assert ids == [ids[0]] + ids[1..];
    OneOrder(KeysOf(st.rows, b), InOrder(v.rows, b), ids[1..]);
  }

  /** What a run cut off has left. */
  ghost predicate LeavesRest(st: State, b: nat, ids: seq<nat>, k: nat, part: Progress)
    requires b < |st.rows.bundles| && k <= |ids|
  {
    && part.done <= k && part.state.rows.bundles == st.rows.bundles && Ensured(part.state, b)
    && InOrder(part.state.rows, b) == ids[part.done..]
    && (!part.failed ==> part.done == k)
  }

  lemma OneMoreLeaves(st: State, v: State, b: nat, ids: seq<nat>, k: nat, rest: Progress)
    requires b < |st.rows.bundles| && 0 < k <= |ids| && v.rows.bundles == st.rows.bundles
    requires LeavesRest(v, b, ids[1..], k - 1, rest)
    ensures LeavesRest(st, b, ids, k, rest.(done := rest.done + 1))
  {
    assert ids[1..][rest.done..] == ids[rest.done + 1..];
  }

  /** After some of it, the rest is what was next. */
  lemma {:induction false} SomeLeave(st: State, b: nat, ids: seq<nat>, k: nat, trash: Option<string>)
    requires Appliable(st, b) && WellMade(st.rows.bundles[b]) && Ensured(st, b) && ids == InOrder(st.rows, b) && k <= |ids|
    ensures LeavesRest(st, b, ids, k, ApplyAll(st, b, ids[..k], trash))
    decreases |ids|
  {
    if k > 0 {
      assert ids[0] in ids;
      var one := ApplyItem(st, b, ids[0], trash);
      if !one.failed {
        OneLeaves(st, b, trash);
        SomeLeave(one.state, b, ids[1..], k - 1, trash);
        assert ids[..k][1..] == ids[1..][..k - 1];
        OneMoreLeaves(st, one.state, b, ids, k, ApplyAll(one.state, b, ids[1..][..k - 1], trash));
      }
    }
  }

  ghost predicate SameEnd(part: Progress, rest: Progress, all: Progress, k: nat) {
    part.done <= k && rest.state == all.state && rest.failed == all.failed && all.done == part.done + rest.done
  }

  /** Part of a run and then the rest of it is the run. */
  ghost predicate Splits(st: State, b: nat, ids: seq<nat>, k: nat, trash: Option<string>, part: Progress, all: Progress)
    requires b < |st.rows.bundles| && k <= |ids|
  {
    && part.done <= k && part.state.rows.bundles == st.rows.bundles
    && SameEnd(part, ApplyAll(part.state, b, ids[part.done..], trash), all, k)
  }

  lemma StopsAtOnce(st: State, b: nat, ids: seq<nat>, k: nat, trash: Option<string>)
    requires b < |st.rows.bundles| && k <= |ids|
    requires k == 0 || !Waiting(st.rows, b, ids[0]) || ApplyItem(st, b, ids[0], trash).failed
    ensures Splits(st, b, ids, k, trash, ApplyAll(st, b, ids[..k], trash), ApplyAll(st, b, ids, trash))
  {}

  lemma OneMoreSplits(st: State, v: State, b: nat, ids: seq<nat>, k: nat, trash: Option<string>, part: Progress, all: Progress)
    requires b < |st.rows.bundles| && 0 < k <= |ids| && v.rows.bundles == st.rows.bundles
    requires Splits(v, b, ids[1..], k - 1, trash, part, all)
    ensures Splits(st, b, ids, k, trash, part.(done := part.done + 1), all.(done := all.done + 1))
  {
    assert ids[1..][part.done..] == ids[part.done + 1..];
  }

  lemma {:induction false} InTwo(st: State, b: nat, ids: seq<nat>, k: nat, trash: Option<string>)
    requires b < |st.rows.bundles| && k <= |ids|
    ensures Splits(st, b, ids, k, trash, ApplyAll(st, b, ids[..k], trash), ApplyAll(st, b, ids, trash))
    decreases |ids|
  {
    if k == 0 || !Waiting(st.rows, b, ids[0]) || ApplyItem(st, b, ids[0], trash).failed {
      StopsAtOnce(st, b, ids, k, trash);
    } else {
      var v := ApplyItem(st, b, ids[0], trash).state;
      assert ids[..k][1..] == ids[1..][..k - 1];
      InTwo(v, b, ids[1..], k - 1, trash);
      OneMoreSplits(st, v, b, ids, k, trash, ApplyAll(v, b, ids[1..][..k - 1], trash), ApplyAll(v, b, ids[1..], trash));
    }
  }

  // ------------------------------------------------------------------ up to the roll-up

  /** What a run has done when it gets to the roll-up, or gives up. */
  ghost function Reached(st: State, b: nat, trash: Option<string>): State
    requires b < |st.rows.bundles|
  {
    var ids := InOrder(st.rows, b);
    if ids == [] || EnsureTarget(st, b).failed then st else ApplyAll(EnsureTarget(st, b).state, b, ids, trash).state
  }

  lemma EnsuringIsOrderly(st: State, b: nat)
    requires Appliable(st, b) && WellMade(st.rows.bundles[b]) && !EnsureTarget(st, b).failed
    ensures var e := EnsureTarget(st, b).state;
            e.rows.bundles == st.rows.bundles && e.rows.items == st.rows.items && Ensured(e, b) && InOrder(e.rows, b) == InOrder(st.rows, b)
  {
    var e := EnsureTarget(st, b).state;
    if st.rows.bundles[b].operation == Discard {
      assert e == st;
    } else {
      assert KeysOf(e.rows, b) == KeysOf(st.rows, b);
      OrderedIsSorted(st.rows, b, |st.rows.items|);
      OrderedIsSorted(e.rows, b, |e.rows.items|);
      OneOrder(KeysOf(st.rows, b), InOrder(e.rows, b), InOrder(st.rows, b));
    }
  }

  /** Giving up leaves something accepted, so the roll-up is for runs that did not. */
  lemma FinishedIsRolledUp(st: State, b: nat, trash: Option<string>)
    requires Appliable(st, b) && WellMade(st.rows.bundles[b])
    ensures var r := Reached(st, b, trash);
            && r.rows.bundles == st.rows.bundles
            && Finished(st, b, trash) == r.(rows := ClosingApply(r.rows, b, InOrder(st.rows, b) != []))
            && (InOrder(st.rows, b) == [] ==> !HasItem(r.rows.items, b, Accepted))
  {
    var ids := InOrder(st.rows, b);
    if ids == [] {
      WhatWaits(st.rows, b);
    } else if EnsureTarget(st, b).failed {
      WhatWaits(st.rows, b);
    } else {
      EnsuringIsOrderly(st, b);
      var e := EnsureTarget(st, b).state;
      SomeLeave(e, b, ids, |ids|, trash);
      assert ids[..|ids|] == ids;
      var run := ApplyAll(e, b, ids, trash);
      if run.failed {
        FailedIsShort(e, b, ids, trash);
        WhatWaits(run.state.rows, b);
      }
    }
  }

  /** Something is in the order exactly if something is accepted. */
  lemma WhatWaits(rows: World, b: nat)
    requires b < |rows.bundles|
    ensures InOrder(rows, b) != [] <==> HasItem(rows.items, b, Accepted)
  {
    var ids := InOrder(rows, b);
    forall i | 0 <= i < |rows.items| && rows.items[i].bundle == b && rows.items[i].status == Accepted ensures ids != [] {
      assert i + 1 in ids <==> Waiting(rows, b, i + 1);
    }
    if ids != [] {
      assert ids[0] in ids && rows.items[ids[0] - 1] in rows.items;
    }
  }

  lemma {:induction false} FailedIsShort(st: State, b: nat, ids: seq<nat>, trash: Option<string>)
    requires b < |st.rows.bundles|
    ensures var run := ApplyAll(st, b, ids, trash); run.failed ==> run.done < |ids|
    decreases |ids|
  {
    if ids != [] && Waiting(st.rows, b, ids[0]) && !ApplyItem(st, b, ids[0], trash).failed {
      FailedIsShort(ApplyItem(st, b, ids[0], trash).state, b, ids[1..], trash);
    }
  }

  /** A run cut off and taken up again gets as far as one left alone. */
  lemma CutReaches(st: State, b: nat, k: nat, trash: Option<string>)
    requires Appliable(st, b) && WellMade(st.rows.bundles[b])
    ensures var c := CutOff(st, b, k, trash);
            Appliable(c, b) && c.rows.bundles == st.rows.bundles && Reached(c, b, trash) == Reached(st, b, trash)
    ensures InOrder(st.rows, b) == [] ==> CutOff(st, b, k, trash) == st
  {
    var ids := InOrder(st.rows, b);
    if ids != [] && !EnsureTarget(st, b).failed {
      EnsuringIsOrderly(st, b);
      var e := EnsureTarget(st, b).state;
      var n := if k < |ids| then k else |ids|;
      assert ids[..|ids|] == ids;
      SomeLeave(e, b, ids, n, trash);
      InTwo(e, b, ids, n, trash);
      var part := ApplyAll(e, b, ids[..n], trash);
      assert CutOff(st, b, k, trash) == part.state;
      assert EnsureTarget(part.state, b).state == part.state;
    }
  }

  lemma {:induction false} ResumedReaches(st: State, b: nat, cuts: seq<nat>, trash: Option<string>)
    requires Appliable(st, b) && WellMade(st.rows.bundles[b])
    ensures var l := LastStart(st, b, cuts, trash);
            && Appliable(l, b) && l.rows.bundles == st.rows.bundles && Reached(l, b, trash) == Reached(st, b, trash)
            && Resumed(st, b, cuts, trash) == Finished(l, b, trash)
            && (InOrder(st.rows, b) == [] ==> l == st)
    decreases cuts
  {
    if cuts != [] {
      CutReaches(st, b, cuts[0], trash);
      ResumedReaches(CutOff(st, b, cuts[0], trash), b, cuts[1..], trash);
    }
  }

  lemma ClosingsDiffer(rows: World, b: nat)
    requires b < |rows.bundles| && rows.bundles[b].status == BundleAccepted && !HasItem(rows.items, b, Accepted)
    ensures ClosingApply(rows, b, false).bundles == ClosingApply(rows, b, true).bundles
            <==> Rollup(rows.items, b, false) == Rollup(rows.items, b, true)
  {
    assert ClosingApply(rows, b, false).bundles[b].status == Rollup(rows.items, b, false);
    assert ClosingApply(rows, b, true).bundles[b].status == Rollup(rows.items, b, true);
  }

  /** However often it is stopped, or crashes after a checkpoint, and is started again: every item ends as it
      would have, the cache and the server too; and so does the bundle, exactly if by the last start something was
      applied, or there was something left to do, or there never was anything. */
  lemma ResumeEquivalence(st: State, b: nat, cuts: seq<nat>, trash: Option<string>)
    requires Appliable(st, b) && WellMade(st.rows.bundles[b])
    ensures var r, u, l := Resumed(st, b, cuts, trash), Finished(st, b, trash), LastStart(st, b, cuts, trash);
            && r.rows.items == u.rows.items && r.rows.folders == u.rows.folders && r.server == u.server
            && Appliable(l, b)
            && (r.rows.bundles == u.rows.bundles <==>
                  HasItem(l.rows.items, b, Applied) || InOrder(l.rows, b) != [] || InOrder(st.rows, b) == [])
  {
    ResumedReaches(st, b, cuts, trash);
    var l := LastStart(st, b, cuts, trash);
    FinishedIsRolledUp(st, b, trash);
    FinishedIsRolledUp(l, b, trash);
    var reached := Reached(st, b, trash).rows;
    if InOrder(l.rows, b) == [] {
      ClosingsDiffer(reached, b);
    }
  }

  /** One message to be flagged, which has left its folder since. */
  function OneLeft(server: Server): State {
    var f := Folder(Container("a", None, false, Some(1), None, 0, 1, true, false), map[Slot(1, 1) := Placement(0, {}, None, true)]);
    var item := Item(0, Some(0), 0, Premise(1, 1, None, {}), Accepted);
    State(World([f], [item], [Bundle(0, AddFlag("a"), None, 0, BundleAccepted, [])]), server)
  }

  /** Left alone the bundle closes as partially applied; cut off after its only item was refused, as stale. */
  lemma RefusedThenCut(server: Server, trash: Option<string>)
    ensures var st := OneLeft(server);
            && Appliable(st, 0) && WellMade(st.rows.bundles[0])
            && Finished(st, 0, trash).rows.bundles[0].status == BundlePartlyApplied
            && Resumed(st, 0, [1], trash).rows.bundles[0].status == BundleStale
  {
    var st := OneLeft(server);
    assert Waiting(st.rows, 0, 1) && Ordered(st.rows, 0, 0) == [];
    assert InOrder(st.rows, 0) == [1];
    var v := ApplyItem(st, 0, 1, trash).state;
    assert v.rows.items == [st.rows.items[0].(status := Stale)];
    assert ApplyAll(v, 0, [], trash) == Progress(v, 0, false);
    assert [1][1..] == [] && ApplyAll(st, 0, [1], trash) == Progress(v, 1, false);
    WhatWaits(v.rows, 0);
    assert v.rows.items[0] in v.rows.items;
    assert CutOff(st, 0, 1, trash) == v && [1][1..] == [];
  }

  // ------------------------------------------------------------------ every bundle there is

  ghost predicate AllWellMade(w: World) { forall c <- w.bundles :: WellMade(c) }

  lemma StepWellMade(w: World, op: Op)
    requires AllWellMade(w)
    ensures AllWellMade(Review.Step(w, op))
  {
    var v := Review.Step(w, op);
    StepOnward(w, op);
    forall i | 0 <= i < |v.bundles| ensures WellMade(v.bundles[i]) {
      if i < |w.bundles| {
        assert w.bundles[i] in w.bundles && BundleOnward(w.bundles[i], v.bundles[i]);
      } else {
        NewIsWellMade(w, op, i);
      }
    }
  }

  lemma NewIsWellMade(w: World, op: Op, i: nat)
    requires |w.bundles| <= i < |Review.Step(w, op).bundles|
    ensures WellMade(Review.Step(w, op).bundles[i])
  {
    match op
    case Propose(_, _, _, _, _, _, _) =>
    case ProposeDiscard(_, _, _, _) =>
    case Grow(_, _, _, _, _, _, _) =>
    case _ => OthersSame(w, op);
  }

  lemma {:induction false} EveryBundleIsWellMade(ops: seq<Op>)
    ensures AllWellMade(Review.Run(EMPTY, ops))
    decreases |ops|
  {
    if ops != [] {
      EveryBundleIsWellMade(ops[..|ops| - 1]);
      StepWellMade(Review.Run(EMPTY, ops[..|ops| - 1]), Last(ops));
    }
  }
}
