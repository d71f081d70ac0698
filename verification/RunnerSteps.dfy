/** What the runner does, as the review sees it: every state that a sync or an apply commits is reached by the
    steps of a run, so what holds of every run holds through them, wherever they are cut off.  A sync is taken
    apart into its transactions, an apply into its checkpoints, and each is one step or none. */
module RunnerSteps {
  import opened Common
  import opened Mailbox
  import opened Sync
  import opened SyncSafety
  import Apply
  import Review

  function BatchSteps(folder: nat, at: nat -> Box, call: nat, todo: seq<nat>): seq<Review.Op>
    decreases |todo|
  {
    if todo == [] then []
    else
      var cut := if |todo| < FETCH_BATCH then |todo| else FETCH_BATCH;
      [Review.AbsorbMore(folder, Fetch(at(call), todo[..cut]))] + BatchSteps(folder, at, call + 1, todo[cut..])
  }

  /** What `sync_container` does to the rows, one transaction after another. */
  ghost function Steps(folder: nat, f: Folder, at: nat -> Box, call: nat, force: bool): seq<Review.Op>
    requires Served(at)
  {
    var selected := Select(at(call));
    [Review.StartSync(folder, selected)] +
    (if UseCondstore(f, selected, force) then
       [Review.AbsorbMore(folder, Fetch(at(call + 1), ChangedSince(at(call + 1), f.row.highest.value))),
        Review.CloseSync(folder, Uids(at(call + 2)), selected)]
     else BatchSteps(folder, at, call + 2, Uids(at(call + 1))) + [Review.CloseSync(folder, Uids(at(call + 1)), selected)])
  }

  /** Each step leaves the folder as the next commit has it, and the others alone. */
  ghost predicate Follows(w: Review.World, folder: nat, ops: seq<Review.Op>, commits: seq<Commit>)
    decreases |ops|
  {
    if ops == [] || commits == [] then ops == [] && commits == []
    else
      var v := Review.Step(w, ops[0]);
      && folder < |w.folders| && v.folders == w.folders[folder := commits[0].folder]
      && Follows(v, folder, ops[1..], commits[1..])
  }

  lemma {:induction false} RunAppend(w: Review.World, a: seq<Review.Op>, b: seq<Review.Op>)
    ensures Review.Run(w, a + b) == Review.Run(Review.Run(w, a), b)
    decreases |b|
  {
    if b == [] {
      assert a + b == a;
    } else {
      assert (a + b)[..|a + b| - 1] == a + b[..|b| - 1];
      RunAppend(w, a, b[..|b| - 1]);
    }
  }

  lemma RunOne(w: Review.World, op: Review.Op)
    ensures Review.Run(w, [op]) == Review.Step(w, op)
  {
    assert Review.Run(w, [op][..0]) == w;
  }

  lemma ClosingFollows(w: Review.World, folder: nat, f: Folder, call: nat, present: seq<nat>, selected: Selected)
    requires folder < |w.folders| && w.folders[folder] == f
    ensures Follows(w, folder, [Review.CloseSync(folder, present, selected)], [Commit(Closed(f, present, selected), call)])
  {
    var close, c := Review.CloseSync(folder, present, selected), Commit(Closed(f, present, selected), call);
    assert [close] + [] == [close] && [c] + [] == [c];
  }

  /** The batches, and the end of the sync. */
  ghost function BatchesAndEnd(c: Commit, at: nat -> Box, todo: seq<nat>, present: seq<nat>, selected: Selected): seq<Commit> {
    var batches := Batches(c.folder, at, c.call, todo);
    batches + [Commit(Closed(LastOf(c, batches).folder, present, selected), LastOf(c, batches).call)]
  }

  lemma BatchesAndEndMore(c: Commit, at: nat -> Box, todo: seq<nat>, present: seq<nat>, selected: Selected)
    requires todo != []
    ensures var cut := if |todo| < FETCH_BATCH then |todo| else FETCH_BATCH;
            var d := NextBatch(c, at, todo, cut);
            BatchesAndEnd(c, at, todo, present, selected) == [d] + BatchesAndEnd(d, at, todo[cut..], present, selected)
  {
    var cut := if |todo| < FETCH_BATCH then |todo| else FETCH_BATCH;
    var d := NextBatch(c, at, todo, cut);
    LastOfMore(c, d, Batches(d.folder, at, d.call, todo[cut..]));
  }

  lemma {:induction false} BatchesFollow(w: Review.World, folder: nat, c: Commit, at: nat -> Box, todo: seq<nat>,
                                        present: seq<nat>, selected: Selected)
    requires folder < |w.folders| && w.folders[folder] == c.folder
    ensures Follows(w, folder, BatchSteps(folder, at, c.call, todo) + [Review.CloseSync(folder, present, selected)],
                    BatchesAndEnd(c, at, todo, present, selected))
    decreases |todo|
  {
    var close := Review.CloseSync(folder, present, selected);
    if todo == [] {
      ClosingFollows(w, folder, c.folder, c.call, present, selected);
      assert [] + [close] == [close];
    } else {
      var cut := if |todo| < FETCH_BATCH then |todo| else FETCH_BATCH;
      var d := NextBatch(c, at, todo, cut);
      var infos := Fetch(at(c.call), todo[..cut]);
      var rest := BatchSteps(folder, at, d.call, todo[cut..]) + [close];
      var v := Review.Step(w, Review.AbsorbMore(folder, infos));
      BatchesFollow(v, folder, d, at, todo[cut..], present, selected);
      BatchesAndEndMore(c, at, todo, present, selected);
      assert BatchSteps(folder, at, c.call, todo) + [close] == [Review.AbsorbMore(folder, infos)] + rest;
    }
  }

  lemma IncrementalFollows(v: Review.World, folder: nat, f: Folder, at: nat -> Box, call: nat)
    requires Served(at) && folder < |v.folders| && v.folders[folder] == f && UseCondstore(f, Select(at(call)), false)
    ensures Follows(v, folder, Steps(folder, f, at, call, false)[1..], Trace(f, at, call, false)[1..])
  {
    var infos := Fetch(at(call + 1), ChangedSince(at(call + 1), f.row.highest.value));
    var absorb, close := Review.AbsorbMore(folder, infos), Review.CloseSync(folder, Uids(at(call + 2)), Select(at(call)));
    var x := Review.Step(v, absorb);
    var g := Changes(f, at(call + 1));
    var end := Commit(Closed(g, Uids(at(call + 2)), Select(at(call))), call + 3);
    ClosingFollows(x, folder, g, call + 3, Uids(at(call + 2)), Select(at(call)));
    assert Steps(folder, f, at, call, false)[1..] == [absorb] + [close];
    assert Trace(f, at, call, false)[1..] == [Commit(g, call + 2)] + [end];
  }

  lemma FullIsBatchesAndEnd(folder: nat, f: Folder, at: nat -> Box, call: nat, force: bool)
    requires Served(at) && !UseCondstore(f, Select(at(call)), force)
    ensures var selected, present := Select(at(call)), Uids(at(call + 1));
            && Steps(folder, f, at, call, force)[1..] ==
                 BatchSteps(folder, at, call + 2, present) + [Review.CloseSync(folder, present, selected)]
            && Trace(f, at, call, force)[1..] == BatchesAndEnd(Commit(Begin(f, selected), call + 2), at, present, present, selected)
  {
    FullTrace(f, at, call, force);
  }

  lemma FullFollows(v: Review.World, folder: nat, f: Folder, at: nat -> Box, call: nat, force: bool)
    requires Served(at) && folder < |v.folders| && v.folders[folder] == Begin(f, Select(at(call)))
    requires !UseCondstore(f, Select(at(call)), force)
    ensures Follows(v, folder, Steps(folder, f, at, call, force)[1..], Trace(f, at, call, force)[1..])
  {
    var selected, present := Select(at(call)), Uids(at(call + 1));
    FullIsBatchesAndEnd(folder, f, at, call, force);
    BatchesFollow(v, folder, Commit(Begin(f, selected), call + 2), at, present, present, selected);
  }

  lemma SyncFollows(w: Review.World, folder: nat, at: nat -> Box, call: nat, force: bool)
    requires Served(at) && folder < |w.folders|
    ensures var f := w.folders[folder];
            Follows(w, folder, Steps(folder, f, at, call, force), Trace(f, at, call, force))
  {
    var f, selected := w.folders[folder], Select(at(call));
    var start := Review.StartSync(folder, selected);
    var v := Review.Step(w, start);
    var ops, commits := Steps(folder, f, at, call, force), Trace(f, at, call, force);
    if UseCondstore(f, selected, force) {
      IncrementalFollows(v, folder, f, at, call);
    } else {
      FullFollows(v, folder, f, at, call, force);
    }
    assert ops == [start] + ops[1..] && commits == [Commit(Begin(f, selected), call + 1)] + commits[1..];
  }

  lemma RunFromTheFront(w: Review.World, ops: seq<Review.Op>, k: nat)
    requires 1 <= k <= |ops|
    ensures Review.Run(w, ops[..k]) == Review.Run(Review.Step(w, ops[0]), ops[1..][..k - 1])
  {
    assert ops[..k] == [ops[0]] + ops[1..][..k - 1];
    RunAppend(w, [ops[0]], ops[1..][..k - 1]);
    RunOne(w, ops[0]);
  }

  lemma {:induction false} FollowedIsRun(w: Review.World, folder: nat, ops: seq<Review.Op>, commits: seq<Commit>, k: nat)
    requires Follows(w, folder, ops, commits) && 1 <= k <= |ops|
    ensures k <= |commits| && folder < |w.folders|
    ensures Review.Run(w, ops[..k]).folders == w.folders[folder := commits[k - 1].folder]
    decreases k
  {
    RunFromTheFront(w, ops, k);
    if k == 1 {
      assert ops[1..][..0] == [];
    } else {
      FollowedIsRun(Review.Step(w, ops[0]), folder, ops[1..], commits[1..], k - 1);
    }
  }

  /** A sync: after its k-th step the folder is what its k-th commit leaves, and no other folder has changed. */
  lemma SyncIsSteps(w: Review.World, folder: nat, at: nat -> Box, call: nat, force: bool, k: nat)
    requires Served(at) && folder < |w.folders|
    requires 1 <= k <= |Steps(folder, w.folders[folder], at, call, force)|
    ensures var ops, commits := Steps(folder, w.folders[folder], at, call, force), Trace(w.folders[folder], at, call, force);
            k <= |commits| && Review.Run(w, ops[..k]).folders == w.folders[folder := commits[k - 1].folder]
  {
    SyncFollows(w, folder, at, call, force);
    FollowedIsRun(w, folder, Steps(folder, w.folders[folder], at, call, force), Trace(w.folders[folder], at, call, force), k);
  }

  lemma ItemIsAStep(st: Apply.State, b: nat, id: nat, trash: Option<string>) returns (ops: seq<Review.Op>)
    requires b < |st.rows.bundles| && Apply.Waiting(st.rows, b, id)
    ensures Review.Run(st.rows, ops) == Apply.ApplyItem(st, b, id, trash).state.rows
  {
    var one := Apply.ApplyItem(st, b, id, trash);
    if one.state.rows == st.rows {
      ops := [];
    } else if one.state.rows == Review.ApplyingOne(st.rows, id, true) {
      ops := [Review.ApplyOne(id, true)];
      RunOne(st.rows, ops[0]);
    } else {
      ops := [Review.ApplyOne(id, false)];
      RunOne(st.rows, ops[0]);
    }
  }

  lemma {:induction false} ItemsAreSteps(st: Apply.State, b: nat, ids: seq<nat>, trash: Option<string>) returns (ops: seq<Review.Op>)
    requires b < |st.rows.bundles|
    ensures Review.Run(st.rows, ops) == Apply.ApplyAll(st, b, ids, trash).state.rows
    decreases |ids|
  {
    if ids == [] || !Apply.Waiting(st.rows, b, ids[0]) {
      ops := [];
    } else {
      var one := Apply.ApplyItem(st, b, ids[0], trash);
      var first := ItemIsAStep(st, b, ids[0], trash);
      if one.failed {
        ops := first;
      } else {
        var rest := ItemsAreSteps(one.state, b, ids[1..], trash);
        RunAppend(st.rows, first, rest);
        ops := first + rest;
      }
    }
  }

  lemma EnsuringIsAStep(st: Apply.State, b: nat) returns (ops: seq<Review.Op>)
    requires b < |st.rows.bundles|
    ensures Review.Run(st.rows, ops) == Apply.EnsureTarget(st, b).state.rows
  {
    var ensured := Apply.EnsureTarget(st, b);
    if ensured.state.rows == st.rows {
      ops := [];
    } else {
      var target := st.rows.bundles[b].target.value;
      var info := st.server.makes[st.rows.folders[target].row.name];
      ops := [Review.MakeTarget(target, info.name, info.delimiter, info.special)];
      RunOne(st.rows, ops[0]);
    }
  }

  /** An apply that is cut off. */
  lemma CutIsSteps(st: Apply.State, b: nat, k: nat, trash: Option<string>) returns (ops: seq<Review.Op>)
    ensures Review.Run(st.rows, ops) == Apply.CutOff(st, b, k, trash).rows
  {
    if !Apply.Appliable(st, b) || Apply.InOrder(st.rows, b) == [] || Apply.EnsureTarget(st, b).failed {
      ops := [];
    } else {
      var ids := Apply.InOrder(st.rows, b);
      var first := EnsuringIsAStep(st, b);
      var rest := ItemsAreSteps(Apply.EnsureTarget(st, b).state, b, if k < |ids| then ids[..k] else ids, trash);
      RunAppend(st.rows, first, rest);
      ops := first + rest;
    }
  }

  lemma ThenClosing(rows: Review.World, first: seq<Review.Op>, b: nat, tried: bool) returns (ops: seq<Review.Op>)
    requires b < |Review.Run(rows, first).bundles|
    ensures Review.Run(rows, ops) == Review.ClosingApply(Review.Run(rows, first), b, tried)
  {
    var close := Review.CloseApply(b, tried);
    RunOne(Review.Run(rows, first), close);
    RunAppend(rows, first, [close]);
    ops := first + [close];
  }

  /** An apply that runs to its end. */
  lemma FinishedIsSteps(st: Apply.State, b: nat, trash: Option<string>) returns (ops: seq<Review.Op>)
    ensures Review.Run(st.rows, ops) == Apply.Finished(st, b, trash).rows
  {
    if !Apply.Appliable(st, b) {
      return [];
    }
    var ids := Apply.InOrder(st.rows, b);
    if ids == [] {
      ops := ThenClosing(st.rows, [], b, false);
    } else if Apply.EnsureTarget(st, b).failed {
      ops := [];
    } else {
      ops := CutIsSteps(st, b, |ids|, trash);
      var e := Apply.EnsureTarget(st, b).state;
      if !Apply.ApplyAll(e, b, ids, trash).failed {
        ops := ThenClosing(st.rows, ops, b, true);
      }
    }
  }
}
