/** What applying a bundle of changes to messages does to the mailbox: `apply_bundle` of `imap/apply.py`. */
module Effects {
  import opened Common
  import opened Sync
  import opened Freshness
  import opened Review
  import opened Client
  import opened Apply
  import opened Fates
  import Growth
  import Mailbox
  import Once
  import Resume
  import ReviewSafety

  // ------------------------------------------------------------------ an item that is not applied

  predicate BecameApplied(st: State, b: nat, id: nat, trash: Option<string>)
    requires OfMessage(st, b, id)
  {
    ApplyItem(st, b, id, trash).state.rows.items[id - 1].status == Applied
  }

  /** On every mailbox, an item that does not end as applied has left it as it was. */
  ghost predicate RefusedIsUntouched(operation: Operation, canMove: bool) {
    forall st: State, b: nat, id: nat, trash: Option<string> ::
      OfMessage(st, b, id) && st.rows.bundles[b].operation == operation && st.server.canMove == canMove
      && !BecameApplied(st, b, id, trash)
      ==> ApplyItem(st, b, id, trash).state.server == st.server
  }

  lemma NotAppliedIsUntouched(st: State, b: nat, id: nat, trash: Option<string>)
    requires OfMessage(st, b, id) && !BecameApplied(st, b, id, trash)
    requires !Once.Moves(st.rows.bundles[b].operation) || st.server.canMove
    ensures ApplyItem(st, b, id, trash).state.server == st.server
  {}

  /** A message in "a" that may be read and not changed, to go to "b". */
  function Halfway(operation: Operation): State {
    var premise := Premise(1, 1, Some(1), {});
    var from := Folder(Container("a", None, false, Some(1), Some(1), 1, 1, true, false), map[Slot(1, 1) := Placement(0, {}, Some(1), false)]);
    var to := Folder(Container("b", None, false, Some(1), Some(1), 0, 1, true, false), map[]);
    State(World([from, to], [Item(0, Some(0), 0, premise, Accepted)], [Bundle(0, operation, Some(1), 0, BundleAccepted, [])]),
          Server(map["a" := Once.OneMessage({}, true), "b" := Mailbox.Box(1, 1, 1, true, map[])], {}, {"a"},
                 Mailbox.Box(1, 1, 1, true, map[]), false, true, None, false, map[], []))
  }

  /** Without MOVE: COPY succeeds, the mark is answered NO, the item goes stale, and the copy stays. */
  lemma CopiedAndStale(operation: Operation)
    requires Once.Moves(operation)
    ensures var st, trash := Halfway(operation), Some("b");
            && OfMessage(st, 0, 1) && !BecameApplied(st, 0, 1, trash)
            && var v := ApplyItem(st, 0, 1, trash).state;
            v.rows.items[0].status == Stale && 1 in v.server.boxes["b"].mail && 1 !in st.server.boxes["b"].mail
  {
    var st, trash := Halfway(operation), Some("b");
    var item, box := st.rows.items[0], st.server.boxes["a"];
    assert Slot(1, 1) in st.rows.folders[0].places && Check(st.rows.folders[0], item.premise) == Fresh;
    assert InfoOfOne(box, 1);
    var answer := MoveMessage(st.server, "a", 1, "b", Some(1));
    assert answer == Answer(Arrived(st.server, "b", box.mail[1]), Declined);
    assert Perform(st, item, st.rows.bundles[0], trash) == answer;
  }

  predicate InfoOfOne(b: Mailbox.Box, uid: nat) { uid in b.mail && Mailbox.InfoOf(b, uid).modseq == Some(b.mail[uid].modseq) }

  /** An item that does not end as applied leaves the mailbox alone exactly if it is no move, or the server has MOVE. */
  lemma RefusedIsUntouchedExactly(operation: Operation, canMove: bool)
    requires operation != Discard
    ensures RefusedIsUntouched(operation, canMove) <==> !Once.Moves(operation) || canMove
  {
    if !Once.Moves(operation) || canMove {
      forall st: State, b: nat, id: nat, trash: Option<string>
        | OfMessage(st, b, id) && st.rows.bundles[b].operation == operation && st.server.canMove == canMove
          && !BecameApplied(st, b, id, trash)
        ensures ApplyItem(st, b, id, trash).state.server == st.server
      {
        NotAppliedIsUntouched(st, b, id, trash);
      }
    } else {
      CopiedAndStale(operation);
    }
  }

  // ------------------------------------------------------------------ the folder to move into

  /** What the run starts from. */
  function Start(st: State, b: nat): State
    requires Appliable(st, b)
  {
    if InOrder(st.rows, b) == [] then st else EnsureTarget(st, b).state
  }

  /** The bundle moves into a folder the server is not known to have. */
  predicate NeedsFolder(st: State, b: nat)
    requires b < |st.rows.bundles|
  {
    var target := st.rows.bundles[b].target;
    target.Some? && target.value < |st.rows.folders| && !st.rows.folders[target.value].row.made
  }

  /** The server answers CREATE for a folder that had to be made: the row is as the server says, what was not listed
      before is there, new, and nothing else has changed in the cache or on the server. */
  predicate FolderMade(st: State, e: State, b: nat)
    requires b < |st.rows.bundles| && NeedsFolder(st, b)
  {
    var t := st.rows.bundles[b].target.value;
    var was := st.rows.folders[t];
    && was.row.name in st.server.makes
    && var info := st.server.makes[was.row.name];
    && e.rows.items == st.rows.items && e.rows.bundles == st.rows.bundles
    && e.rows.folders == st.rows.folders[t := was.(row := was.row.(name := info.name, delimiter := info.delimiter,
                                                                 special := info.special, made := true, discarded := false))]
    && e.server == st.server.(boxes := e.server.boxes)
    && (if info.name in st.server.boxes || info.name in st.server.noselect then e.server.boxes == st.server.boxes
        else e.server.boxes == st.server.boxes[info.name := st.server.blank])
  }

  /** A run makes its folder before anything else, if there is something to put into it; if the server will not
      have it, or none is needed, everything is as it was. */
  predicate Prepared(st: State, e: State, b: nat)
    requires b < |st.rows.bundles|
  {
    if (forall i: Item <- st.rows.items :: i.bundle == b ==> i.status != Accepted) || !NeedsFolder(st, b)
       || st.rows.folders[st.rows.bundles[b].target.value].row.name !in st.server.makes
    then e == st
    else FolderMade(st, e, b)
  }

  lemma StartIsPrepared(st: State, b: nat)
    requires Appliable(st, b)
    ensures Prepared(st, Start(st, b), b)
    ensures EnsureTarget(st, b).failed <==>
              NeedsFolder(st, b) && st.rows.folders[st.rows.bundles[b].target.value].row.name !in st.server.makes
  {
    Resume.WhatWaits(st.rows, b);
  }

  /** What CREATE makes goes by a name no other folder of the cache has. */
  predicate MakesApart(st: State, b: nat)
    requires b < |st.rows.bundles|
  {
    && Mailbox.Valid(st.server.blank)
    && (NeedsFolder(st, b) ==>
          var t := st.rows.bundles[b].target.value;
          var name := st.rows.folders[t].row.name;
          name in st.server.makes ==>
            forall k :: 0 <= k < |st.rows.folders| && k != t ==> st.rows.folders[k].row.name != st.server.makes[name].name)
  }

  lemma PreparedItem(st: State, e: State, b: nat, id: nat)
    requires Ready(st, b) && MakesApart(st, b) && NeedsFolder(st, b) && FolderMade(st, e, b) && Waiting(st.rows, b, id)
    ensures OfMessage(e, b, id) && (Current(e.rows, id) <==> Current(st.rows, id))
    ensures Current(st.rows, id) ==> PutOf(e.rows, id) == PutOf(st.rows, id) && RestsOn(e.server, e.rows, id)
  {
    assert OfMessage(st, b, id);
    if Current(st.rows, id) {
      assert RestsOn(st.server, st.rows, id);
    }
  }

  /** The folder made, the items are as ready as they were. */
  lemma PreparedIsReady(st: State, b: nat)
    requires Appliable(st, b) && Ready(st, b) && MakesApart(st, b)
    ensures Ready(Start(st, b), b)
  {
    var e := Start(st, b);
    StartIsPrepared(st, b);
    if e != st {
      forall id: nat | Waiting(e.rows, b, id) ensures OfMessage(e, b, id) && (Current(e.rows, id) ==> RestsOn(e.server, e.rows, id)) {
        assert Waiting(st.rows, b, id);
        PreparedItem(st, e, b, id);
      }
      forall i: nat, j: nat | Waiting(e.rows, b, i) && Waiting(e.rows, b, j) && i != j && Current(e.rows, i) && Current(e.rows, j)
        ensures PutOf(e.rows, i) != PutOf(e.rows, j)
      {
        assert Waiting(st.rows, b, i) && Waiting(st.rows, b, j);
        PreparedItem(st, e, b, i);
        PreparedItem(st, e, b, j);
      }
    }
  }

  // ------------------------------------------------------------------ the mailbox afterwards

  /** The items that were got to have met their fates, the others wait. */
  ghost predicate Decided(e: State, u: State, b: nat, ids: seq<nat>, done: seq<nat>, trash: Option<string>) {
    && AllOfMessages(e, b, ids) && |u.rows.items| == |e.rows.items|
    && forall id <- ids ::
         u.rows.items[id - 1].status == if id !in done then Accepted else if FateOf(e, b, id, trash) == Made then Applied else Stale
  }

  lemma MidwayDecides(e: State, st: State, b: nat, ids: seq<nat>, done: seq<nat>, trash: Option<string>)
    requires Ready(e, b) && Midway(e, st, b, done, trash) && forall id <- ids :: Waiting(e.rows, b, id)
    ensures Decided(e, st, b, ids, done, trash)
  {
    forall id | id in ids ensures OfMessage(e, b, id) {}
  }

  lemma FinishedStands(st: State, b: nat, trash: Option<string>) returns (run: Progress)
    requires Appliable(st, b) && InOrder(st.rows, b) != [] && !EnsureTarget(st, b).failed
    ensures run == ApplyAll(Start(st, b), b, InOrder(st.rows, b), trash)
    ensures Finished(st, b, trash).server == run.state.server && Finished(st, b, trash).rows.items == run.state.rows.items
  {
    run := ApplyAll(Start(st, b), b, InOrder(st.rows, b), trash);
  }

  /** `done` are the items that were got to: all of them, up to the first that could not be reached.  The mailbox is
      as it was but for exactly the messages of those that are applied, and the copies. */
  ghost predicate Afterwards(st: State, b: nat, trash: Option<string>, done: seq<nat>)
    requires Appliable(st, b)
  {
    var e, u, ids := Start(st, b), Finished(st, b, trash), InOrder(st.rows, b);
    && done <= ids && Decided(e, u, b, ids, done, trash)
    && (done < ids ==> EnsureTarget(st, b).failed || FateOf(e, b, ids[|done|], trash) == Unreached)
    && AllOfMessages(e, b, done) && b < |e.rows.bundles|
    && Shows(e.server, u.server, st.rows.bundles[b].operation, DestinationOf(e.rows, b, trash),
             HitsOf(e, b, done, trash), CopiesOf(e, b, done, trash))
  }

  /** A run that got through its items, or stopped at one. */
  ghost predicate Reached(e: State, s: State, b: nat, ids: seq<nat>, done: seq<nat>, trash: Option<string>)
    requires b < |e.rows.bundles|
  {
    && done <= ids && Decided(e, s, b, ids, done, trash) && AllOfMessages(e, b, done)
    && (done < ids ==> FateOf(e, b, ids[|done|], trash) == Unreached)
    && Shows(e.server, s.server, e.rows.bundles[b].operation, DestinationOf(e.rows, b, trash),
             HitsOf(e, b, done, trash), CopiesOf(e, b, done, trash))
  }

  lemma RunReaches(e: State, b: nat, ids: seq<nat>, trash: Option<string>)
    requires Ready(e, b) && Growth.NoDup(ids) && forall id <- ids :: Waiting(e.rows, b, id)
    ensures var run := ApplyAll(e, b, ids, trash); Reached(e, run.state, b, ids, ids[..run.done], trash)
  {
    AtTheStart(e, b, trash);
    RunShows(e, e, b, [], ids, trash);
    var run := ApplyAll(e, b, ids, trash);
    assert [] + ids[..run.done] == ids[..run.done];
    MidwayDecides(e, run.state, b, ids, ids[..run.done], trash);
  }

  lemma OnlyClosed(st: State, b: nat, trash: Option<string>, e: State, s: State, done: seq<nat>)
    requires Appliable(st, b) && e == Start(st, b) && b < |e.rows.bundles| && e.rows.bundles == st.rows.bundles
    requires Reached(e, s, b, InOrder(st.rows, b), done, trash)
    requires Finished(st, b, trash).server == s.server && Finished(st, b, trash).rows.items == s.rows.items
    ensures Afterwards(st, b, trash, done)
  {}

  /** A bundle of changes to messages, run to its end with nobody else at the mailbox.  The folder it moves into is
      made if it has to be; what becomes of each item
      is what would have become of it alone; up to the first that cannot be reached all are decided; and the
      mailbox is as it was but for exactly the messages of the applied items, each changed as the bundle says, and
      for a move a copy of each in the target, in order.  Without MOVE, one that cannot be marked is copied too. */
  lemma MailboxAfterwards(st: State, b: nat, trash: Option<string>) returns (done: seq<nat>)
    requires Appliable(st, b) && st.rows.bundles[b].operation != Discard && Ready(st, b) && MakesApart(st, b)
    ensures Prepared(st, Start(st, b), b) && Afterwards(st, b, trash, done)
  {
    var e, ids := Start(st, b), InOrder(st.rows, b);
    StartIsPrepared(st, b);
    PreparedIsReady(st, b);
    if ids == [] || EnsureTarget(st, b).failed {
      AtTheStart(e, b, trash);
      MidwayDecides(e, e, b, ids, [], trash);
      done := [];
    } else {
      Resume.EnsuringIsOrderly(st, b);
      OrderedOnce(st.rows, b);
      RunReaches(e, b, ids, trash);
      var run := FinishedStands(st, b, trash);
      done := ids[..run.done];
      OnlyClosed(st, b, trash, e, run.state, done);
    }
  }

  lemma {:induction false} CopiesCome(e: State, b: nat, ids: seq<nat>, trash: Option<string>, put: Put)
    requires AllOfMessages(e, b, ids)
    ensures put in CopiesOf(e, b, ids, trash) <==>
              exists id :: id in ids && PutOf(e.rows, id) == put && Copies(e.rows.bundles[b].operation, FateOf(e, b, id, trash))
    decreases |ids|
  {
    if ids != [] {
      var rest := ids[..|ids| - 1];
      assert forall id :: id in ids <==> id in rest || id == Last(ids) by { assert ids == rest + [Last(ids)]; }
      CopiesCome(e, b, rest, trash, put);
    }
  }

  /** Of a bundle that moves, what is gone or marked where it was has been copied; and what was copied is gone or
      marked, but for messages of a folder that may not be changed, where there is no MOVE. */
  lemma NothingIsLost(e: State, b: nat, ids: seq<nat>, trash: Option<string>, put: Put)
    requires b < |e.rows.bundles| && AllOfMessages(e, b, ids) && Once.Moves(e.rows.bundles[b].operation)
    ensures put in HitsOf(e, b, ids, trash) ==> put in CopiesOf(e, b, ids, trash)
    ensures put in CopiesOf(e, b, ids, trash) ==>
              put in HitsOf(e, b, ids, trash) || (!e.server.canMove && put.name in e.server.fixed)
  {
    CopiesCome(e, b, ids, trash, put);
    if put in HitsOf(e, b, ids, trash) {
      var id :| id in ids && FateOf(e, b, id, trash) == Made && PutOf(e.rows, id) == put;
      assert Copies(e.rows.bundles[b].operation, FateOf(e, b, id, trash));
    }
  }

  lemma {:induction false} CopiedOnce(e: State, b: nat, ids: seq<nat>, trash: Option<string>)
    requires Ready(e, b) && Growth.NoDup(ids) && AllOfMessages(e, b, ids)
    ensures forall i, j :: 0 <= i < j < |CopiesOf(e, b, ids, trash)| ==> CopiesOf(e, b, ids, trash)[i] != CopiesOf(e, b, ids, trash)[j]
    decreases |ids|
  {
    if ids != [] {
      var rest, id := ids[..|ids| - 1], Last(ids);
      CopiedOnce(e, b, rest, trash);
      assert id in ids;
      CopiesCome(e, b, rest, trash, PutOf(e.rows, id));
      if PutOf(e.rows, id) in CopiesOf(e, b, rest, trash) && Copies(e.rows.bundles[b].operation, FateOf(e, b, id, trash)) {
        var other :| other in rest && PutOf(e.rows, other) == PutOf(e.rows, id)
                     && Copies(e.rows.bundles[b].operation, FateOf(e, b, other, trash));
        BothCurrent(e, b, other, id, trash);
        assert false;
      }
    }
  }

  lemma BothCurrent(e: State, b: nat, i: nat, j: nat, trash: Option<string>)
    requires Ready(e, b) && Waiting(e.rows, b, i) && Waiting(e.rows, b, j) && i != j
    requires Copies(e.rows.bundles[b].operation, FateOf(e, b, i, trash)) && Copies(e.rows.bundles[b].operation, FateOf(e, b, j, trash))
    ensures PutOf(e.rows, i) != PutOf(e.rows, j)
  {
    assert Current(e.rows, i) && Current(e.rows, j);
  }

  /** An item is applied if and only if the cache still has its message as it was proposed and so has the server:
      unchanged since, by its mod-sequence where there are any and by its flags where there are not; and the server
      lets it be changed, and has the folder it is to go to. */
  lemma MadeExactly(st: State, b: nat, id: nat, trash: Option<string>)
    requires OfMessage(st, b, id) && TakenThere(st.server, st.rows, id)
    ensures var item, s, put := st.rows.items[id - 1], st.server, PutOf(st.rows, id);
            var moves, dest := !st.rows.bundles[b].operation.AddFlag? && !st.rows.bundles[b].operation.RemoveFlag?, DestinationOf(st.rows, b, trash);
            FateOf(st, b, id, trash) == Made <==>
              && StillHolds(st.rows.folders, item) && put.name in s.boxes && put.name !in s.fixed
              && put.uid in s.boxes[put.name].mail
              && var mail := s.boxes[put.name].mail[put.uid];
              && (if item.premise.modseq.None? then mail.flags == item.premise.flags
                  else if moves then mail.modseq == item.premise.modseq.value
                  else mail.modseq <= item.premise.modseq.value)
              && (moves ==> dest.Some? && dest.value in s.boxes)
  {}

  /** Items about messages are taken in the order they were proposed in. */
  lemma AsTheyStand(rows: World, b: nat)
    requires b < |rows.bundles| && rows.bundles[b].operation != Discard
    ensures forall i, j :: 0 <= i < j < |InOrder(rows, b)| ==> InOrder(rows, b)[i] < InOrder(rows, b)[j]
  {
    var keys, ids := KeysOf(rows, b), InOrder(rows, b);
    Resume.OrderedIsSorted(rows, b, |rows.items|);
    forall i, j | 0 <= i < j < |ids| ensures ids[i] < ids[j] {
      assert Before(keys, ids[i], ids[j]) && keys[ids[i] - 1] == Key(0, "") == keys[ids[j] - 1];
    }
  }

  // ------------------------------------------------------------------ every bundle there is

  predicate UniqueNames(folders: seq<Folder>) {
    forall i, j :: 0 <= i < j < |folders| ==> folders[i].row.name != folders[j].row.name
  }

  lemma ApartByName(w: World, b: nat, i: nat, j: nat)
    requires ReviewSafety.AllPinned(w) && Growth.NoTwice(w.items) && UniqueNames(w.folders)
    requires Waiting(w, b, i) && Waiting(w, b, j) && i != j && w.items[i - 1].message.Some? && w.items[j - 1].message.Some?
    requires w.items[i - 1].folder < |w.folders| && w.items[j - 1].folder < |w.folders| && Current(w, i) && Current(w, j)
    ensures PutOf(w, i) != PutOf(w, j)
  {
    var a, c := w.items[i - 1], w.items[j - 1];
    assert a in w.items && c in w.items && ReviewSafety.Pinned(w.folders, a) && ReviewSafety.Pinned(w.folders, c);
    assert a.message != c.message by {
      assert if i < j then w.items[i - 1].message != w.items[j - 1].message else w.items[j - 1].message != w.items[i - 1].message;
    }
    if a.folder != c.folder {
      assert w.folders[a.folder].row.name != w.folders[c.folder].row.name;
    }
  }

  /** In every state that can be reached the items of an accepted bundle of changes to messages are ready: what is
      left to assume is that they rest on folders the server has, and that folders have distinct names. */
  lemma ReachedIsReady(e: State, b: nat, ops: seq<Op>, most: nat)
    requires e.rows == Review.Run(EMPTY, ops) && forall op <- ops :: Growth.Limited(op, most)
    requires Appliable(e, b) && e.rows.bundles[b].operation != Discard && UniqueNames(e.rows.folders) && AllValid(e.server)
    requires forall id: nat :: Waiting(e.rows, b, id) && e.rows.items[id - 1].folder < |e.rows.folders| && Current(e.rows, id)
               ==> RestsOn(e.server, e.rows, id)
    ensures Ready(e, b)
  {
    ReviewSafety.EveryRunIsSound(ops);
    Growth.BundlesStayTidy(ops, most);
    forall id: nat | Waiting(e.rows, b, id) ensures OfMessage(e, b, id) {
      assert e.rows.items[id - 1] in e.rows.items && ReviewSafety.Pinned(e.rows.folders, e.rows.items[id - 1]);
      assert Growth.OfItsKind(e.rows.bundles, e.rows.items[id - 1]);
    }
    forall i: nat, j: nat | Waiting(e.rows, b, i) && Waiting(e.rows, b, j) && i != j && Current(e.rows, i) && Current(e.rows, j)
      ensures PutOf(e.rows, i) != PutOf(e.rows, j)
    {
      ApartByName(e.rows, b, i, j);
    }
  }

  // ------------------------------------------------------------------ one attempt of many

  /** What applying does to the folder of a message is one undisturbed attempt in the sense of `Once`. */
  lemma ApplyIsATry(st: State, b: nat, id: nat, trash: Option<string>)
    requires OfMessage(st, b, id) && PutOf(st.rows, id).name in st.server.boxes && !ApplyItem(st, b, id, trash).failed
    requires Once.Moves(st.rows.bundles[b].operation) ==>
               var dest := DestinationOf(st.rows, b, trash);
               dest.Some? && dest.value in st.server.boxes && dest.value != PutOf(st.rows, id).name
    ensures var item, name, operation := st.rows.items[id - 1], PutOf(st.rows, id).name, st.rows.bundles[b].operation;
            var fixed, half := name in st.server.fixed, Once.Moves(operation) && !st.server.canMove;
            var act := Once.Try(StillHolds(st.rows.folders, item), [], [], fixed && !half, fixed && half, st.server.counts, Once.Never);
            var w := Once.After(Once.Wire(st.server.boxes[name], 0, false), operation, item.premise, st.server.canMove, act);
            var v := ApplyItem(st, b, id, trash).state;
            name in v.server.boxes && v.server.boxes[name] == w.box && w.decided && v.rows.items[id - 1].status != Accepted
  {
    var box := st.server.boxes[PutOf(st.rows, id).name];
    assert Mailbox.Run(box, []) == box;
  }
}
