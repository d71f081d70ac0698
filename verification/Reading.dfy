/** Nothing reaches a mailbox that nobody read. */
module Reading {
  import opened Common
  import opened Sync
  import opened Review
  import opened ReviewSafety
  import opened Growth

  // The premise of a review in `suggest/model.py`, over whole runs of proposing, growing, excluding, refreshing,
  // syncing, expiring, accepting and applying.

  /** The page of the bundle lists the item. */
  predicate OnPage(items: seq<Item>, b: nat, id: nat) { 1 <= id <= |items| && items[id - 1].bundle == b }

  /** `reviewed_through` says what a page showed. */
  lemma {:induction false} ShownThroughIsLast(items: seq<Item>, b: nat)
    ensures var through := ShownThrough(items, b);
            && (through > 0 ==> OnPage(items, b, through))
            && forall id: nat :: OnPage(items, b, id) ==> id <= through
  {
    if items != [] {
      var rest := items[..|items| - 1];
      ShownThroughIsLast(rest, b);
      forall id: nat | OnPage(items, b, id) ensures id <= ShownThrough(items, b) {
        assert id <= |rest| ==> OnPage(rest, b, id);
      }
    }
  }

  predicate Going(item: Item) { item.status == Accepted || item.status == Applied }

  // ------------------------------------------------------------------ how an item comes to be accepted, and applied

  /** The item was open, on the page that was accepted from, and still as it was proposed. */
  predicate RightlyAccepted(w: World, op: Op, id: nat) {
    && op.Accept? && OnPage(w.items, op.bundle, id) && w.items[id - 1].status == Proposed
    && id <= op.reviewedThrough && ShownThrough(w.items, op.bundle) <= op.reviewedThrough
    && StillHolds(w.folders, w.items[id - 1])
  }

  lemma AcceptingIsTheWay(w: World, op: Op, id: nat)
    requires op.Accept? && 1 <= id <= |w.items| && !Going(w.items[id - 1]) && Going(Step(w, op).items[id - 1])
    ensures RightlyAccepted(w, op, id)
  {
    ShownThroughIsLast(w.items, op.bundle);
    assert Refreshed(w, op.bundle).items[id - 1] == Judged(w.folders, w.items[id - 1], op.bundle);
    assert OnPage(w.items, op.bundle, id);
  }

  /** Neither accepted nor applied by this. */
  predicate MovesNothing(before: Item, after: Item) {
    (Going(after) ==> Going(before)) && (after.status == Applied ==> before.status == Applied)
  }

  lemma {:induction false} ExpiringMovesNothing(w: World, now: nat, n: nat, id: nat)
    requires n <= |w.bundles| && 1 <= id <= |w.items|
    ensures MovesNothing(w.items[id - 1], Expiring(w, now, n).items[id - 1])
  {
    if n > 0 {
      ExpiringMovesNothing(w, now, n - 1, id);
    }
  }

  lemma OthersMoveNothing(w: World, op: Op, id: nat)
    requires !Larger(op) && !op.Accept? && !op.ApplyOne? && 1 <= id <= |w.items|
    ensures id <= |Step(w, op).items| && MovesNothing(w.items[id - 1], Step(w, op).items[id - 1])
  {
    if op.ExpireDue? {
      ExpiringMovesNothing(w, op.now, |w.bundles|, id);
    }
  }

  predicate GoingIn(w: World, id: nat) { 1 <= id <= |w.items| && Going(w.items[id - 1]) }

  lemma OnlyAcceptingAccepts(w: World, op: Op, id: nat)
    requires !GoingIn(w, id)
    ensures GoingIn(Step(w, op), id) ==> id <= |w.items| && RightlyAccepted(w, op, id)
  {
    if Larger(op) {
      NewItemsAreOpen(w, op, id);
    } else {
      OthersSame(w, op);
      if GoingIn(Step(w, op), id) {
        if op.Accept? {
          AcceptingIsTheWay(w, op, id);
        } else if !op.ApplyOne? {
          OthersMoveNothing(w, op, id);
        }
      }
    }
  }

  lemma ProposedIsOpen(w: World, op: Op, id: nat)
    requires op.Propose? && !GoingIn(w, id)
    ensures !GoingIn(Step(w, op), id)
  {
    var Propose(producer, operation, target, naming, where, most, expires) := op;
    if Proposing(w, producer, operation, target, naming, where, most, expires).Some? {
      var resolved := Resolved(w.folders, target).value;
      var begun := World(resolved.0, w.items, w.bundles + [Bundle(producer, operation, resolved.1, expires, BundleProposed, [])]);
      FilledIsOpen(begun, |w.bundles|, where, naming, false, id);
    }
  }

  lemma GrownIsOpen(w: World, op: Op, id: nat)
    requires op.Grow? && !GoingIn(w, id)
    ensures !GoingIn(Step(w, op), id)
  {
    var Grow(b, producer, text, matched, found, where, most) := op;
    if Growing(w, b, producer, text, matched, found, where, most).Some? {
      FilledIsOpen(Refreshed(w, b), b, where, Searched(text, matched, found), true, id);
    }
  }

  lemma NewItemsAreOpen(w: World, op: Op, id: nat)
    requires Larger(op) && !GoingIn(w, id)
    ensures !GoingIn(Step(w, op), id)
  {
    match op
    case Propose(_, _, _, _, _, _, _) => ProposedIsOpen(w, op, id);
    case Grow(_, _, _, _, _, _, _) => GrownIsOpen(w, op, id);
    case ProposeDiscard(_, ids, _, _) =>
      if |w.items| < id <= |Step(w, op).items| {
        assert Once(ids)[id - |w.items| - 1] in Once(ids);
      }
  }

  lemma FilledIsOpen(w: World, b: nat, where: map<nat, Spot>, naming: Naming, grew: bool, id: nat)
    requires b < |w.bundles| && Locates(w.folders, where)
    requires !GoingIn(w, id)
    ensures var r := Filled(w, b, where, naming, grew); r.Some? ==> !GoingIn(r.value, id)
  {
    AddedAreLocated(w.items, b, w.bundles[b].target, where, Candidates(naming));
  }

  // ------------------------------------------------------------------ whole runs

  /** The j-th step accepted the item. */
  ghost predicate AcceptedAt(ops: seq<Op>, j: nat, id: nat) {
    j < |ops| && RightlyAccepted(Run(EMPTY, ops[..j]), ops[j], id)
  }

  lemma LastStepAccepts(ops: seq<Op>, id: nat)
    requires ops != []
    ensures GoingIn(Run(EMPTY, ops), id) && !GoingIn(Run(EMPTY, ops[..|ops| - 1]), id) ==> AcceptedAt(ops, |ops| - 1, id)
  {
    if !GoingIn(Run(EMPTY, ops[..|ops| - 1]), id) {
      OnlyAcceptingAccepts(Run(EMPTY, ops[..|ops| - 1]), Last(ops), id);
    }
  }

  lemma AcceptedEarlier(ops: seq<Op>, j: nat, id: nat)
    requires ops != [] && AcceptedAt(ops[..|ops| - 1], j, id)
    ensures AcceptedAt(ops, j, id)
  {
    assert ops[..|ops| - 1][..j] == ops[..j];
  }

  lemma {:induction false} GoingWasAccepted(ops: seq<Op>, id: nat) returns (j: nat)
    requires GoingIn(Run(EMPTY, ops), id)
    ensures AcceptedAt(ops, j, id)
    decreases |ops|
  {
    var before := ops[..|ops| - 1];
    if GoingIn(Run(EMPTY, before), id) {
      j := GoingWasAccepted(before, id);
      AcceptedEarlier(ops, j, id);
    } else {
      LastStepAccepts(ops, id);
      j := |ops| - 1;
    }
  }

  /** The page drawn after the first `i` steps is the one the j-th step accepts from. */
  ghost predicate ReadAt(ops: seq<Op>, i: nat, j: nat) {
    i <= j < |ops| && ops[j].Accept? && ops[j].reviewedThrough == ShownThrough(Run(EMPTY, ops[..i]).items, ops[j].bundle)
  }

  /** Every acceptance carries what some page of that bundle showed. */
  ghost predicate FromPages(ops: seq<Op>) {
    forall j: nat :: j < |ops| && ops[j].Accept? ==> exists i: nat :: ReadAt(ops, i, j)
  }

  /** What ends up on its way to the mailbox, or in it, was on the page it was accepted from, was neither
      excluded nor stale then, and had not changed since it was proposed. */
  lemma OnlyWhatWasReadGoes(ops: seq<Op>, id: nat)
    requires FromPages(ops) && GoingIn(Run(EMPTY, ops), id)
    ensures exists i: nat, j: nat :: ReadAt(ops, i, j) && AcceptedAt(ops, j, id) && OnPage(Run(EMPTY, ops[..i]).items, ops[j].bundle, id)
  {
    var j := GoingWasAccepted(ops, id);
    var i: nat :| ReadAt(ops, i, j);
    var earlier, now := Run(EMPTY, ops[..i]), Run(EMPTY, ops[..j]);
    ShownThroughIsLast(earlier.items, ops[j].bundle);
    assert ops[..j][..i] == ops[..i];
    RunOnward(EMPTY, ops[..j], i);
    assert ItemOnward(earlier.items[id - 1], now.items[id - 1]);
  }

  // ------------------------------------------------------------------ who applies

  lemma ProposingAppliesNothing(w: World, op: Op, id: nat)
    requires Larger(op)
    requires 1 <= id <= |w.items| && w.items[id - 1].status != Applied
    ensures id <= |Step(w, op).items| && Step(w, op).items[id - 1].status != Applied
  {
    if op.Grow? {
      GrowingAppliesNothing(w, op.bundle, op.producer, op.text, op.matched, op.found, op.where, op.most, id);
    }
  }

  lemma GrowingAppliesNothing(w: World, b: nat, producer: nat, text: string, matched: nat, found: seq<nat>,
                              where: map<nat, Spot>, most: nat, id: nat)
    requires 1 <= id <= |w.items| && w.items[id - 1].status != Applied
    ensures var v := Otherwise(Growing(w, b, producer, text, matched, found, where, most), w);
            id <= |v.items| && v.items[id - 1].status != Applied
  {
    if b < |w.bundles| {
      var now := Refreshed(w, b);
      assert |now.items| == |w.items| && now.items[id - 1].status != Applied;
    }
  }

  /** An item becomes applied only by the runner's step for it, with the server saying that it did it; the
      item was accepted and, looked at once more, still as it was proposed. */
  lemma OnlyAcceptedIsApplied(w: World, op: Op, id: nat)
    requires 1 <= id <= |w.items| && w.items[id - 1].status != Applied
    ensures id <= |Step(w, op).items|
    ensures Step(w, op).items[id - 1].status == Applied ==>
              op == ApplyOne(id, true) && w.items[id - 1].status == Accepted && StillHolds(w.folders, w.items[id - 1])
  {
    if Larger(op) {
      ProposingAppliesNothing(w, op, id);
    } else if !op.Accept? && !op.ApplyOne? {
      OthersMoveNothing(w, op, id);
    }
  }
}
