/** Accepting bundles and ending them. */
module Deciding {
  import opened Common
  import opened Sync
  import Mailbox
  import opened SyncSafety
  import opened SyncExact
  import opened Freshness
  import opened Review
  import opened ReviewSafety
  import opened Growth
  import opened Reading
  import Trust

  // Exactly when a bundle is accepted, expires, or closes, who may end or enlarge it, what each step of a review writes,
  // and what becomes of an item whose folder has moved on: `suggest/model.py` and `suggest/staleness.py`.

  // ------------------------------------------------------------------ accepting

  /** Nothing of the bundle is dead, or about to be found so. */
  predicate AllHold(w: World, b: nat) {
    forall i: Item <- w.items :: i.bundle == b ==> i.status == Excluded || (i.status == Proposed && StillHolds(w.folders, i))
  }

  predicate SomeHold(w: World, b: nat) {
    exists i: Item <- w.items :: i.bundle == b && i.status == Proposed && StillHolds(w.folders, i)
  }

  lemma RefreshedAt(w: World, b: nat, k: nat)
    requires b < |w.bundles| && Coupled(w) && w.bundles[b].status == BundleProposed && k < |w.items|
    ensures var now := Refreshed(w, b).items;
            && now[k] == Judged(w.folders, w.items[k], b) && now[k] in now && w.items[k] in w.items
            && (w.items[k].bundle == b ==> Fits(BundleProposed, w.items[k].status))
  {
    assert w.items[k] in w.items;
  }

  lemma RefreshedOffers(w: World, b: nat)
    requires b < |w.bundles| && Coupled(w) && w.bundles[b].status == BundleProposed
    ensures HasItem(Refreshed(w, b).items, b, Proposed) <==> SomeHold(w, b)
  {
    var now := Refreshed(w, b).items;
    if SomeHold(w, b) {
      var i :| i in w.items && i.bundle == b && i.status == Proposed && StillHolds(w.folders, i);
      var k :| 0 <= k < |w.items| && w.items[k] == i;
      RefreshedAt(w, b, k);
    }
    if HasItem(now, b, Proposed) {
      var k :| 0 <= k < |now| && now[k].bundle == b && now[k].status == Proposed;
      RefreshedAt(w, b, k);
    }
  }

  lemma RefreshedFinds(w: World, b: nat)
    requires b < |w.bundles| && Coupled(w) && w.bundles[b].status == BundleProposed
    ensures !HasItem(Refreshed(w, b).items, b, Stale) <==> AllHold(w, b)
  {
    var now := Refreshed(w, b).items;
    if HasItem(now, b, Stale) {
      var k :| 0 <= k < |now| && now[k].bundle == b && now[k].status == Stale;
      RefreshedAt(w, b, k);
    }
    if !AllHold(w, b) {
      var i :| i in w.items && i.bundle == b && !(i.status == Excluded || (i.status == Proposed && StillHolds(w.folders, i)));
      var k :| 0 <= k < |w.items| && w.items[k] == i;
      RefreshedAt(w, b, k);
    }
  }

  /** An acceptance goes through if and only if the bundle awaits review, the page showed all of it, something of
      it still holds, and either all of it does or the reader has acknowledged what does not. */
  lemma AcceptedExactly(w: World, b: nat, through: nat, acknowledged: bool)
    requires Coupled(w) && b < |w.bundles|
    ensures Accepting(w, b, through, acknowledged).bundles[b].status == BundleAccepted && w.bundles[b].status != BundleAccepted <==>
              && w.bundles[b].status == BundleProposed && through > 0
              && (forall id: nat :: OnPage(w.items, b, id) ==> id <= through)
              && SomeHold(w, b) && (AllHold(w, b) || acknowledged)
  {
    ShownThroughIsLast(w.items, b);
    if w.bundles[b].status == BundleProposed {
      RefreshedOffers(w, b);
      RefreshedFinds(w, b);
    }
  }

  /** And then exactly the open items that hold are accepted. */
  lemma AcceptsWhatHolds(w: World, b: nat, through: nat, acknowledged: bool, id: nat)
    requires Coupled(w) && b < |w.bundles| && 1 <= id <= |w.items|
    requires w.bundles[b].status == BundleProposed && Accepting(w, b, through, acknowledged).bundles[b].status == BundleAccepted
    ensures Accepting(w, b, through, acknowledged).items[id - 1] ==
              var item := w.items[id - 1];
              if item.bundle != b || item.status != Proposed then item
              else item.(status := if StillHolds(w.folders, item) then Accepted else Stale)
  {
    assert w.items[id - 1] in w.items;
    assert Refreshed(w, b).items[id - 1] == Judged(w.folders, w.items[id - 1], b);
  }

  // ------------------------------------------------------------------ closing

  predicate Every(items: seq<Item>, b: nat, one: ItemStatus, other: ItemStatus) {
    forall i: Item <- items :: i.bundle == b ==> i.status == one || i.status == other
  }

  /** The roll-up: applied, if all of it that was not taken out was; stale, if no run attempted anything and
      nothing was applied; partially applied otherwise. */
  lemma RollupIsHonest(w: World, b: nat, tried: bool)
    requires Coupled(w) && b < |w.bundles| && w.bundles[b].status == BundleAccepted && !HasItem(w.items, b, Accepted)
    ensures var status := ClosingApply(w, b, tried).bundles[b].status;
            && (status == BundleStale <==> !tried && !HasItem(w.items, b, Applied))
            && (status == BundleApplied <==> (tried || HasItem(w.items, b, Applied)) && Every(w.items, b, Applied, Excluded))
            && (status == BundlePartlyApplied <==> (tried || HasItem(w.items, b, Applied)) && HasItem(w.items, b, Stale))
  {
    if !HasItem(w.items, b, Stale) {
      forall i: Item | i in w.items && i.bundle == b ensures i.status == Applied || i.status == Excluded {}
    }
  }

  predicate Over(status: BundleStatus) { status != BundleProposed && status != BundleAccepted }

  /** What the status of a bundle says of its items. */
  predicate Tells(w: World, b: nat)
    requires b < |w.bundles|
  {
    match w.bundles[b].status
    case BundleAccepted => true
    case BundleApplied => Every(w.items, b, Applied, Excluded)
    case BundlePartlyApplied => HasItem(w.items, b, Stale)
    case _ => !HasItem(w.items, b, Applied)
  }

  lemma OnlyClosingCloses(w: World, op: Op, b: nat)
    requires b < |w.bundles| && b < |Step(w, op).bundles|
    ensures var before, after := w.bundles[b].status, Step(w, op).bundles[b].status;
            before != after && (before == BundleAccepted || after == BundleApplied || after == BundlePartlyApplied) ==>
              op.CloseApply? && op.bundle == b
  {
    if op.ExpireDue? {
      ExpiringBundle(w, op.now, |w.bundles|, b);
    }
  }

  lemma {:induction false} ExpiringBundle(w: World, now: nat, n: nat, c: nat)
    requires n <= |w.bundles| && c < |w.bundles|
    ensures var after := Expiring(w, now, n).bundles[c];
            after == w.bundles[c] || (w.bundles[c].status == BundleProposed && after.status == BundleExpired)
    ensures n <= c ==> Expiring(w, now, n).bundles[c] == w.bundles[c]
  {
    if n > 0 {
      ExpiringBundle(w, now, n - 1, c);
    }
  }

  /** The items a bundle had are the items it has, each with the status it had. */
  predicate SameOfBundle(a: seq<Item>, c: seq<Item>, b: nat) {
    && |a| <= |c| && (forall k :: 0 <= k < |a| ==> a[k].bundle == c[k].bundle && (a[k].bundle == b ==> a[k].status == c[k].status))
    && (forall k :: |a| <= k < |c| ==> c[k].bundle != b)
  }

  lemma SameOfBundleTells(w: World, v: World, b: nat)
    requires b < |w.bundles| && b < |v.bundles| && v.bundles[b].status == w.bundles[b].status
    requires SameOfBundle(w.items, v.items, b) && Tells(w, b)
    ensures Tells(v, b)
  {
    forall i: Item | i in v.items && i.bundle == b ensures exists j: Item :: j in w.items && j.bundle == b && j.status == i.status {
      var k :| 0 <= k < |v.items| && v.items[k] == i;
      assert w.items[k] in w.items;
    }
    forall j: Item | j in w.items && j.bundle == b ensures HasItem(v.items, b, j.status) {
      var k :| 0 <= k < |w.items| && w.items[k] == j;
      assert v.items[k] in v.items;
    }
  }

  lemma OverIsOver(w: World, op: Op, b: nat)
    requires Coupled(w) && b < |w.bundles| && Over(w.bundles[b].status)
    ensures b < |Step(w, op).bundles| && Step(w, op).bundles[b].status == w.bundles[b].status
    ensures SameOfBundle(w.items, Step(w, op).items, b)
  {
    var v := Step(w, op);
    StepOnward(w, op);
    assert BundleOnward(w.bundles[b], v.bundles[b]);
    forall k | 0 <= k < |w.items| ensures w.items[k].bundle == v.items[k].bundle && (w.items[k].bundle == b ==> w.items[k].status == v.items[k].status) {
      assert w.items[k] in w.items && FitsIn(w.bundles, w.items[k]) && ItemOnward(w.items[k], v.items[k]);
    }
    OnlyItsProducer(w, op, b);
    if op.Grow? && op.bundle == b {
      assert Growing(w, b, op.producer, op.text, op.matched, op.found, op.where, op.most).None?;
    }
    forall k | |w.items| <= k < |v.items| ensures v.items[k].bundle != b {
      assert OnPage(v.items, b, k + 1) <==> v.items[k].bundle == b;
    }
  }

  lemma NoneAppliedYet(w: World, b: nat)
    requires Coupled(w) && b < |w.bundles| && w.bundles[b].status == BundleProposed
    ensures !HasItem(w.items, b, Applied)
  {}

  /** A bundle that ends unaccepted. */
  lemma EndsUnapplied(w: World, op: Op, b: nat)
    requires Coupled(w) && b < |w.bundles| && w.bundles[b].status == BundleProposed
    requires b < |Step(w, op).bundles| && Over(Step(w, op).bundles[b].status)
    ensures !HasItem(Step(w, op).items, b, Applied)
  {
    var v := Step(w, op);
    if Larger(op) {
      LargerEndsNothing(w, op, b);
      assert false;
    }
    OthersSame(w, op);
    forall k | 0 <= k < |v.items| && v.items[k].bundle == b ensures v.items[k].status != Applied {
      assert w.items[k] in w.items && FitsIn(w.bundles, w.items[k]);
      OnlyAcceptedIsApplied(w, op, k + 1);
    }
  }

  lemma LargerEndsNothing(w: World, op: Op, b: nat)
    requires Larger(op) && b < |w.bundles|
    ensures b < |Step(w, op).bundles| && Step(w, op).bundles[b].status == w.bundles[b].status
  {
    StepOnward(w, op);
  }

  lemma NewBundleIsProposed(w: World, op: Op, b: nat)
    requires |w.bundles| <= b < |Step(w, op).bundles|
    ensures Step(w, op).bundles[b].status == BundleProposed
  {
    if !Larger(op) {
      OthersSame(w, op);
    }
  }

  lemma StepTells(w: World, op: Op, b: nat)
    requires Coupled(w) && (b < |w.bundles| ==> Tells(w, b)) && b < |Step(w, op).bundles|
    ensures Tells(Step(w, op), b)
  {
    var v := Step(w, op);
    StepCoupled(w, op);
    if v.bundles[b].status == BundleProposed {
      NoneAppliedYet(v, b);
    } else if b >= |w.bundles| {
      NewBundleIsProposed(w, op, b);
    } else if Over(w.bundles[b].status) {
      OverIsOver(w, op, b);
      SameOfBundleTells(w, v, b);
    } else if v.bundles[b].status != BundleAccepted {
      OnlyClosingCloses(w, op, b);
      if op.CloseApply? && op.bundle == b {
        RollupIsHonest(w, b, op.tried);
      } else {
        EndsUnapplied(w, op, b);
      }
    }
  }

  /** In every state that can be reached a bundle's status is so: one that is applied has had everything applied that
      was not taken out, of one that is partially applied something died, and of any other that has ended nothing
      was ever done to the mailbox. */
  lemma {:induction false} StatusTells(ops: seq<Op>, b: nat)
    requires b < |Run(EMPTY, ops).bundles|
    ensures Tells(Run(EMPTY, ops), b)
    decreases |ops|
  {
    var before := ops[..|ops| - 1];
    EveryRunIsSound(before);
    if b < |Run(EMPTY, before).bundles| {
      StatusTells(before, b);
    }
    StepTells(Run(EMPTY, before), Last(ops), b);
  }

  // ------------------------------------------------------------------ expiring

  /** Exactly the bundles that await review and are due, and of their items exactly the open ones. */
  lemma {:induction false} ExpiresWhatIsDue(w: World, now: nat, n: nat, c: nat, id: nat)
    requires n <= |w.bundles| && c < |w.bundles| && 1 <= id <= |w.items|
    ensures var v := Expiring(w, now, n);
            && v.bundles[c] == (if c < n && Overdue(w.bundles[c], now) then w.bundles[c].(status := BundleExpired) else w.bundles[c])
            && v.items[id - 1] ==
                 var item := w.items[id - 1];
                 if item.bundle < n && Overdue(w.bundles[item.bundle], now) && item.status == Proposed then item.(status := Expired) else item
  {
    if n > 0 {
      ExpiresWhatIsDue(w, now, n - 1, c, id);
      ExpiresWhatIsDue(w, now, n - 1, n - 1, id);
    }
  }

  predicate Overdue(bundle: Bundle, now: nat) { bundle.status == BundleProposed && now >= bundle.expires }

  // ------------------------------------------------------------------ what each decision does

  /** Every item is as it was but those a decision is about. */
  ghost predicate ItemsBecome(a: seq<Item>, c: seq<Item>, chosen: Item -> bool, status: ItemStatus) {
    |a| == |c| && forall k :: 0 <= k < |a| ==> c[k] == if chosen(a[k]) then a[k].(status := status) else a[k]
  }

  /** Excluding takes the one item out, if it is still open, and does nothing else. */
  lemma ExcludesTheOne(w: World, id: nat)
    requires 1 <= id <= |w.items|
    ensures var v := Step(w, Exclude(id));
            && v.folders == w.folders && v.bundles == w.bundles
            && v.items == if w.items[id - 1].status == Proposed then w.items[id - 1 := w.items[id - 1].(status := Excluded)] else w.items
  {}

  /** What a person takes out of a bundle is out: in every state from then on it is excluded, neither accepted nor
      applied. */
  lemma ExcludedForGood(ops: seq<Op>, j: nat, k: nat, id: nat)
    requires j < k <= |ops| && ops[j] == Exclude(id)
    requires var w := Run(EMPTY, ops[..j]); 1 <= id <= |w.items| && w.items[id - 1].status == Proposed
    ensures var v := Run(EMPTY, ops[..k]); id <= |v.items| && v.items[id - 1].status == Excluded && !GoingIn(v, id)
  {
    assert ops[..j + 1][..j] == ops[..j] && Last(ops[..j + 1]) == ops[j];
    ExcludesTheOne(Run(EMPTY, ops[..j]), id);
    RunOnward(EMPTY, ops[..k], j + 1);
    assert ops[..k][..j + 1] == ops[..j + 1];
    assert ItemOnward(Run(EMPTY, ops[..j + 1]).items[id - 1], Run(EMPTY, ops[..k]).items[id - 1]);
  }

  /** Rejecting and withdrawing end a bundle that awaits review, with the open items of it and no others. */
  lemma EndsExactly(w: World, op: Op, b: nat)
    requires (op == Reject(b) || (op.Withdraw? && op.bundle == b)) && b < |w.bundles|
    ensures var v := Step(w, op);
            var ends := w.bundles[b].status == BundleProposed && (op.Withdraw? ==> op.producer == w.bundles[b].producer);
            && v.folders == w.folders
            && v.bundles == (if ends then w.bundles[b := w.bundles[b].(status := if op.Reject? then BundleRejected else BundleWithdrawn)]
                             else w.bundles)
            && ItemsBecome(w.items, v.items, (i: Item) => ends && i.bundle == b && i.status == Proposed,
                           if op.Reject? then Rejected else Withdrawn)
  {}

  /** Drawing a bundle's page kills the open items of it that no longer hold, and closes it if it awaited review and
      that leaves nothing open. */
  lemma DrawnExactly(w: World, b: nat)
    requires b < |w.bundles|
    ensures var v := Step(w, Draw(b));
            && v.folders == w.folders
            && ItemsBecome(w.items, v.items,
                           (i: Item) => i.bundle == b && (i.status == Proposed || i.status == Accepted) && !StillHolds(w.folders, i), Stale)
            && v.bundles ==
                 if w.bundles[b].status == BundleProposed && HasItem(v.items, b, Stale)
                    && !HasItem(v.items, b, Proposed) && !HasItem(v.items, b, Accepted)
                 then w.bundles[b := w.bundles[b].(status := BundleStale)] else w.bundles
  {}

  /** An acceptance that does not go through: nothing if the bundle was not there to be accepted, or the page did not
      show all of it; and otherwise what drawing the page again would have done. */
  lemma RefusedKeepsWhatItFound(w: World, b: nat, through: nat, acknowledged: bool)
    requires b < |w.bundles| && w.bundles[b].status != BundleAccepted
    requires Step(w, Accept(b, through, acknowledged)).bundles[b].status != BundleAccepted
    ensures Step(w, Accept(b, through, acknowledged)) ==
              if w.bundles[b].status != BundleProposed || through == 0 || (exists id: nat :: OnPage(w.items, b, id) && id > through)
              then w else Step(w, Draw(b))
  {
    ShownThroughIsLast(w.items, b);
  }

  /** A folder found to be another one: every open item resting on its old generation dies, and no other; a new
      generation begins with nothing in it.  A folder that is the same is left alone. */
  lemma StartsExactly(w: World, folder: nat, selected: Mailbox.Selected)
    requires folder < |w.folders|
    ensures var v, f := Step(w, StartSync(folder, selected)), w.folders[folder];
            var broken := f.row.uidvalidity.Some? && f.row.uidvalidity.value != selected.uidvalidity;
            && v.bundles == w.bundles
            && ItemsBecome(w.items, v.items,
                           (i: Item) => broken && i.folder == folder && i.premise.generation == f.row.generation
                                && (i.status == Proposed || i.status == Accepted), Stale)
            && (!broken ==> v.folders == w.folders)
            && (broken ==>
                  && |v.folders| == |w.folders| && v.folders == w.folders[folder := v.folders[folder]]
                  && v.folders[folder].row ==
                       f.row.(generation := f.row.generation + 1, uidvalidity := Some(selected.uidvalidity), highest := None)
                  && v.folders[folder].places.Keys == f.places.Keys
                  && forall s <- f.places ::
                       v.folders[folder].places[s] == if s.generation == f.row.generation then f.places[s].(gone := true) else f.places[s])
  {}

  /** What applying writes for one accepted item: stale, with nothing else touched, if it no longer holds or the server
      did nothing; else applied, and the cache has the flag, has it no more, has the message gone, or the folder. */
  lemma AppliesExactly(w: World, id: nat, did: bool)
    requires 1 <= id <= |w.items| && w.items[id - 1].bundle < |w.bundles|
    requires w.items[id - 1].status == Accepted && w.bundles[w.items[id - 1].bundle].status == BundleAccepted
    ensures var v, item := Step(w, ApplyOne(id, did)), w.items[id - 1];
            var done := did && StillHolds(w.folders, item);
            && v.bundles == w.bundles && v.items == w.items[id - 1 := item.(status := if done then Applied else Stale)]
            && (!done ==> v.folders == w.folders)
            && (done ==>
                  var f, slot := w.folders[item.folder], Slot(item.premise.generation, item.premise.uid);
                  && |v.folders| == |w.folders| && v.folders == w.folders[item.folder := v.folders[item.folder]]
                  && v.folders[item.folder] ==
                       match w.bundles[item.bundle].operation
                       case Discard => f.(row := f.row.(discarded := true, made := false, count := 0))
                       case AddFlag(flag) =>
                         if slot !in f.places then f
                         else f.(places := f.places[slot := f.places[slot].(flags := f.places[slot].flags + {flag})])
                       case RemoveFlag(flag) =>
                         if slot !in f.places then f
                         else f.(places := f.places[slot := f.places[slot].(flags := f.places[slot].flags - {flag})])
                       case _ =>
                         if slot !in f.places then f else f.(places := f.places[slot := f.places[slot].(gone := true)]))
  {}

  /** A folder that has been discarded is not discarded again: no other item about it holds any more. */
  lemma DiscardedOnce(w: World, id: nat, other: Item)
    requires 1 <= id <= |w.items| && w.items[id - 1].bundle < |w.bundles|
    requires w.items[id - 1].status == Accepted && w.bundles[w.items[id - 1].bundle].status == BundleAccepted
    requires w.bundles[w.items[id - 1].bundle].operation == Discard && StillHolds(w.folders, w.items[id - 1])
    requires other.message.None? && other.folder == w.items[id - 1].folder
    ensures !StillHolds(Step(w, ApplyOne(id, true)).folders, other)
  {}

  // ------------------------------------------------------------------ whose bundle it is

  lemma {:induction false} ExpiringWithdrawsNothing(w: World, now: nat, n: nat, b: nat)
    requires n <= |w.bundles| && b < |w.bundles| && w.bundles[b].status != BundleWithdrawn
    ensures Expiring(w, now, n).bundles[b].status != BundleWithdrawn
  {
    if n > 0 {
      ExpiringWithdrawsNothing(w, now, n - 1, b);
    }
  }

  lemma OthersWithdrawNothing(w: World, op: Op, b: nat)
    requires !op.Withdraw? && b < |w.bundles| && w.bundles[b].status != BundleWithdrawn
    ensures b < |Step(w, op).bundles| && Step(w, op).bundles[b].status != BundleWithdrawn
  {
    if op.ExpireDue? {
      ExpiringWithdrawsNothing(w, op.now, |w.bundles|, b);
    }
  }

  /** A bundle is withdrawn, and is made larger, by nobody but the producer that made it. */
  lemma OnlyItsProducer(w: World, op: Op, b: nat)
    requires b < |w.bundles|
    ensures b < |Step(w, op).bundles|
    ensures w.bundles[b].status != BundleWithdrawn && Step(w, op).bundles[b].status == BundleWithdrawn ==>
              op == Withdraw(b, w.bundles[b].producer)
    ensures (exists id :: |w.items| < id <= |Step(w, op).items| && OnPage(Step(w, op).items, b, id)) ==>
              op.Grow? && op.bundle == b && op.producer == w.bundles[b].producer
  {
    StepOnward(w, op);
    if !op.Withdraw? && w.bundles[b].status != BundleWithdrawn {
      OthersWithdrawNothing(w, op, b);
    }
    if Larger(op) {
      NewItemsAreOfNew(w, op, b);
    } else {
      OthersSame(w, op);
    }
  }

  lemma NewItemsAreOfNew(w: World, op: Op, b: nat)
    requires Larger(op) && b < |w.bundles|
    ensures forall id: nat :: |w.items| < id <= |Step(w, op).items| && OnPage(Step(w, op).items, b, id) ==>
              op.Grow? && op.bundle == b && op.producer == w.bundles[b].producer
  {
    match op
    case Propose(producer, operation, target, naming, where, most, expires) =>
      if Proposing(w, producer, operation, target, naming, where, most, expires).Some? {
        var resolved := Resolved(w.folders, target).value;
        var begun := World(resolved.0, w.items, w.bundles + [Bundle(producer, operation, resolved.1, expires, BundleProposed, [])]);
        NewItemsAre(begun, |w.bundles|, where, Candidates(naming));
      }
    case Grow(c, producer, text, matched, found, where, most) =>
      if Growing(w, c, producer, text, matched, found, where, most).Some? {
        var now := Refreshed(w, c);
        NewItemsAre(now, c, where, found);
      }
    case ProposeDiscard(_, ids, _, _) =>
      var items := Step(w, op).items;
      forall k | |w.items| <= k < |items| ensures items[k].bundle == |w.bundles| {
        assert Once(ids)[k - |w.items|] in Once(ids);
      }
  }

  // ------------------------------------------------------------------ a premise that has failed for good

  /** The folder of the item has moved on to another generation: made again, or wanted back after a discard. */
  predicate LeftBehind(w: World, id: nat) {
    1 <= id <= |w.items| && var item := w.items[id - 1];
    item.folder < |w.folders| && item.premise.generation < w.folders[item.folder].row.generation
  }

  /** Nothing that happens later makes such an item hold again. */
  lemma LeftBehindForGood(w: World, ops: seq<Op>, id: nat)
    requires LeftBehind(w, id)
    ensures var v := Run(w, ops); LeftBehind(v, id) && !StillHolds(v.folders, v.items[id - 1])
  {
    assert ops[..0] == [];
    RunOnward(w, ops, 0);
    var v := Run(w, ops);
    assert ItemOnward(w.items[id - 1], v.items[id - 1]);
    assert FolderOnward(w.folders[w.items[id - 1].folder], v.folders[w.items[id - 1].folder]);
  }

  /** Reviving a discarded folder as a target leaves behind every item that rested on it. */
  lemma RevivedLeavesBehind(w: World, name: string, id: nat)
    requires AllPinned(w) && 1 <= id <= |w.items|
    requires Find(w.folders, name) == w.items[id - 1].folder < |w.folders| && w.folders[w.items[id - 1].folder].row.discarded
    ensures LeftBehind(w.(folders := ForTarget(w.folders, name)), id)
  {
    assert w.items[id - 1] in w.items;
  }

  // ------------------------------------------------------------------ a refresh right after a sync

  /** The bundle's page drawn right after its folder was synced on a quiet server, whatever had become of the
      folder before: the open items left on it are exactly those the server itself would call unchanged. */
  lemma RefreshTellsTheTruth(w: World, b: nat, id: nat, f: Folder, at: nat -> Mailbox.Box, call: nat, deeds: seq<Trust.Deed>,
                             force: bool, box: Mailbox.Box)
    requires History(at) && Trust.New(f) && Trust.Lived(f, at, call, deeds)
    requires Quiet(at, Trust.Through(f, at, call, deeds).call, box)
    requires b < |w.bundles| && OnPage(w.items, b, id) && Undecided(w.items[id - 1]) && w.items[id - 1].message.Some?
    requires w.items[id - 1].folder < |w.folders|
    requires var end := Trust.Through(f, at, call, deeds); w.folders[w.items[id - 1].folder] == Ends(end.folder, at, end.call, force)
    ensures var item := w.items[id - 1];
            Refreshed(w, b).items[id - 1] ==
              if Truth(box, w.folders[item.folder].row.generation, item.premise) == Fresh then item else item.(status := Stale)
  {
    Trust.SyncTellsTheTruth(f, at, call, deeds, force, box, w.items[id - 1].premise);
    RefreshedOne(w, b, id);
  }

  lemma RefreshedOne(w: World, b: nat, id: nat)
    requires b < |w.bundles| && OnPage(w.items, b, id) && Undecided(w.items[id - 1]) && w.items[id - 1].message.Some?
    requires w.items[id - 1].folder < |w.folders|
    ensures var item := w.items[id - 1];
            id <= |Refreshed(w, b).items|
            && Refreshed(w, b).items[id - 1] == if Check(w.folders[item.folder], item.premise) == Fresh then item else item.(status := Stale)
  {
    assert Refreshed(w, b).items[id - 1] == Judged(w.folders, w.items[id - 1], b);
  }
}
