/** What every step of reviewing keeps, and so every run: rows are never taken away or re-purposed, the statuses
    of a bundle and of its items fit, and each item's premise names a slot of its message.  And what a sweep of the
    queue and a listing of the folders leave behind. */
module ReviewSafety {
  import opened Common
  import Mailbox
  import opened Sync
  import opened Freshness
  import opened Review

  // ------------------------------------------------------------------ what may become of a row

  predicate ItemMayBecome(before: ItemStatus, after: ItemStatus) {
    before == after || before == Proposed || (before == Accepted && (after == Applied || after == Stale))
  }

  predicate BundleMayBecome(before: BundleStatus, after: BundleStatus) {
    before == after || before == BundleProposed
    || (before == BundleAccepted && (after == BundleApplied || after == BundlePartlyApplied || after == BundleStale))
  }

  predicate ItemOnward(before: Item, after: Item) {
    after == before.(status := after.status) && ItemMayBecome(before.status, after.status)
  }

  predicate BundleOnward(before: Bundle, after: Bundle) {
    && after == before.(status := after.status, queries := after.queries)
    && before.queries <= after.queries && BundleMayBecome(before.status, after.status)
  }

  /** The slots of a folder name what they named, and its generation does not go back. */
  predicate FolderOnward(before: Folder, after: Folder) {
    && before.row.generation <= after.row.generation
    && forall s <- before.places :: s in after.places && after.places[s].message == before.places[s].message
  }

  ghost predicate ItemsOnward(a: seq<Item>, b: seq<Item>) {
    |a| <= |b| && forall i :: 0 <= i < |a| ==> ItemOnward(a[i], b[i])
  }

  ghost predicate BundlesOnward(a: seq<Bundle>, b: seq<Bundle>) {
    |a| <= |b| && forall i :: 0 <= i < |a| ==> BundleOnward(a[i], b[i])
  }

  ghost predicate FoldersOnward(a: seq<Folder>, b: seq<Folder>) {
    |a| <= |b| && forall i :: 0 <= i < |a| ==> FolderOnward(a[i], b[i])
  }

  ghost predicate Onward(a: World, b: World) {
    ItemsOnward(a.items, b.items) && BundlesOnward(a.bundles, b.bundles) && FoldersOnward(a.folders, b.folders)
  }

  // ------------------------------------------------------------------ each kind of step goes onward

  lemma RefreshedOnward(w: World, b: nat)
    requires b < |w.bundles|
    ensures Onward(w, Refreshed(w, b))
  {}

  lemma {:induction false} DiscoveredOnward(folders: seq<Folder>, listed: seq<Listed>)
    ensures FoldersOnward(folders, Discovered(folders, listed))
    decreases listed
  {
    if listed != [] {
      var next := Adopted(folders, listed[0]);
      DiscoveredOnward(next, listed[1..]);
      var after := Discovered(folders, listed);
      forall i | 0 <= i < |folders| ensures FolderOnward(folders[i], after[i]) {
        assert FolderOnward(folders[i], next[i]) && FolderOnward(next[i], after[i]);
      }
    }
  }

  lemma {:induction false} AbsorbedOnward(f: Folder, infos: seq<Mailbox.Info>)
    ensures FolderOnward(f, AbsorbAll(f, infos)) && AbsorbAll(f, infos).row == f.row
    decreases infos
  {
    if infos != [] {
      AbsorbedOnward(Absorb(f, infos[0]), infos[1..]);
    }
  }

  lemma FilledOnward(w: World, b: nat, where: map<nat, Spot>, naming: Naming, grew: bool)
    requires b < |w.bundles| && Locates(w.folders, where)
    ensures var r := Filled(w, b, where, naming, grew); r.Some? ==> Onward(w, r.value)
  {}

  lemma GrowingOnward(w: World, b: nat, producer: nat, text: string, matched: nat, found: seq<nat>,
                      where: map<nat, Spot>, most: nat)
    ensures Onward(w, Otherwise(Growing(w, b, producer, text, matched, found, where, most), w))
  {
    var r := Growing(w, b, producer, text, matched, found, where, most);
    if r.Some? {
      RefreshedOnward(w, b);
      FilledOnward(Refreshed(w, b), b, where, Searched(text, matched, found), true);
    }
  }

  lemma EndedOnward(w: World, b: nat, status: BundleStatus, item: ItemStatus)
    requires b < |w.bundles|
    ensures Onward(w, Ended(w, b, status, item))
  {}

  lemma AcceptingOnward(w: World, b: nat, through: nat, acknowledged: bool)
    requires b < |w.bundles|
    ensures Onward(w, Accepting(w, b, through, acknowledged))
  {
    RefreshedOnward(w, b);
    var now, after := Refreshed(w, b), Accepting(w, b, through, acknowledged);
    if after != w && after != now {
      assert Onward(now, after);
    }
  }

  lemma EndedFurther(w: World, before: World, b: nat, status: BundleStatus, item: ItemStatus)
    requires Onward(w, before) && b < |before.bundles|
    ensures Onward(w, Ended(before, b, status, item))
  {
    EndedOnward(before, b, status, item);
  }

  lemma OnwardToItself(w: World)
    ensures Onward(w, w)
  {}

  lemma {:induction false} ExpiringOnward(w: World, now: nat, n: nat)
    requires n <= |w.bundles|
    ensures Onward(w, Expiring(w, now, n))
  {
    if n == 0 {
      OnwardToItself(w);
    } else {
      ExpiringOnward(w, now, n - 1);
      EndedFurther(w, Expiring(w, now, n - 1), n - 1, BundleExpired, Expired);
    }
  }

  lemma ApplyingOnward(w: World, id: nat, did: bool)
    requires 1 <= id <= |w.items| && w.items[id - 1].bundle < |w.bundles|
    ensures Onward(w, ApplyingOne(w, id, did))
  {}

  lemma StartingOnward(w: World, folder: nat, selected: Mailbox.Selected)
    requires folder < |w.folders|
    ensures Onward(w, Starting(w, folder, selected))
  {}

  lemma DiscardingOnward(w: World, producer: nat, ids: seq<nat>, most: nat, expires: nat)
    ensures Onward(w, Otherwise(Discarding(w, producer, ids, most, expires), w))
  {}

  /** The steps of the runner. */
  predicate ByRunner(op: Op) {
    op.ApplyOne? || op.CloseApply? || op.MakeTarget? || op.Discover? || op.StartSync? || op.AbsorbMore? || op.CloseSync?
  }

  predicate Larger(op: Op) { op.Propose? || op.ProposeDiscard? || op.Grow? }

  lemma ReplacedOnward(w: World, folder: nat, f: Folder)
    requires folder < |w.folders| && FolderOnward(w.folders[folder], f)
    ensures Onward(w, w.(folders := w.folders[folder := f]))
  {}

  lemma SyncingOnward(w: World, op: Op)
    requires op.StartSync? || op.AbsorbMore? || op.CloseSync? || op.MakeTarget?
    ensures Onward(w, Step(w, op))
  {
    match op
    case StartSync(folder, selected) => if folder < |w.folders| { StartingOnward(w, folder, selected); }
    case AbsorbMore(folder, infos) =>
      if folder < |w.folders| {
        AbsorbedOnward(w.folders[folder], infos);
        ReplacedOnward(w, folder, AbsorbAll(w.folders[folder], infos));
      }
    case CloseSync(folder, present, selected) =>
      if folder < |w.folders| {
        ReplacedOnward(w, folder, Closed(w.folders[folder], present, selected));
      }
    case MakeTarget(folder, name, delimiter, special) =>
      if folder < |w.folders| {
        ReplacedOnward(w, folder, TargetMade(w, folder, name, delimiter, special).folders[folder]);
      }
  }

  lemma RunnerOnward(w: World, op: Op)
    requires ByRunner(op)
    ensures Onward(w, Step(w, op))
  {
    match op
    case ApplyOne(id, did) => if 1 <= id <= |w.items| && w.items[id - 1].bundle < |w.bundles| { ApplyingOnward(w, id, did); }
    case CloseApply(_, _) =>
    case Discover(listed) => DiscoveredOnward(w.folders, listed);
    case _ => SyncingOnward(w, op);
  }

  lemma TargetOnward(folders: seq<Folder>, target: Target)
    ensures Resolved(folders, target).Some? ==> FoldersOnward(folders, Resolved(folders, target).value.0)
  {}

  lemma ProposingOnward(w: World, producer: nat, operation: Operation, target: Target, naming: Naming,
                        where: map<nat, Spot>, most: nat, expires: nat)
    ensures Onward(w, Otherwise(Proposing(w, producer, operation, target, naming, where, most, expires), w))
  {
    TargetOnward(w.folders, target);
    var r := Proposing(w, producer, operation, target, naming, where, most, expires);
    if r.Some? {
      assert r.value.folders == Resolved(w.folders, target).value.0;
      assert w.items <= r.value.items;
      assert w.bundles <= r.value.bundles;
    }
  }

  lemma LargerOnward(w: World, op: Op)
    requires Larger(op)
    ensures Onward(w, Step(w, op))
  {
    match op
    case Propose(producer, operation, target, naming, where, most, expires) =>
      ProposingOnward(w, producer, operation, target, naming, where, most, expires);
    case ProposeDiscard(producer, ids, most, expires) => DiscardingOnward(w, producer, ids, most, expires);
    case Grow(b, producer, text, matched, found, where, most) => GrowingOnward(w, b, producer, text, matched, found, where, most);
  }

  lemma DecidingOnward(w: World, op: Op)
    requires !ByRunner(op) && !Larger(op)
    ensures Onward(w, Step(w, op))
  {
    match op
    case Draw(b) => if b < |w.bundles| { RefreshedOnward(w, b); }
    case Accept(b, through, acknowledged) => if b < |w.bundles| { AcceptingOnward(w, b, through, acknowledged); }
    case Reject(b) => if b < |w.bundles| { EndedOnward(w, b, BundleRejected, Rejected); }
    case Withdraw(b, producer) => if b < |w.bundles| { EndedOnward(w, b, BundleWithdrawn, Withdrawn); }
    case ExpireDue(now) => ExpiringOnward(w, now, |w.bundles|);
    case _ =>
  }

  lemma StepOnward(w: World, op: Op)
    ensures Onward(w, Step(w, op))
  {
    if ByRunner(op) {
      RunnerOnward(w, op);
    } else if Larger(op) {
      LargerOnward(w, op);
    } else {
      DecidingOnward(w, op);
    }
  }

  /** Terminal statuses never change, rows are never taken away, and what a row was made with it keeps. */
  lemma {:induction false} RunOnward(w: World, ops: seq<Op>, i: nat)
    requires i <= |ops|
    ensures Onward(Run(w, ops[..i]), Run(w, ops))
    decreases |ops|
  {
    if i == |ops| {
      assert ops[..i] == ops;
    } else {
      var before := ops[..|ops| - 1];
      RunOnward(w, before, i);
      assert before[..i] == ops[..i];
      StepOnward(Run(w, before), Last(ops));
    }
  }

  // ------------------------------------------------------------------ the status of a bundle and of its items

  /** Which items a bundle of this status may hold. */
  predicate Fits(bundle: BundleStatus, item: ItemStatus) {
    match bundle
    case BundleProposed => item == Proposed || item == Excluded || item == Stale
    case BundleAccepted => item == Accepted || item == Applied || item == Excluded || item == Stale
    case _ => item != Proposed && item != Accepted
  }

  predicate FitsIn(bundles: seq<Bundle>, item: Item) { item.bundle < |bundles| && Fits(bundles[item.bundle].status, item.status) }

  ghost predicate Coupled(w: World) { forall i: Item <- w.items :: FitsIn(w.bundles, i) }

  lemma RefreshedCoupled(w: World, b: nat)
    requires Coupled(w) && b < |w.bundles|
    ensures Coupled(Refreshed(w, b))
  {
    var r := Refreshed(w, b);
    forall k | 0 <= k < |r.items| ensures FitsIn(r.bundles, r.items[k]) {
      assert w.items[k] in w.items;
      assert AllJudged(w.folders, w.items, b)[k] in AllJudged(w.folders, w.items, b);
    }
  }

  lemma FilledCoupled(w: World, b: nat, where: map<nat, Spot>, naming: Naming, grew: bool)
    requires Coupled(w) && b < |w.bundles| && w.bundles[b].status == BundleProposed && Locates(w.folders, where)
    ensures var r := Filled(w, b, where, naming, grew); r.Some? ==> Coupled(r.value)
  {}

  lemma ProposingCoupled(w: World, producer: nat, operation: Operation, target: Target, naming: Naming,
                         where: map<nat, Spot>, most: nat, expires: nat)
    requires Coupled(w)
    ensures Coupled(Otherwise(Proposing(w, producer, operation, target, naming, where, most, expires), w))
  {
    var r := Proposing(w, producer, operation, target, naming, where, most, expires);
    if r.Some? {
      var resolved := Resolved(w.folders, target).value;
      var begun := World(resolved.0, w.items, w.bundles + [Bundle(producer, operation, resolved.1, expires, BundleProposed, [])]);
      FilledCoupled(begun, |w.bundles|, where, naming, false);
    }
  }

  lemma GrowingCoupled(w: World, b: nat, producer: nat, text: string, matched: nat, found: seq<nat>,
                       where: map<nat, Spot>, most: nat)
    requires Coupled(w)
    ensures Coupled(Otherwise(Growing(w, b, producer, text, matched, found, where, most), w))
  {
    var r := Growing(w, b, producer, text, matched, found, where, most);
    if r.Some? {
      RefreshedCoupled(w, b);
      FilledCoupled(Refreshed(w, b), b, where, Searched(text, matched, found), true);
    }
  }

  /** Moving every open item of a bundle, and the bundle with them. */
  lemma MarkedCoupled(w: World, b: nat, status: BundleStatus, item: ItemStatus)
    requires Coupled(w) && b < |w.bundles| && w.bundles[b].status == BundleProposed
    requires status != BundleProposed && Fits(status, item)
    ensures Coupled(WithStatus(w.(items := Marked(w.items, b, Proposed, item)), b, status))
  {
    var r := WithStatus(w.(items := Marked(w.items, b, Proposed, item)), b, status);
    forall k | 0 <= k < |r.items| ensures FitsIn(r.bundles, r.items[k]) {
      assert w.items[k] in w.items;
    }
  }

  lemma AcceptingCoupled(w: World, b: nat, through: nat, acknowledged: bool)
    requires Coupled(w) && b < |w.bundles|
    ensures Coupled(Accepting(w, b, through, acknowledged))
  {
    RefreshedCoupled(w, b);
    var now := Refreshed(w, b);
    if now.bundles[b].status == BundleProposed {
      MarkedCoupled(now, b, BundleAccepted, Accepted);
    }
  }

  lemma EndedCoupled(w: World, b: nat, status: BundleStatus, item: ItemStatus)
    requires Coupled(w) && b < |w.bundles| && status != BundleProposed && Fits(status, item)
    ensures Coupled(Ended(w, b, status, item))
  {
    if w.bundles[b].status == BundleProposed {
      MarkedCoupled(w, b, status, item);
    }
  }

  lemma {:induction false} ExpiringCoupled(w: World, now: nat, n: nat)
    requires Coupled(w) && n <= |w.bundles|
    ensures Coupled(Expiring(w, now, n))
  {
    if n > 0 {
      ExpiringCoupled(w, now, n - 1);
      EndedCoupled(Expiring(w, now, n - 1), n - 1, BundleExpired, Expired);
    }
  }

  lemma ApplyingCoupled(w: World, id: nat, did: bool)
    requires Coupled(w) && 1 <= id <= |w.items| && w.items[id - 1].bundle < |w.bundles|
    ensures Coupled(ApplyingOne(w, id, did))
  {}

  lemma ClosingCoupled(w: World, b: nat, tried: bool)
    requires Coupled(w) && b < |w.bundles|
    ensures Coupled(ClosingApply(w, b, tried))
  {}

  lemma StartingCoupled(w: World, folder: nat, selected: Mailbox.Selected)
    requires Coupled(w) && folder < |w.folders|
    ensures Coupled(Starting(w, folder, selected))
  {
    var killed := Killed(w.items, folder, w.folders[folder].row.generation);
    forall k | 0 <= k < |killed| ensures FitsIn(w.bundles, killed[k]) {
      assert w.items[k] in w.items;
    }
  }

  lemma DiscardingCoupled(w: World, producer: nat, ids: seq<nat>, most: nat, expires: nat)
    requires Coupled(w)
    ensures Coupled(Otherwise(Discarding(w, producer, ids, most, expires), w))
  {}

  lemma RunnerCoupled(w: World, op: Op)
    requires Coupled(w) && ByRunner(op)
    ensures Coupled(Step(w, op))
  {
    match op
    case ApplyOne(id, did) => if 1 <= id <= |w.items| && w.items[id - 1].bundle < |w.bundles| { ApplyingCoupled(w, id, did); }
    case CloseApply(b, tried) => if b < |w.bundles| { ClosingCoupled(w, b, tried); }
    case StartSync(folder, selected) => if folder < |w.folders| { StartingCoupled(w, folder, selected); }
    case _ =>
  }

  lemma LargerCoupled(w: World, op: Op)
    requires Coupled(w) && Larger(op)
    ensures Coupled(Step(w, op))
  {
    match op
    case Propose(producer, operation, target, naming, where, most, expires) =>
      ProposingCoupled(w, producer, operation, target, naming, where, most, expires);
    case ProposeDiscard(producer, ids, most, expires) => DiscardingCoupled(w, producer, ids, most, expires);
    case Grow(b, producer, text, matched, found, where, most) => GrowingCoupled(w, b, producer, text, matched, found, where, most);
  }

  lemma ExcludingCoupled(w: World, id: nat)
    requires Coupled(w) && 1 <= id <= |w.items|
    ensures Coupled(Excluding(w, id))
  {
    var r := Excluding(w, id);
    forall k | 0 <= k < |r.items| ensures FitsIn(r.bundles, r.items[k]) {
      assert FitsIn(w.bundles, w.items[k]);
    }
  }

  lemma DecidingCoupled(w: World, op: Op)
    requires Coupled(w) && !ByRunner(op) && !Larger(op)
    ensures Coupled(Step(w, op))
  {
    match op
    case Exclude(id) => if 1 <= id <= |w.items| { ExcludingCoupled(w, id); }
    case Draw(b) => if b < |w.bundles| { RefreshedCoupled(w, b); }
    case Accept(b, through, acknowledged) => if b < |w.bundles| { AcceptingCoupled(w, b, through, acknowledged); }
    case Reject(b) => if b < |w.bundles| { EndedCoupled(w, b, BundleRejected, Rejected); }
    case Withdraw(b, producer) => if b < |w.bundles| { EndedCoupled(w, b, BundleWithdrawn, Withdrawn); }
    case ExpireDue(now) => ExpiringCoupled(w, now, |w.bundles|);
    case _ =>
  }

  lemma StepCoupled(w: World, op: Op)
    requires Coupled(w)
    ensures Coupled(Step(w, op))
  {
    if ByRunner(op) {
      RunnerCoupled(w, op);
    } else if Larger(op) {
      LargerCoupled(w, op);
    } else {
      DecidingCoupled(w, op);
    }
  }

  // ------------------------------------------------------------------ a premise pins its message

  /** There is a slot for the premise, and it is the item's message that it names. */
  predicate Pinned(folders: seq<Folder>, item: Item) {
    && item.folder < |folders|
    && item.premise.generation <= folders[item.folder].row.generation
    && (item.message.Some? ==>
          var slot := Slot(item.premise.generation, item.premise.uid);
          slot in folders[item.folder].places && folders[item.folder].places[slot].message == item.message.value)
  }

  ghost predicate AllPinned(w: World) { forall i: Item <- w.items :: Pinned(w.folders, i) }

  lemma PinnedOnward(a: seq<Folder>, b: seq<Folder>, before: Item, after: Item)
    requires Pinned(a, before) && FoldersOnward(a, b) && ItemOnward(before, after)
    ensures Pinned(b, after)
  {
    assert FolderOnward(a[before.folder], b[before.folder]);
  }

  /** What a step that goes onward adds is all that needs looking at. */
  ghost predicate Adds(a: World, b: World) {
    && Onward(a, b)
    && forall i :: |a.items| <= i < |b.items| ==> Pinned(b.folders, b.items[i])
  }

  lemma AddsPinned(a: World, b: World)
    requires AllPinned(a) && Adds(a, b)
    ensures AllPinned(b)
  {
    forall i | 0 <= i < |b.items| ensures Pinned(b.folders, b.items[i]) {
      if i < |a.items| {
        assert a.items[i] in a.items && ItemOnward(a.items[i], b.items[i]);
        PinnedOnward(a.folders, b.folders, a.items[i], b.items[i]);
      }
    }
  }

  lemma FilledPinned(w: World, b: nat, where: map<nat, Spot>, naming: Naming, grew: bool)
    requires b < |w.bundles| && Locates(w.folders, where)
    ensures var r := Filled(w, b, where, naming, grew);
            r.Some? ==>
              && r.value.folders == w.folders
              && forall i :: |w.items| <= i < |r.value.items| ==> Pinned(w.folders, r.value.items[i])
  {
    var r, target := Filled(w, b, where, naming, grew), w.bundles[b].target;
    var added := Sorting(w.items, b, target, where, Candidates(naming)).added;
    AddedAreLocated(w.items, b, target, where, Candidates(naming));
    if r.Some? {
      forall i | |w.items| <= i < |r.value.items| ensures Pinned(w.folders, r.value.items[i]) {
        var m := added[i - |w.items|];
        assert m in added && LiveAt(w.folders, m, where[m]);
        assert r.value.items[i] == ItemFor(w.folders, b, m, where[m]);
      }
    }
  }

  lemma DiscardingPinned(w: World, producer: nat, ids: seq<nat>, most: nat, expires: nat)
    ensures var r := Discarding(w, producer, ids, most, expires);
            r.Some? ==>
              && r.value.folders == w.folders
              && forall i :: |w.items| <= i < |r.value.items| ==> Pinned(w.folders, r.value.items[i])
  {
    var r := Discarding(w, producer, ids, most, expires);
    if r.Some? {
      forall i | |w.items| <= i < |r.value.items| ensures Pinned(w.folders, r.value.items[i]) {
        var id := Once(ids)[i - |w.items|];
        assert id in Once(ids) && r.value.items[i] == FolderItem(w.folders, |w.bundles|, id);
      }
    }
  }

  lemma StepAdds(w: World, op: Op)
    ensures Adds(w, Step(w, op))
  {
    StepOnward(w, op);
    match op
    case Propose(producer, operation, target, naming, where, most, expires) =>
      if Proposing(w, producer, operation, target, naming, where, most, expires).Some? {
        var resolved := Resolved(w.folders, target).value;
        var begun := World(resolved.0, w.items, w.bundles + [Bundle(producer, operation, resolved.1, expires, BundleProposed, [])]);
        FilledPinned(begun, |w.bundles|, where, naming, false);
      }
    case Grow(b, producer, text, matched, found, where, most) =>
      if Growing(w, b, producer, text, matched, found, where, most).Some? {
        FilledPinned(Refreshed(w, b), b, where, Searched(text, matched, found), true);
      }
    case ProposeDiscard(producer, ids, most, expires) => DiscardingPinned(w, producer, ids, most, expires);
    case _ => assert |Step(w, op).items| == |w.items|;
  }

  /** Through resyncs, folders made again, and targets revived. */
  lemma StepPinned(w: World, op: Op)
    requires AllPinned(w)
    ensures AllPinned(Step(w, op))
  {
    StepAdds(w, op);
    AddsPinned(w, Step(w, op));
  }

  // ------------------------------------------------------------------ every run

  /** In every state that can be reached, the statuses of bundles and items fit, and every premise pins its message. */
  lemma {:induction false} EveryRunIsSound(ops: seq<Op>)
    ensures var w := Run(EMPTY, ops); Coupled(w) && AllPinned(w)
    decreases |ops|
  {
    if ops != [] {
      var before := ops[..|ops| - 1];
      EveryRunIsSound(before);
      StepCoupled(Run(EMPTY, before), Last(ops));
      StepPinned(Run(EMPTY, before), Last(ops));
    }
  }

  // ------------------------------------------------------------------ the queue after a sweep

  /** What somebody reviewing can act on: open items that still hold, in bundles that are not all dead. */
  ghost predicate Settled(w: World, b: nat)
    requires b < |w.bundles|
  {
    w.bundles[b].status == BundleProposed ==>
      !Emptied(w.items, b) && forall i: Item <- w.items :: i.bundle == b && Undecided(i) ==> StillHolds(w.folders, i)
  }

  predicate SameOf(a: seq<Item>, c: seq<Item>, b: nat) {
    |a| == |c| && forall k :: 0 <= k < |a| ==> a[k] == c[k] || (a[k].bundle != b && c[k].bundle != b)
  }

  lemma SettledElsewhere(w: World, v: World, b: nat)
    requires b < |w.bundles| && b < |v.bundles| && Settled(w, b)
    requires SameOf(w.items, v.items, b) && v.bundles[b].status == w.bundles[b].status && v.folders == w.folders
    ensures Settled(v, b)
  {
    forall k | 0 <= k < |v.items| && v.items[k].bundle == b ensures v.items[k] in w.items {
      assert v.items[k] == w.items[k];
    }
  }

  /** After a sweep of the queue, whatever it still offers holds, and no bundle is offered that quietly died. */
  lemma {:induction false} SweptIsSettled(w: World, n: nat, b: nat)
    requires b < n <= |w.bundles|
    ensures Settled(Swept(w, n), b)
  {
    var before := Swept(w, n - 1);
    if b == n - 1 {
      SweptKeepsStatus(w, n - 1, b);
    } else {
      SweptIsSettled(w, n - 1, b);
      if w.bundles[n - 1].status == BundleProposed {
        SettledElsewhere(before, Refreshed(before, n - 1), b);
      }
    }
  }

  lemma {:induction false} SweptKeepsStatus(w: World, n: nat, b: nat)
    requires n <= b < |w.bundles|
    ensures Swept(w, n).bundles[b] == w.bundles[b]
  {
    if n > 0 {
      SweptKeepsStatus(w, n - 1, b);
    }
  }

  // ------------------------------------------------------------------ the folders after they are listed

  predicate IsThere(folders: seq<Folder>, info: Listed) {
    var i := Find(folders, info.name);
    i < |folders| && folders[i].row.made && !folders[i].row.discarded
    && folders[i].row.delimiter == info.delimiter && folders[i].row.special == info.special
  }

  lemma {:induction false} FindIs(folders: seq<Folder>, name: string, i: nat)
    requires i <= |folders| && (i < |folders| ==> folders[i].row.name == name)
    requires forall j :: 0 <= j < i ==> folders[j].row.name != name
    ensures Find(folders, name) == i
    decreases |folders|
  {
    if i > 0 {
      FindIs(folders[1..], name, i - 1);
    }
  }

  lemma AdoptedIsThere(folders: seq<Folder>, info: Listed)
    ensures IsThere(Adopted(folders, info), info)
  {
    FindIs(Adopted(folders, info), info.name, Find(folders, info.name));
  }

  lemma AdoptedLeavesOthers(folders: seq<Folder>, info: Listed, other: Listed)
    requires IsThere(folders, other) && info.name != other.name
    ensures IsThere(Adopted(folders, info), other)
  {
    FindIs(Adopted(folders, info), other.name, Find(folders, other.name));
  }

  lemma {:induction false} StaysThere(folders: seq<Folder>, listed: seq<Listed>, other: Listed)
    requires IsThere(folders, other) && forall k :: 0 <= k < |listed| ==> listed[k].name != other.name
    ensures IsThere(Discovered(folders, listed), other)
    decreases listed
  {
    if listed != [] {
      AdoptedLeavesOthers(folders, listed[0], other);
      StaysThere(Adopted(folders, listed[0]), listed[1..], other);
    }
  }

  /** Once the server's folders are listed, the cache has each of them as the server says it is, whoever made
      it and whatever the cache believed: a proposed one is adopted, a discarded one is back. */
  lemma {:induction false} ListedIsThere(folders: seq<Folder>, listed: seq<Listed>, k: nat)
    requires k < |listed| && forall i, j :: 0 <= i < j < |listed| ==> listed[i].name != listed[j].name
    ensures IsThere(Discovered(folders, listed), listed[k])
    decreases listed
  {
    if k == 0 {
      AdoptedIsThere(folders, listed[0]);
      StaysThere(Adopted(folders, listed[0]), listed[1..], listed[0]);
    } else {
      ListedIsThere(Adopted(folders, listed[0]), listed[1..], k - 1);
    }
  }
}
