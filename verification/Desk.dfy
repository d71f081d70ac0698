/** The calls of `suggest/model.py` and `suggest/staleness.py` as they write the rows, one after another,
    each against the step it has to be. */
module Desk {
  import opened Common
  import Mailbox
  import opened Sync
  import opened Freshness
  import opened Review
  import Growth

  /** What has been sorted so far, and which items have been written for it. */
  ghost predicate AddedSoFar(before: World, now: seq<Item>, b: nat, where: map<nat, Spot>, done: seq<nat>, so: Added)
    requires b < |before.bundles| && Locates(before.folders, where)
  {
    AddedAreLocated(before.items, b, before.bundles[b].target, where, done);
    && so == Sorting(before.items, b, before.bundles[b].target, where, done)
    && now == before.items + ItemsFor(before.folders, b, where, so.added)
  }

  /** A call that has refused keeps its reason. */
  lemma {:induction false} SortingGrows(items: seq<Item>, b: nat, target: Option<nat>, where: map<nat, Spot>, ids: seq<nat>, k: nat)
    requires k <= |ids|
    ensures var so, all := Sorting(items, b, target, where, ids[..k]), Sorting(items, b, target, where, ids);
            |so.nowhere| <= |all.nowhere| && |so.inTarget| <= |all.inTarget|
    decreases |ids|
  {
    if k == |ids| {
      assert ids[..k] == ids;
    } else {
      var rest := ids[..|ids| - 1];
      assert rest[..k] == ids[..k];
      SortingGrows(items, b, target, where, rest, k);
    }
  }

  // ------------------------------------------------------------------ what the calls report

  /** Of the first `n` items, those of the bundle that are in the status. */
  function CountOf(items: seq<Item>, b: nat, status: ItemStatus, n: nat): nat
    requires n <= |items|
  {
    if n == 0 then 0
    else CountOf(items, b, status, n - 1) + (if items[n - 1].bundle == b && items[n - 1].status == status then 1 else 0)
  }

  /** Of the first `n` bundles, those whose status has changed. */
  function MovedBelow(before: seq<Bundle>, after: seq<Bundle>, n: nat): nat
    requires n <= |before| && n <= |after|
  {
    if n == 0 then 0 else MovedBelow(before, after, n - 1) + (if before[n - 1].status != after[n - 1].status then 1 else 0)
  }

  lemma {:induction false} MovedSame(before: seq<Bundle>, after: seq<Bundle>, later: seq<Bundle>, n: nat)
    requires n <= |before| && n <= |after| && n <= |later| && forall k :: 0 <= k < n ==> later[k].status == after[k].status
    ensures MovedBelow(before, later, n) == MovedBelow(before, after, n)
  {
    if n > 0 {
      MovedSame(before, after, later, n - 1);
    }
  }

  function DueBelow(bundles: seq<Bundle>, now: nat, n: nat): nat
    requires n <= |bundles|
  {
    if n == 0 then 0 else DueBelow(bundles, now, n - 1) + (if Due(bundles[n - 1], now) then 1 else 0)
  }

  /** Of the first `n` items, those open that rest on the folder at that generation. */
  function KilledBelow(items: seq<Item>, folder: nat, generation: nat, n: nat): nat
    requires n <= |items|
  {
    if n == 0 then 0
    else
      var i := items[n - 1];
      KilledBelow(items, folder, generation, n - 1)
      + (if i.folder == folder && i.premise.generation == generation && Undecided(i) then 1 else 0)
  }

  predicate IsIn(item: Item, b: nat, status: ItemStatus) { item.bundle == b && item.status == status }

  predicate RestsOpen(item: Item, folder: nat, generation: nat) {
    item.folder == folder && item.premise.generation == generation && (item.status == Proposed || item.status == Accepted)
  }

  /** The items reported as put into another status are all there are. */
  lemma {:induction false} ReportsTheItems(items: seq<Item>, b: nat, status: ItemStatus, n: nat)
    requires n <= |items|
    ensures CountOf(items, b, status, n) == |set i: nat | i < n && IsIn(items[i], b, status)|
  {
    if n > 0 {
      ReportsTheItems(items, b, status, n - 1);
      var last := IsIn(items[n - 1], b, status);
      var before := set i: nat | i < n - 1 && IsIn(items[i], b, status);
      assert (set i: nat | i < n && IsIn(items[i], b, status)) == if last then before + {n - 1} else before;
    }
  }

  /** So are those reported as dying with an identity, */
  lemma {:induction false} ReportsTheKilled(items: seq<Item>, folder: nat, generation: nat, n: nat)
    requires n <= |items|
    ensures KilledBelow(items, folder, generation, n) == |set i: nat | i < n && RestsOpen(items[i], folder, generation)|
  {
    if n > 0 {
      ReportsTheKilled(items, folder, generation, n - 1);
      var last := RestsOpen(items[n - 1], folder, generation);
      var before := set i: nat | i < n - 1 && RestsOpen(items[i], folder, generation);
      assert (set i: nat | i < n && RestsOpen(items[i], folder, generation)) == if last then before + {n - 1} else before;
    }
  }

  /** the bundles reported as closed, */
  lemma {:induction false} ReportsTheMoved(before: seq<Bundle>, after: seq<Bundle>, n: nat)
    requires n <= |before| && n <= |after|
    ensures MovedBelow(before, after, n) == |set i: nat | i < n && before[i].status != after[i].status|
  {
    if n > 0 {
      ReportsTheMoved(before, after, n - 1);
      var last := before[n - 1].status != after[n - 1].status;
      var fewer := set i: nat | i < n - 1 && before[i].status != after[i].status;
      assert (set i: nat | i < n && before[i].status != after[i].status) == if last then fewer + {n - 1} else fewer;
    }
  }

  /** and those reported as expired. */
  lemma {:induction false} ReportsTheDue(bundles: seq<Bundle>, now: nat, n: nat)
    requires n <= |bundles|
    ensures DueBelow(bundles, now, n) == |set i: nat | i < n && bundles[i].status == BundleProposed && bundles[i].expires <= now|
  {
    if n > 0 {
      ReportsTheDue(bundles, now, n - 1);
      var last := bundles[n - 1].status == BundleProposed && bundles[n - 1].expires <= now;
      var before := set i: nat | i < n - 1 && bundles[i].status == BundleProposed && bundles[i].expires <= now;
      assert (set i: nat | i < n && bundles[i].status == BundleProposed && bundles[i].expires <= now) == if last then before + {n - 1} else before;
    }
  }

  class Desk {
    var folders: seq<Folder>
    var items: seq<Item>
    var bundles: seq<Bundle>

    function Rows(): World
      reads this
    {
      World(folders, items, bundles)
    }

    constructor ()
      ensures Rows() == EMPTY
    {
      folders, items, bundles := [], [], [];
    }

    // ---------------------------------------------------------------- staleness

    method RefreshBundle(b: nat)
      requires b < |bundles|
      modifies this`items, this`bundles
      ensures Rows() == Refreshed(old(Rows()), b)
    {
      ghost var judged := AllJudged(folders, items, b);
      var live, died := false, false;
      for i := 0 to |items|
        invariant |items| == |old(items)| && bundles == old(bundles)
        invariant forall k :: 0 <= k < |items| ==> items[k] == if k < i then judged[k] else old(items)[k]
        invariant live <==> exists k :: 0 <= k < i && judged[k].bundle == b && Undecided(judged[k])
        invariant died <==> exists k :: 0 <= k < i && judged[k].bundle == b && judged[k].status == Stale
      {
        if items[i].bundle == b {
          if Undecided(items[i]) && !StillHolds(folders, items[i]) {
            items := items[i := items[i].(status := Stale)];
          }
          assert items[i] == judged[i];
          live := live || Undecided(items[i]);
          died := died || items[i].status == Stale;
        }
      }
      assert items == judged;
      if bundles[b].status == BundleProposed && !live && died {
        bundles := bundles[b := bundles[b].(status := BundleStale)];
      }
    }

    method SweepQueue() returns (closed: nat)
      modifies this`items, this`bundles
      ensures Rows() == Swept(old(Rows()), |old(bundles)|)
      ensures closed == MovedBelow(old(bundles), bundles, |bundles|)
    {
      var queue := bundles;
      closed := 0;
      for n := 0 to |queue|
        invariant Rows() == Swept(old(Rows()), n)
        invariant forall b :: n <= b < |bundles| ==> bundles[b].status == queue[b].status
        invariant closed == MovedBelow(queue, bundles, n)
      {
        ghost var before := bundles;
        if queue[n].status == BundleProposed {
          RefreshBundle(n);
          MovedSame(queue, before, bundles, n);
          if bundles[n].status == BundleStale {
            closed := closed + 1;
          }
        }
      }
    }

    // ---------------------------------------------------------------- proposing

    method AddMessages(b: nat, where: map<nat, Spot>, ids: seq<nat>, each: bool) returns (ok: bool, so: Added)
      requires b < |bundles| && Locates(folders, where)
      modifies this`items
      ensures ok <==> WithMessages(old(Rows()), b, where, ids, each).Some?
      ensures ok ==> Rows() == WithMessages(old(Rows()), b, where, ids, each).value
      ensures ok ==> so == Sorting(old(items), b, bundles[b].target, where, ids)
    {
      var existing := items;
      so := NOTHING;
      for i := 0 to |ids|
        invariant AddedSoFar(old(Rows()), items, b, where, ids[..i], so)
        invariant each ==> so.nowhere == [] && so.inTarget == []
      {
        var m := ids[i];
        assert ids[..i + 1][..i] == ids[..i] && Last(ids[..i + 1]) == m;
        AddedAreLocated(old(items), b, bundles[b].target, where, ids[..i + 1]);
        if m !in ids[..i] {
          if HoldsMessage(existing, b, m) {
            so := so.(here := so.here + [m], excluded := if HoldsExcluded(existing, b, m) then so.excluded + [m] else so.excluded);
          } else if m !in where {
            if each {
              SortingGrows(old(items), b, bundles[b].target, where, ids, i + 1);
              return false, so;
            }
            so := so.(nowhere := so.nowhere + [m]);
          } else if bundles[b].target == Some(where[m].folder) {
            if each {
              SortingGrows(old(items), b, bundles[b].target, where, ids, i + 1);
              return false, so;
            }
            so := so.(inTarget := so.inTarget + [m]);
          } else {
            items := items + [ItemFor(folders, b, m, where[m])];
            so := so.(added := so.added + [m]);
          }
        }
      }
      assert ids[..|ids|] == ids;
      ok := true;
    }

    method RecordQuery(b: nat, text: string, matched: nat, added: seq<nat>, grew: bool)
      requires b < |bundles|
      modifies this`bundles
      ensures Rows() == Recorded(old(Rows()), b, text, matched, added, grew)
    {
      var first, last := 0, 0;
      for i := 0 to |items|
        invariant first == FirstOf(items[..i], b, added) && last == LastOne(items[..i], b, added)
      {
        assert items[..i + 1][..i] == items[..i];
        if BroughtBy(items[i], b, added) {
          first, last := if first > 0 then first else i + 1, i + 1;
        }
      }
      assert items[..|items|] == items;
      var entry := Query(text, grew, matched, |added|, first, last);
      bundles := bundles[b := bundles[b].(queries := bundles[b].queries + [entry])];
    }

    method Fill(b: nat, where: map<nat, Spot>, naming: Naming, grew: bool) returns (ok: bool)
      requires b < |bundles| && Locates(folders, where)
      modifies this`items, this`bundles
      ensures ok <==> Filled(old(Rows()), b, where, naming, grew).Some?
      ensures ok ==> Rows() == Filled(old(Rows()), b, where, naming, grew).value
    {
      var so: Added;
      ok, so := AddMessages(b, where, Candidates(naming), naming.Outright?);
      if ok && naming.Searched? {
        if so.added == [] {
          return false;
        }
        RecordQuery(b, naming.text, naming.matched, so.added, grew);
      }
    }

    /** `propose_bundle`, with the rollback of a refusal. */
    method ProposeBundle(producer: nat, operation: Operation, target: Target, naming: Naming,
                         where: map<nat, Spot>, most: nat, expires: nat) returns (ok: bool)
      requires Resolved(folders, target).Some? ==> Locates(Resolved(folders, target).value.0, where)
      modifies this
      ensures Rows() == Step(old(Rows()), Propose(producer, operation, target, naming, where, most, expires))
      ensures ok <==> Proposing(old(Rows()), producer, operation, target, naming, where, most, expires).Some?
    {
      if !Complete(operation, target) || !Nameable(naming, most) {
        return false;
      }
      var before, heldItems, heldBundles := folders, items, bundles;
      var resolved := Resolved(folders, target);
      if resolved.None? {
        return false;
      }
      folders := resolved.value.0;
      bundles := bundles + [Bundle(producer, operation, resolved.value.1, expires, BundleProposed, [])];
      ok := Fill(|bundles| - 1, where, naming, false);
      if !ok {
        folders, items, bundles := before, heldItems, heldBundles;
      }
    }

    /** `add_to_bundle`, with the rollback of a refusal. */
    method AddToBundle(b: nat, producer: nat, text: string, matched: nat, found: seq<nat>,
                       where: map<nat, Spot>, most: nat) returns (ok: bool)
      requires b < |bundles| && Locates(folders, where)
      modifies this`items, this`bundles
      ensures Rows() == Step(old(Rows()), Grow(b, producer, text, matched, found, where, most))
      ensures ok <==> Growing(old(Rows()), b, producer, text, matched, found, where, most).Some?
    {
      var heldItems, heldBundles := items, bundles;
      RefreshBundle(b);
      ok := bundles[b].status == BundleProposed && bundles[b].producer == producer && bundles[b].operation != Discard
            && Searchable(text, matched, found, most)
            && Messages(items, b) + Arriving(items, b, found) <= most;
      if ok {
        ok := Fill(b, where, Searched(text, matched, found), true);
      }
      if !ok {
        items, bundles := heldItems, heldBundles;
      }
    }

    /** The folders named, each once; not if there is one the account does not have. */
    method Wanted(ids: seq<nat>) returns (ok: bool, wanted: seq<nat>)
      ensures ok <==> forall id: nat <- Once(ids) :: id < |folders|
      ensures ok ==> wanted == Once(ids)
    {
      wanted := [];
      for i := 0 to |ids|
        invariant wanted == Once(ids[..i])
        invariant forall m: nat :: m in wanted <==> m in ids[..i]
        invariant forall m: nat <- wanted :: m < |folders|
      {
        assert ids[..i + 1][..i] == ids[..i] && Last(ids[..i + 1]) == ids[i];
        if ids[i] !in wanted {
          if ids[i] >= |folders| {
            Growth.OnceIsOnce(ids);
            assert ids[i] in Once(ids);
            return false, wanted;
          }
          wanted := wanted + [ids[i]];
        }
      }
      assert ids[..|ids|] == ids;
      ok := true;
    }

    method ProposeDiscarding(producer: nat, ids: seq<nat>, most: nat, expires: nat) returns (ok: bool)
      modifies this`items, this`bundles
      ensures Rows() == Step(old(Rows()), ProposeDiscard(producer, ids, most, expires))
      ensures ok <==> Discarding(old(Rows()), producer, ids, most, expires).Some?
    {
      if ids == [] || |ids| > most {
        return false;
      }
      var wanted: seq<nat>;
      ok, wanted := Wanted(ids);
      if !ok {
        return false;
      }
      forall k | 0 <= k < |wanted| ensures wanted[k] < |folders| {
        assert wanted[k] in wanted;
      }
      for i := 0 to |wanted|
        invariant forall k :: 0 <= k < i ==> MayGo(folders, wanted[k], wanted)
      {
        if !MayGo(folders, wanted[i], wanted) {
          return false;
        }
      }
      var b := |bundles|;
      bundles := bundles + [Bundle(producer, Discard, None, expires, BundleProposed, [])];
      for i := 0 to |wanted|
        invariant bundles == old(bundles) + [Bundle(producer, Discard, None, expires, BundleProposed, [])]
        invariant |items| == |old(items)| + i && items[..|old(items)|] == old(items)
        invariant forall k :: 0 <= k < i ==> items[|old(items)| + k] == FolderItem(folders, b, wanted[k])
      {
        items := items + [FolderItem(folders, b, wanted[i])];
      }
      assert items == old(items) + FolderItems(folders, b, wanted);
      ok := true;
    }

    // ---------------------------------------------------------------- deciding

    method ExcludeItem(id: nat) returns (ok: bool)
      requires 1 <= id <= |items|
      modifies this`items
      ensures Rows() == Excluding(old(Rows()), id)
      ensures ok <==> old(items)[id - 1].status == Proposed
    {
      ok := items[id - 1].status == Proposed;
      if ok {
        items := items[id - 1 := items[id - 1].(status := Excluded)];
      }
    }

    method MarkAll(b: nat, before: ItemStatus, after: ItemStatus) returns (count: nat)
      modifies this`items
      ensures items == Marked(old(items), b, before, after)
      ensures count == CountOf(old(items), b, before, |old(items)|)
    {
      count := 0;
      for i := 0 to |items|
        invariant |items| == |old(items)|
        invariant forall k :: 0 <= k < |items| ==> items[k] == if k < i then Marked(old(items), b, before, after)[k] else old(items)[k]
        invariant count == CountOf(old(items), b, before, i)
      {
        if items[i].bundle == b && items[i].status == before {
          items := items[i := items[i].(status := after)];
          count := count + 1;
        }
      }
    }

    method LastShown(b: nat) returns (through: nat)
      ensures through == ShownThrough(items, b)
    {
      through := 0;
      for i := 0 to |items|
        invariant through == ShownThrough(items[..i], b)
      {
        assert items[..i + 1][..i] == items[..i];
        if items[i].bundle == b {
          through := i + 1;
        }
      }
      assert items[..|items|] == items;
    }

    method AcceptBundle(b: nat, reviewedThrough: nat, acknowledged: bool) returns (ok: bool)
      requires b < |bundles|
      modifies this`items, this`bundles
      ensures Rows() == Accepting(old(Rows()), b, reviewedThrough, acknowledged)
      ensures ok <==> bundles[b].status == BundleAccepted && old(bundles)[b].status == BundleProposed
    {
      if bundles[b].status != BundleProposed || reviewedThrough == 0 {
        return false;
      }
      var through := LastShown(b);
      if through > reviewedThrough {
        return false;
      }
      RefreshBundle(b);
      if bundles[b].status == BundleStale || (HasItem(items, b, Stale) && !acknowledged) {
        return false;
      }
      if !HasItem(items, b, Proposed) {
        return false;
      }
      var _ := MarkAll(b, Proposed, Accepted);
      bundles := bundles[b := bundles[b].(status := BundleAccepted)];
      ok := true;
    }

    method EndBundle(b: nat, status: BundleStatus, item: ItemStatus) returns (ok: bool)
      requires b < |bundles|
      modifies this`items, this`bundles
      ensures Rows() == Ended(old(Rows()), b, status, item)
      ensures ok <==> old(bundles)[b].status == BundleProposed
    {
      ok := bundles[b].status == BundleProposed;
      if ok {
        bundles := bundles[b := bundles[b].(status := status)];
        var _ := MarkAll(b, Proposed, item);
      }
    }

    method WithdrawBundle(b: nat, producer: nat) returns (ok: bool)
      requires b < |bundles|
      modifies this`items, this`bundles
      ensures Rows() == Step(old(Rows()), Withdraw(b, producer))
    {
      ok := bundles[b].producer == producer;
      if ok {
        ok := EndBundle(b, BundleWithdrawn, Withdrawn);
      }
    }

    method Expire(now: nat) returns (count: nat)
      modifies this`items, this`bundles
      ensures Rows() == Expiring(old(Rows()), now, |old(bundles)|)
      ensures count == DueBelow(old(bundles), now, |old(bundles)|)
    {
      var due := bundles;
      count := 0;
      for n := 0 to |due|
        invariant Rows() == Expiring(old(Rows()), now, n)
        invariant count == DueBelow(due, now, n)
      {
        if Due(due[n], now) {
          var _ := EndBundle(n, BundleExpired, Expired);
          count := count + 1;
        }
      }
    }

    // ---------------------------------------------------------------- the sync

    /** The start of a sync, with the items `break_identity` kills. */
    method StartSyncing(folder: nat, selected: Mailbox.Selected) returns (killed: nat)
      requires folder < |folders|
      modifies this`folders, this`items
      ensures Rows() == Starting(old(Rows()), folder, selected)
      ensures killed == if IdentityBroken(old(folders)[folder], selected)
                        then KilledBelow(old(items), folder, old(folders)[folder].row.generation, |old(items)|) else 0
    {
      killed := 0;
      if IdentityBroken(folders[folder], selected) {
        var generation := folders[folder].row.generation;
        folders := folders[folder := BreakIdentity(folders[folder], selected.uidvalidity)];
        for i := 0 to |items|
          invariant |items| == |old(items)|
          invariant folders == old(folders)[folder := Begin(old(folders)[folder], selected)]
          invariant forall k :: 0 <= k < |items| ==> items[k] == if k < i then Killed(old(items), folder, generation)[k] else old(items)[k]
          invariant killed == KilledBelow(old(items), folder, generation, i)
        {
          if items[i].folder == folder && items[i].premise.generation == generation && Undecided(items[i]) {
            items := items[i := items[i].(status := Stale)];
            killed := killed + 1;
          }
        }
        assert items == Killed(old(items), folder, generation);
      }
      assert folders == old(folders)[folder := Begin(old(folders)[folder], selected)];
    }
  }
}
