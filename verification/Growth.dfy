/** Growing a bundle. */
module Growth {
  import opened Common
  import Identity
  import opened Sync
  import opened Review
  import opened ReviewSafety

  // What becomes of every message a proposal names or finds, how large a bundle may get, and which search
  // brought which item: `_add_messages`, `_record_query`, and the provenance of `bundle_detail`.

  // ------------------------------------------------------------------ every id in exactly one class

  predicate NoDup(s: seq<nat>) { forall i, j :: 0 <= i < j < |s| ==> s[i] != s[j] }

  lemma {:induction false} OnceIsOnce(ids: seq<nat>)
    ensures NoDup(Once(ids)) && |Once(ids)| <= |ids| && forall m: nat :: m in Once(ids) <==> m in ids
  {
    if ids != [] {
      var rest := ids[..|ids| - 1];
      OnceIsOnce(rest);
      assert ids == rest + [Last(ids)];
    }
  }

  /** Where each id goes. */
  lemma {:induction false} SortingClasses(items: seq<Item>, b: nat, target: Option<nat>, where: map<nat, Spot>, ids: seq<nat>, m: nat)
    ensures var so := Sorting(items, b, target, where, ids);
            && (m in so.here <==> m in ids && HoldsMessage(items, b, m))
            && (m in so.excluded <==> m in ids && HoldsExcluded(items, b, m))
            && (m in so.nowhere <==> m in ids && !HoldsMessage(items, b, m) && m !in where)
            && (m in so.inTarget <==> m in ids && !HoldsMessage(items, b, m) && m in where && target == Some(where[m].folder))
            && (m in so.added <==> m in ids && !HoldsMessage(items, b, m) && m in where && target != Some(where[m].folder))
  {
    if ids != [] {
      var rest := ids[..|ids| - 1];
      SortingClasses(items, b, target, where, rest, m);
      assert ids == rest + [Last(ids)];
    }
  }

  function AllOf(so: Added): multiset<nat> {
    multiset(so.added) + multiset(so.inTarget) + multiset(so.nowhere) + multiset(so.here)
  }

  function CountOf(so: Added): nat { |so.added| + |so.inTarget| + |so.nowhere| + |so.here| }

  lemma SortedCounts(items: seq<Item>, b: nat, target: Option<nat>, where: map<nat, Spot>, so: Added, m: nat)
    requires multiset(so.excluded) <= multiset(so.here)
    ensures var next := Sorted(items, b, target, where, so, m);
            && AllOf(next) == AllOf(so) + multiset{m} && CountOf(next) == CountOf(so) + 1
            && multiset(next.excluded) <= multiset(next.here)
  {}

  /** And that it is counted once. */
  lemma {:induction false} SortingCounts(items: seq<Item>, b: nat, target: Option<nat>, where: map<nat, Spot>, ids: seq<nat>)
    ensures var so := Sorting(items, b, target, where, ids);
            && AllOf(so) == multiset(Once(ids)) && CountOf(so) == |Once(ids)|
            && multiset(so.excluded) <= multiset(so.here)
  {
    if ids != [] {
      var rest := ids[..|ids| - 1];
      SortingCounts(items, b, target, where, rest);
      SortedCounts(items, b, target, where, Sorting(items, b, target, where, rest), Last(ids));
    }
  }

  lemma {:induction false} AddedOnce(items: seq<Item>, b: nat, target: Option<nat>, where: map<nat, Spot>, ids: seq<nat>)
    ensures NoDup(Sorting(items, b, target, where, ids).added)
    ensures |Sorting(items, b, target, where, ids).added| <= |ids|
  {
    if ids != [] {
      var rest := ids[..|ids| - 1];
      AddedOnce(items, b, target, where, rest);
      SortingClasses(items, b, target, where, rest, Last(ids));
    }
  }

  ghost predicate LiveIn(folders: seq<Folder>, m: nat, folder: Option<nat>) {
    folder.Some? && exists uid :: LiveAt(folders, m, Spot(folder.value, uid))
  }

  /** A call that completes puts each distinct id in exactly one class, and each class says what is so. */
  lemma GrowthAccounting(w: World, b: nat, where: map<nat, Spot>, ids: seq<nat>)
    requires b < |w.bundles| && Locates(w.folders, where)
    ensures var so := Sorting(w.items, b, w.bundles[b].target, where, ids);
            && AllOf(so) == multiset(Once(ids)) && CountOf(so) == |Once(ids)|
            && NoDup(Once(ids)) && (forall m: nat :: m in Once(ids) <==> m in ids)
            && multiset(so.excluded) <= multiset(so.here)
            && (forall m: nat <- so.here :: HoldsMessage(w.items, b, m) && (m in so.excluded <==> HoldsExcluded(w.items, b, m)))
            && (forall m: nat <- so.nowhere :: forall spot :: !LiveAt(w.folders, m, spot))
            && (forall m: nat <- so.inTarget :: LiveIn(w.folders, m, w.bundles[b].target))
            && (forall m: nat <- so.added :: !HoldsMessage(w.items, b, m) && exists spot :: LiveAt(w.folders, m, spot))
  {
    var target := w.bundles[b].target;
    var so := Sorting(w.items, b, target, where, ids);
    SortingCounts(w.items, b, target, where, ids);
    OnceIsOnce(ids);
    forall m: nat
      ensures m in so.here ==> HoldsMessage(w.items, b, m) && (m in so.excluded <==> HoldsExcluded(w.items, b, m))
      ensures m in so.nowhere ==> m !in where
      ensures m in so.inTarget ==> m in where && target == Some(where[m].folder)
      ensures m in so.added ==> m in where && !HoldsMessage(w.items, b, m)
    {
      SortingClasses(w.items, b, target, where, ids, m);
    }
    forall m: nat | m in so.inTarget ensures LiveIn(w.folders, m, target) {
      assert LiveAt(w.folders, m, where[m]) && where[m] == Spot(target.value, where[m].uid);
    }
  }

  // ------------------------------------------------------------------ no message twice, and never too many

  /** No bundle holds a message twice. */
  ghost predicate NoTwice(items: seq<Item>) {
    forall i, j :: 0 <= i < j < |items| && items[i].message.Some? && items[i].bundle == items[j].bundle
                   ==> items[i].message != items[j].message
  }

  predicate OfItsKind(bundles: seq<Bundle>, item: Item) {
    item.bundle < |bundles| && (item.message.None? <==> bundles[item.bundle].operation == Discard)
  }

  /** A bundle is about messages or about folders. */
  ghost predicate OfOneKind(w: World) { forall i: Item <- w.items :: OfItsKind(w.bundles, i) }

  function Size(items: seq<Item>, b: nat): nat {
    if items == [] then 0 else Size(items[..|items| - 1], b) + (if Last(items).bundle == b then 1 else 0)
  }

  ghost predicate WithinSize(w: World, most: nat) {
    forall b: nat :: b < |w.bundles| ==> Size(w.items, b) <= most
  }

  predicate SameItems(a: seq<Item>, b: seq<Item>) {
    |a| == |b| && forall i :: 0 <= i < |a| ==> a[i].bundle == b[i].bundle && a[i].message == b[i].message
  }

  lemma {:induction false} SizeSame(a: seq<Item>, c: seq<Item>, b: nat)
    requires SameItems(a, c)
    ensures Size(a, b) == Size(c, b)
    decreases |a|
  {
    if a != [] {
      SizeSame(a[..|a| - 1], c[..|c| - 1], b);
    }
  }

  lemma {:induction false} SizeNone(items: seq<Item>, b: nat)
    requires forall i: Item <- items :: i.bundle < b
    ensures Size(items, b) == 0
    decreases |items|
  {
    if items != [] {
      SizeNone(items[..|items| - 1], b);
    }
  }

  /** Every new item is of one bundle. */
  lemma {:induction false} SizeMore(items: seq<Item>, more: seq<Item>, own: nat, b: nat)
    requires forall i: Item <- more :: i.bundle == own
    ensures Size(items + more, b) == Size(items, b) + (if b == own then |more| else 0)
    decreases |more|
  {
    if more == [] {
      assert items + more == items;
    } else {
      var before := more[..|more| - 1];
      assert (items + more)[..|items + more| - 1] == items + before;
      assert Last(more) in more;
      SizeMore(items, before, own, b);
    }
  }

  lemma {:induction false} SizeIsMessages(items: seq<Item>, b: nat)
    requires forall i: Item <- items :: i.bundle == b ==> i.message.Some?
    ensures Messages(items, b) == Size(items, b)
    decreases |items|
  {
    if items != [] {
      assert Last(items) in items;
      SizeIsMessages(items[..|items| - 1], b);
    }
  }

  lemma {:induction false} NoDupCount(s: seq<nat>)
    requires NoDup(s)
    ensures |set m: nat | m in s| == |s|
  {
    if s != [] {
      var rest := s[..|s| - 1];
      NoDupCount(rest);
      assert s == rest + [Last(s)] && Last(s) !in rest;
      assert (set m: nat | m in s) == (set m: nat | m in rest) + {Last(s)};
    } else {
      assert (set m: nat | m in s) == {};
    }
  }

  /** What arrives was counted before it was let in. */
  lemma AddedIsArriving(items: seq<Item>, b: nat, target: Option<nat>, where: map<nat, Spot>, found: seq<nat>)
    ensures |Sorting(items, b, target, where, found).added| <= Arriving(items, b, found)
  {
    var added := Sorting(items, b, target, where, found).added;
    AddedOnce(items, b, target, where, found);
    NoDupCount(added);
    var arriving := set m | m in found && !HoldsMessage(items, b, m);
    forall m: nat | m in added ensures m in arriving {
      SortingClasses(items, b, target, where, found, m);
    }
    var coming := set m: nat | m in added;
    assert arriving == coming + (arriving - coming);
  }

  /** The items `_add_messages` writes. */
  ghost function NewItems(w: World, b: nat, where: map<nat, Spot>, ids: seq<nat>): (r: seq<Item>)
    requires b < |w.bundles| && Locates(w.folders, where)
    ensures |r| == |Sorting(w.items, b, w.bundles[b].target, where, ids).added|
  {
    AddedAreLocated(w.items, b, w.bundles[b].target, where, ids);
    ItemsFor(w.folders, b, where, Sorting(w.items, b, w.bundles[b].target, where, ids).added)
  }

  lemma NewItemsAre(w: World, b: nat, where: map<nat, Spot>, ids: seq<nat>)
    requires b < |w.bundles| && Locates(w.folders, where)
    ensures var added := Sorting(w.items, b, w.bundles[b].target, where, ids).added;
            var more := NewItems(w, b, where, ids);
            forall k :: 0 <= k < |more| ==> more[k].bundle == b && more[k].message == Some(added[k]) && more[k].status == Proposed
  {
    AddedAreLocated(w.items, b, w.bundles[b].target, where, ids);
  }

  /** And each is pinned to what the cache showed of its message. */
  lemma NewItemsPin(w: World, b: nat, where: map<nat, Spot>, ids: seq<nat>, k: nat)
    requires b < |w.bundles| && Locates(w.folders, where) && k < |NewItems(w, b, where, ids)|
    ensures var item := NewItems(w, b, where, ids)[k];
            && item.folder < |w.folders| && item.message.Some?
            && Identity.Pins(w.folders[item.folder], item.premise)
            && w.folders[item.folder].places[Slot(item.premise.generation, item.premise.uid)].message == item.message.value
  {
    AddedAreLocated(w.items, b, w.bundles[b].target, where, ids);
    var m := Sorting(w.items, b, w.bundles[b].target, where, ids).added[k];
    assert m in Sorting(w.items, b, w.bundles[b].target, where, ids).added && LiveAt(w.folders, m, where[m]);
  }

  lemma NewItemsNoTwice(w: World, b: nat, where: map<nat, Spot>, ids: seq<nat>)
    requires b < |w.bundles| && Locates(w.folders, where) && NoTwice(w.items)
    ensures NoTwice(w.items + NewItems(w, b, where, ids))
  {
    var target := w.bundles[b].target;
    var added := Sorting(w.items, b, target, where, ids).added;
    var after := w.items + NewItems(w, b, where, ids);
    NewItemsAre(w, b, where, ids);
    AddedOnce(w.items, b, target, where, ids);
    forall i, j | 0 <= i < j < |after| && after[i].message.Some? && after[i].bundle == after[j].bundle
      ensures after[i].message != after[j].message
    {
      if j >= |w.items| {
        var m := added[j - |w.items|];
        assert m in added;
        SortingClasses(w.items, b, target, where, ids, m);
        if i < |w.items| {
          assert w.items[i] in w.items;
        }
      }
    }
  }

  ghost predicate Tidy(w: World, most: nat) { OfOneKind(w) && NoTwice(w.items) && WithinSize(w, most) }

  lemma TidySame(w: World, v: World, most: nat)
    requires Tidy(w, most) && SameItems(w.items, v.items)
    requires |w.bundles| == |v.bundles| && BundlesOnward(w.bundles, v.bundles)
    ensures Tidy(v, most)
  {
    forall i | 0 <= i < |v.items| ensures OfItsKind(v.bundles, v.items[i]) {
      assert w.items[i] in w.items;
      assert BundleOnward(w.bundles[w.items[i].bundle], v.bundles[w.items[i].bundle]);
    }
    forall b: nat | b < |v.bundles| ensures Size(v.items, b) <= most {
      SizeSame(w.items, v.items, b);
    }
  }

  lemma FilledTidy(w: World, b: nat, where: map<nat, Spot>, naming: Naming, grew: bool, most: nat)
    requires Tidy(w, most) && b < |w.bundles| && Locates(w.folders, where) && w.bundles[b].operation != Discard
    requires Size(w.items, b) + |NewItems(w, b, where, Candidates(naming))| <= most
    ensures var r := Filled(w, b, where, naming, grew); r.Some? ==> Tidy(r.value, most)
  {
    var r := Filled(w, b, where, naming, grew);
    if r.Some? {
      var v, more := r.value, NewItems(w, b, where, Candidates(naming));
      NewItemsAre(w, b, where, Candidates(naming));
      NewItemsNoTwice(w, b, where, Candidates(naming));
      forall c: nat | c < |v.bundles| ensures Size(v.items, c) <= most {
        SizeMore(w.items, more, b, c);
      }
      FilledOnward(w, b, where, naming, grew);
    }
  }

  lemma ProposingTidy(w: World, producer: nat, operation: Operation, target: Target, naming: Naming,
                      where: map<nat, Spot>, most: nat, expires: nat)
    requires Tidy(w, most)
    ensures Tidy(Otherwise(Proposing(w, producer, operation, target, naming, where, most, expires), w), most)
  {
    if Proposing(w, producer, operation, target, naming, where, most, expires).Some? {
      var resolved := Resolved(w.folders, target).value;
      var begun := World(resolved.0, w.items, w.bundles + [Bundle(producer, operation, resolved.1, expires, BundleProposed, [])]);
      var b := |w.bundles|;
      forall i: Item | i in w.items ensures i.bundle < b {}
      SizeNone(w.items, b);
      assert Tidy(begun, most) by {
        forall c: nat | c < |begun.bundles| ensures Size(begun.items, c) <= most {}
      }
      AddedOnce(w.items, b, resolved.1, where, Candidates(naming));
      FilledTidy(begun, b, where, naming, false, most);
    }
  }

  lemma GrowingTidy(w: World, b: nat, producer: nat, text: string, matched: nat, found: seq<nat>,
                    where: map<nat, Spot>, most: nat)
    requires Tidy(w, most)
    ensures Tidy(Otherwise(Growing(w, b, producer, text, matched, found, where, most), w), most)
  {
    if Growing(w, b, producer, text, matched, found, where, most).Some? {
      var now := Refreshed(w, b);
      RefreshedOnward(w, b);
      TidySame(w, now, most);
      forall i: Item | i in now.items && i.bundle == b ensures i.message.Some? {}
      SizeIsMessages(now.items, b);
      AddedIsArriving(now.items, b, now.bundles[b].target, where, found);
      FilledTidy(now, b, where, Searched(text, matched, found), true, most);
    }
  }

  lemma DiscardingTidy(w: World, producer: nat, ids: seq<nat>, most: nat, expires: nat)
    requires Tidy(w, most)
    ensures Tidy(Otherwise(Discarding(w, producer, ids, most, expires), w), most)
  {
    var r := Discarding(w, producer, ids, most, expires);
    if r.Some? {
      var v, b, more := r.value, |w.bundles|, FolderItems(w.folders, |w.bundles|, Once(ids));
      OnceIsOnce(ids);
      forall k | 0 <= k < |more| ensures more[k].bundle == b && more[k].message == None {
        assert Once(ids)[k] in Once(ids);
      }
      forall i: Item | i in w.items ensures i.bundle < b {}
      SizeNone(w.items, b);
      forall c: nat | c < |v.bundles| ensures Size(v.items, c) <= most {
        SizeMore(w.items, more, b, c);
      }
    }
  }

  /** The limit a step was asked to keep to is `most`, if it was given one. */
  predicate Limited(op: Op, most: nat) { op.Propose? || op.ProposeDiscard? || op.Grow? ==> op.most == most }

  lemma OthersSame(w: World, op: Op)
    requires !Larger(op)
    ensures SameItems(w.items, Step(w, op).items) && |Step(w, op).bundles| == |w.bundles|
  {
    StepOnward(w, op);
    assert |Step(w, op).items| == |w.items|;
    var items := Step(w, op).items;
    forall i | 0 <= i < |items| ensures items[i].bundle == w.items[i].bundle && items[i].message == w.items[i].message {
      assert ItemOnward(w.items[i], items[i]);
    }
  }

  lemma StepTidy(w: World, op: Op, most: nat)
    requires Tidy(w, most) && Limited(op, most)
    ensures Tidy(Step(w, op), most)
  {
    match op
    case Propose(producer, operation, target, naming, where, _, expires) =>
      ProposingTidy(w, producer, operation, target, naming, where, most, expires);
    case ProposeDiscard(producer, ids, _, expires) => DiscardingTidy(w, producer, ids, most, expires);
    case Grow(b, producer, text, matched, found, where, _) => GrowingTidy(w, b, producer, text, matched, found, where, most);
    case _ =>
      OthersSame(w, op);
      StepOnward(w, op);
      TidySame(w, Step(w, op), most);
  }

  /** Whatever is proposed, grown and decided, with one limit for all of it: no bundle holds more than the
      limit, none holds a message twice, none mixes messages and folders. */
  lemma {:induction false} BundlesStayTidy(ops: seq<Op>, most: nat)
    requires forall op <- ops :: Limited(op, most)
    ensures Tidy(Run(EMPTY, ops), most)
    decreases |ops|
  {
    if ops != [] {
      var before := ops[..|ops| - 1];
      assert Last(ops) in ops;
      BundlesStayTidy(before, most);
      StepTidy(Run(EMPTY, before), Last(ops), most);
    }
  }
}
