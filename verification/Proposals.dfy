/** Exactly when something may be proposed, and what is then written: `suggest/model.py`. */
module Proposals {
  import opened Common
  import opened Sync
  import opened Review
  import opened ReviewSafety
  import opened Growth
  import FolderTree
  import Search

  // ------------------------------------------------------------------ the folder to move into

  /** The separator an account's folders report, if any of them does. */
  lemma {:induction false} DelimiterIsReported(folders: seq<Folder>)
    ensures var d := AccountDelimiter(folders);
            if d.Some? then exists k :: 0 <= k < |folders| && folders[k].row.delimiter == d
            else forall k :: 0 <= k < |folders| ==> folders[k].row.delimiter.None?
    decreases folders
  {
    if folders != [] && folders[0].row.delimiter.None? {
      DelimiterIsReported(folders[1..]);
      var d := AccountDelimiter(folders);
      if d.Some? {
        var k :| 0 <= k < |folders[1..]| && folders[1..][k].row.delimiter == d;
        assert folders[k + 1].row.delimiter == d;
      } else {
        forall k | 0 <= k < |folders| ensures folders[k].row.delimiter.None? {
          assert k > 0 ==> folders[k] == folders[1..][k - 1];
        }
      }
    }
  }

  /** Naming a folder to move into writes a row and asks the server nothing: one that is there is used as it is; one
      that was discarded lives again, not made, past every premise taken of it; any other begins, not made and unread. */
  lemma TargetAwaitsAcceptance(folders: seq<Folder>, name: string, i: nat)
    requires Resolved(folders, ByName(name)).Some? && i < |Resolved(folders, ByName(name)).value.0|
    ensures var (after, target) := Resolved(folders, ByName(name)).value;
            && target.Some? && target.value < |after| && after[target.value].row.name == name && !after[target.value].row.discarded
            && |folders| <= |after| <= |folders| + 1
            && (i != target.value ==> i < |folders| && after[i] == folders[i])
            && (i == target.value ==>
                  if i == |folders| then
                    && !after[i].row.made && after[i].row.uidvalidity.None? && after[i].row.highest.None? && after[i].places == map[]
                    && after[i].row.delimiter == AccountDelimiter(folders)
                    && forall k :: 0 <= k < |folders| ==> folders[k].row.name != name
                  else if folders[i].row.discarded then
                    after[i] == folders[i].(row := folders[i].row.(discarded := false, made := false, generation := folders[i].row.generation + 1))
                  else after[i] == folders[i])
  {}

  /** The folder a proposal names, by its place or by its name, can be moved into. */
  predicate TargetStands(folders: seq<Folder>, target: Target) {
    match target
    case NoTarget => true
    case ById(id) => id < |folders| && !folders[id].row.discarded
    case ByName(name) => ValidName(name, AccountDelimiter(folders))
  }

  // ------------------------------------------------------------------ who takes part

  /** The message is in a folder, not the one it would go to, and not in the bundle yet. */
  predicate TakesPart(items: seq<Item>, b: nat, target: Option<nat>, where: map<nat, Spot>, m: nat) {
    && m in where && target != Some(where[m].folder)
    && forall i: Item <- items :: i.bundle == b ==> i.message != Some(m)
  }

  lemma AddedTakePart(items: seq<Item>, b: nat, target: Option<nat>, where: map<nat, Spot>, ids: seq<nat>)
    ensures Sorting(items, b, target, where, ids).added != [] <==> exists m: nat :: m in ids && TakesPart(items, b, target, where, m)
  {
    var added := Sorting(items, b, target, where, ids).added;
    if added != [] {
      assert added[0] in added;
      SortingClasses(items, b, target, where, ids, added[0]);
      assert TakesPart(items, b, target, where, added[0]);
    }
    if exists m: nat :: m in ids && TakesPart(items, b, target, where, m) {
      var m: nat :| m in ids && TakesPart(items, b, target, where, m);
      SortingClasses(items, b, target, where, ids, m);
    }
  }

  /** Of messages named outright for a new bundle, all take part if none is found wanting. */
  lemma NoneWanting(items: seq<Item>, b: nat, target: Option<nat>, where: map<nat, Spot>, ids: seq<nat>)
    requires forall i: Item <- items :: i.bundle != b
    ensures var so := Sorting(items, b, target, where, ids);
            so.nowhere == [] && so.inTarget == [] <==> forall m: nat :: m in ids ==> TakesPart(items, b, target, where, m)
  {
    var so := Sorting(items, b, target, where, ids);
    if so.nowhere == [] && so.inTarget == [] {
      forall m: nat | m in ids ensures TakesPart(items, b, target, where, m) {
        SortingClasses(items, b, target, where, ids, m);
      }
    }
    if so.nowhere != [] {
      assert so.nowhere[0] in so.nowhere;
      SortingClasses(items, b, target, where, ids, so.nowhere[0]);
    }
    if so.inTarget != [] {
      assert so.inTarget[0] in so.inTarget;
      SortingClasses(items, b, target, where, ids, so.inTarget[0]);
    }
  }

  // ------------------------------------------------------------------ proposing a change of messages

  /** The operation has what it needs: a move a target, a change of flags a flag; a discard is proposed otherwise. */
  predicate SaysEnough(operation: Operation, target: Target) {
    match operation
    case Discard => false
    case Move => target != NoTarget
    case AddFlag(flag) => flag != ""
    case RemoveFlag(flag) => flag != ""
    case Delete => true
  }

  /** Messages are named outright, some and not too many, each a claim that holds; or searched for, with something to
      search for and something found but not too much, of which some can take part. */
  ghost predicate NamesWell(items: seq<Item>, b: nat, target: Option<nat>, where: map<nat, Spot>, naming: Naming, most: nat) {
    match naming
    case Outright(ids) => 0 < |ids| <= most && forall m: nat :: m in ids ==> TakesPart(items, b, target, where, m)
    case Searched(text, matched, found) =>
      && Search.Query(text).Some? && 0 < matched <= most && |found| <= most
      && exists m: nat :: m in found && TakesPart(items, b, target, where, m)
  }

  lemma FilledExactly(w: World, b: nat, where: map<nat, Spot>, naming: Naming, grew: bool, most: nat)
    requires b < |w.bundles| && Locates(w.folders, where) && Nameable(naming, most)
    requires naming.Outright? ==> forall i: Item <- w.items :: i.bundle != b
    ensures Filled(w, b, where, naming, grew).Some? <==> NamesWell(w.items, b, w.bundles[b].target, where, naming, most)
  {
    match naming
    case Outright(ids) => NoneWanting(w.items, b, w.bundles[b].target, where, ids);
    case Searched(_, _, found) => AddedTakePart(w.items, b, w.bundles[b].target, where, found);
  }

  /** What is proposed is a bundle more, awaiting review, of this producer, for this change, and nothing that was there has
      changed but the row of its target. */
  lemma ProposedAdds(w: World, producer: nat, operation: Operation, target: Target, naming: Naming,
                     where: map<nat, Spot>, most: nat, expires: nat)
    requires Proposing(w, producer, operation, target, naming, where, most, expires).Some?
    ensures var v, resolved := Proposing(w, producer, operation, target, naming, where, most, expires).value, Resolved(w.folders, target);
            && resolved.Some? && v.folders == resolved.value.0
            && |v.bundles| == |w.bundles| + 1 && w.bundles <= v.bundles && w.items <= v.items
            && Last(v.bundles).(queries := []) == Bundle(producer, operation, resolved.value.1, expires, BundleProposed, [])
  {}

  lemma MayPropose(w: World, producer: nat, operation: Operation, target: Target, naming: Naming,
                   where: map<nat, Spot>, most: nat, expires: nat)
    requires Resolved(w.folders, target).Some? && Locates(Resolved(w.folders, target).value.0, where)
    requires Complete(operation, target) && forall i: Item <- w.items :: i.bundle != |w.bundles|
    ensures Proposing(w, producer, operation, target, naming, where, most, expires).Some?
            <==> NamesWell(w.items, |w.bundles|, Resolved(w.folders, target).value.1, where, naming, most)
  {
    var resolved := Resolved(w.folders, target).value;
    var begun := World(resolved.0, w.items, w.bundles + [Bundle(producer, operation, resolved.1, expires, BundleProposed, [])]);
    if Nameable(naming, most) {
      FilledExactly(begun, |w.bundles|, where, naming, false, most);
    }
  }

  /** A proposal is made if and only if it says enough, its target stands, and it names its messages well. */
  lemma ProposedExactly(w: World, producer: nat, operation: Operation, target: Target, naming: Naming,
                        where: map<nat, Spot>, most: nat, expires: nat)
    requires Coupled(w) && (Resolved(w.folders, target).Some? ==> Locates(Resolved(w.folders, target).value.0, where))
    ensures Proposing(w, producer, operation, target, naming, where, most, expires).Some? <==>
              && SaysEnough(operation, target) && TargetStands(w.folders, target)
              && NamesWell(w.items, |w.bundles|, Resolved(w.folders, target).value.1, where, naming, most)
  {
    forall i: Item | i in w.items ensures i.bundle != |w.bundles| {
      assert FitsIn(w.bundles, i);
    }
    assert SaysEnough(operation, target) <==> Complete(operation, target);
    assert TargetStands(w.folders, target) <==> Resolved(w.folders, target).Some?;
    if SaysEnough(operation, target) && TargetStands(w.folders, target) {
      MayPropose(w, producer, operation, target, naming, where, most, expires);
    }
  }

  // ------------------------------------------------------------------ growing

  /** The messages a bundle holds, whatever became of their items. */
  function HeldIn(items: seq<Item>, b: nat): set<nat> {
    set i: Item | i in items && i.bundle == b && i.message.Some? :: i.message.value
  }

  lemma HeldByOneMore(rest: seq<Item>, last: Item, b: nat)
    requires NoTwice(rest + [last])
    ensures var more := last.bundle == b && last.message.Some?;
            && HeldIn(rest + [last], b) == (if more then HeldIn(rest, b) + {last.message.value} else HeldIn(rest, b))
            && (more ==> last.message.value !in HeldIn(rest, b)) && NoTwice(rest)
  {
    var items := rest + [last];
    assert items[|rest|] == last && forall k :: 0 <= k < |rest| ==> items[k] == rest[k];
  }

  lemma {:induction false} MessagesAreHeld(items: seq<Item>, b: nat)
    requires NoTwice(items)
    ensures Messages(items, b) == |HeldIn(items, b)|
    decreases |items|
  {
    if items != [] {
      var rest, last := items[..|items| - 1], Last(items);
      assert items == rest + [last];
      HeldByOneMore(rest, last, b);
      MessagesAreHeld(rest, b);
    }
  }

  lemma ArrivingMakesMore(items: seq<Item>, b: nat, found: seq<nat>)
    requires NoTwice(items)
    ensures Messages(items, b) + Arriving(items, b, found) == |HeldIn(items, b) + (set m: nat | m in found)|
  {
    MessagesAreHeld(items, b);
    var held, arriving := HeldIn(items, b), set m | m in found && !HoldsMessage(items, b, m);
    forall m: nat ensures m in held <==> HoldsMessage(items, b, m) {}
    assert held + (set m: nat | m in found) == held + arriving && held !! arriving;
  }

  lemma MayGrow(w: World, b: nat, producer: nat, text: string, matched: nat, found: seq<nat>, where: map<nat, Spot>, most: nat)
    requires b < |w.bundles| && Locates(w.folders, where)
    ensures var now := Refreshed(w, b);
            Growing(w, b, producer, text, matched, found, where, most).Some? <==>
              && now.bundles[b].status == BundleProposed && w.bundles[b].producer == producer && w.bundles[b].operation != Discard
              && Messages(now.items, b) + Arriving(now.items, b, found) <= most
              && NamesWell(now.items, b, w.bundles[b].target, where, Searched(text, matched, found), most)
  {
    var now := Refreshed(w, b);
    if Searchable(text, matched, found, most) {
      FilledExactly(now, b, where, Searched(text, matched, found), true, most);
    }
  }

  lemma HeldStill(w: World, b: nat, found: seq<nat>)
    requires b < |w.bundles| && NoTwice(w.items)
    ensures var now := Refreshed(w, b);
            Messages(now.items, b) + Arriving(now.items, b, found) == |HeldIn(w.items, b) + (set m: nat | m in found)|
  {
    var now := Refreshed(w, b);
    assert SameItems(w.items, now.items);
    assert NoTwice(now.items);
    ArrivingMakesMore(now.items, b, found);
    SameHeld(w.items, now.items, b);
  }

  /** A bundle grows if and only if, looked at again, it still awaits review, is this producer's and about messages, the
      search says enough and finds something it can take in, and all it would then hold is not too much. */
  lemma GrownExactly(w: World, b: nat, producer: nat, text: string, matched: nat, found: seq<nat>, where: map<nat, Spot>, most: nat)
    requires b < |w.bundles| && Locates(w.folders, where) && NoTwice(w.items)
    ensures var now := Step(w, Draw(b));
            Growing(w, b, producer, text, matched, found, where, most).Some? <==>
              && now.bundles[b].status == BundleProposed && w.bundles[b].producer == producer && w.bundles[b].operation != Discard
              && NamesWell(now.items, b, w.bundles[b].target, where, Searched(text, matched, found), most)
              && |HeldIn(w.items, b) + (set m: nat | m in found)| <= most
  {
    assert Step(w, Draw(b)) == Refreshed(w, b);
    MayGrow(w, b, producer, text, matched, found, where, most);
    HeldStill(w, b, found);
  }

  lemma SameHeld(a: seq<Item>, c: seq<Item>, b: nat)
    requires SameItems(a, c)
    ensures HeldIn(a, b) == HeldIn(c, b)
  {
    forall m: nat ensures m in HeldIn(a, b) <==> m in HeldIn(c, b) {
      if m in HeldIn(a, b) {
        var k :| 0 <= k < |a| && a[k].bundle == b && a[k].message == Some(m);
        assert c[k] in c;
      }
      if m in HeldIn(c, b) {
        var k :| 0 <= k < |c| && c[k].bundle == b && c[k].message == Some(m);
        assert a[k] in a;
      }
    }
  }

  // ------------------------------------------------------------------ proposing a discard

  /** The folder may be removed: it is nobody's but the account's own, holds nothing, and what is under it goes too. */
  ghost predicate MayBeRemoved(folders: seq<Folder>, id: nat, ids: seq<nat>)
    requires id < |folders|
  {
    var f := folders[id];
    && !f.row.discarded && !FolderTree.IsInbox(f.row.name) && !f.row.special
    && (forall s <- f.places :: s.generation == f.row.generation ==> f.places[s].gone)
    && forall k: nat :: k < |folders| && !folders[k].row.discarded && f.row.delimiter.Some?
                        && f.row.name + [f.row.delimiter.value] <= folders[k].row.name
         ==> exists g: nat :: g in ids && g < |folders| && folders[g].row.name == folders[k].row.name
  }

  lemma MayGoExactly(folders: seq<Folder>, id: nat, ids: seq<nat>)
    requires id < |folders|
    ensures MayGo(folders, id, Once(ids)) <==> MayBeRemoved(folders, id, ids)
  {
    OnceIsOnce(ids);
    if MayGo(folders, id, Once(ids)) {
      forall k: nat | k < |folders| && !folders[k].row.discarded && IsUnder(folders[k].row.name, folders[id].row)
        ensures exists g: nat :: g in ids && g < |folders| && folders[g].row.name == folders[k].row.name
      {
        assert folders[k] in folders && GoesToo(folders, Once(ids), folders[k].row.name);
        var g: nat :| g in Once(ids) && g < |folders| && folders[g].row.name == folders[k].row.name;
        assert g in ids;
      }
    }
    if MayBeRemoved(folders, id, ids) {
      forall c: Folder | c in folders && !c.row.discarded && IsUnder(c.row.name, folders[id].row)
        ensures GoesToo(folders, Once(ids), c.row.name)
      {
        var k: nat :| k < |folders| && folders[k] == c;
        var g: nat :| g in ids && g < |folders| && folders[g].row.name == folders[k].row.name;
        assert g in Once(ids);
      }
    }
  }

  /** A discard is proposed if and only if it names some folders of the account, not too many, each of which may be
      removed; and it is then one item for each of them, resting on the generation the folder is at. */
  lemma DiscardProposedExactly(w: World, producer: nat, ids: seq<nat>, most: nat, expires: nat)
    ensures var r := Discarding(w, producer, ids, most, expires);
            && (r.Some? <==> 0 < |ids| <= most && forall id: nat :: id in ids ==> id < |w.folders| && MayBeRemoved(w.folders, id, ids))
            && (r.Some? ==>
                  && r.value.folders == w.folders && w.items <= r.value.items
                  && r.value.bundles == w.bundles + [Bundle(producer, Discard, None, expires, BundleProposed, [])]
                  && AsNamed(w, ids, r.value.items[|w.items|..]))
  {
    OnceIsOnce(ids);
    var wanted := Once(ids);
    forall id: nat | id in ids && id < |w.folders| ensures MayGo(w.folders, id, wanted) <==> MayBeRemoved(w.folders, id, ids) {
      MayGoExactly(w.folders, id, ids);
    }
    assert forall id: nat :: id in wanted <==> id in ids;
    if Discarding(w, producer, ids, most, expires).Some? {
      var more := FolderItems(w.folders, |w.bundles|, wanted);
      assert Discarding(w, producer, ids, most, expires).value.items[|w.items|..] == more;
      NamedIs(w, ids);
    }
  }

  /** One item for each folder named. */
  ghost predicate AsNamed(w: World, ids: seq<nat>, more: seq<Item>) {
    && (forall k :: 0 <= k < |more| ==>
          && more[k].folder in ids && more[k].folder < |w.folders|
          && more[k].bundle == |w.bundles| && more[k].message.None? && more[k].status == Proposed
          && more[k].premise.generation == w.folders[more[k].folder].row.generation)
    && (forall i, j :: 0 <= i < j < |more| ==> more[i].folder != more[j].folder)
    && (forall id: nat :: id in ids ==> exists k :: 0 <= k < |more| && more[k].folder == id)
  }

  lemma NamedIs(w: World, ids: seq<nat>)
    requires forall id: nat :: id in ids ==> id < |w.folders|
    ensures (forall id <- Once(ids) :: id < |w.folders|) && AsNamed(w, ids, FolderItems(w.folders, |w.bundles|, Once(ids)))
  {
    OnceIsOnce(ids);
    var wanted := Once(ids);
    var more := FolderItems(w.folders, |w.bundles|, wanted);
    forall k | 0 <= k < |more| ensures more[k].folder == wanted[k] && wanted[k] in wanted {}
    forall id: nat | id in ids ensures exists k :: 0 <= k < |more| && more[k].folder == id {
      var k :| 0 <= k < |wanted| && wanted[k] == id;
      assert more[k].folder == id;
    }
  }
}
