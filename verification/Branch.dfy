/** Discarding a whole branch of folders: `_in_order` and `_discard` of `imap/apply.py`, and what
    `propose_discard` lets be proposed. */
module Branch {
  import opened Common
  import opened Sync
  import opened Freshness
  import opened Review
  import opened Apply
  import opened Resume
  import Mailbox

  // ------------------------------------------------------------------ a name below another has more levels

  lemma {:induction false} CountAppend(a: string, b: string, c: char)
    ensures Count(a + b, c) == Count(a, c) + Count(b, c)
  {
    if a == "" {
      assert a + b == b;
    } else {
      assert (a + b)[1..] == a[1..] + b;
      CountAppend(a[1..], b, c);
    }
  }

  lemma UnderIsDeeper(name: string, above: string, c: char)
    requires Under(name, above, Some(c))
    ensures Count(name, c) > Count(above, c)
  {
    var rest := name[|above| + 1..];
    assert name == above + ([c] + rest);
    CountAppend(above, [c] + rest, c);
    assert ([c] + rest)[0] == c;
  }

  // ------------------------------------------------------------------ what has to be so

  /** Folders are told apart by name, and the cache knows the server's. */
  ghost predicate CacheMatches(st: State) {
    var folders := st.rows.folders;
    && (forall i, j :: 0 <= i < j < |folders| ==> folders[i].row.name != folders[j].row.name)
    && (forall i :: 0 <= i < |folders| && folders[i].row.made ==>
          !folders[i].row.discarded && folders[i].row.delimiter == st.server.delimiter && Lists(st.server, folders[i].row.name))
    && (forall name :: Lists(st.server, name) ==> exists i :: 0 <= i < |folders| && folders[i].row.made && folders[i].row.name == name)
  }

  /** The item is about a folder that is as it was proposed, and can be opened and is empty on the server. */
  predicate Removable(st: State, id: nat)
    requires 1 <= id <= |st.rows.items|
  {
    var item := st.rows.items[id - 1];
    && item.message.None? && StillHolds(st.rows.folders, item)
    && var row := st.rows.folders[item.folder].row;
    (row.made ==> row.name in st.server.boxes && st.server.boxes[row.name].mail == map[])
  }

  predicate Accepts(rows: World, b: nat, folder: nat) {
    exists i: Item <- rows.items :: i.bundle == b && i.status == Accepted && i.folder == folder
  }

  /** Every item is about a folder of its own, and what is under one of them goes too. */
  ghost predicate WholeBranch(st: State, b: nat) {
    && (forall i, j :: 1 <= i < j && Waiting(st.rows, b, i) && Waiting(st.rows, b, j) ==>
          st.rows.items[i - 1].folder != st.rows.items[j - 1].folder)
    && (forall id: nat, k: nat :: Waiting(st.rows, b, id) && Above(st, id, k) && st.rows.folders[k].row.made ==> Accepts(st.rows, b, k))
  }

  /** The k-th folder is under the one the item is about. */
  predicate Above(st: State, id: nat, k: nat) {
    && 1 <= id <= |st.rows.items| && k < |st.rows.folders| && st.rows.items[id - 1].folder < |st.rows.folders|
    && Under(st.rows.folders[k].row.name, st.rows.folders[st.rows.items[id - 1].folder].row.name, st.server.delimiter)
  }

  ghost predicate Ready(st: State, b: nat) {
    && Appliable(st, b) && st.rows.bundles[b].operation == Discard && st.rows.bundles[b].target.None?
    && CacheMatches(st) && WholeBranch(st, b)
    && forall id: nat :: Waiting(st.rows, b, id) ==> Removable(st, id)
  }

  function RowOf(st: State, id: nat): Container
    requires 1 <= id <= |st.rows.items| && st.rows.items[id - 1].folder < |st.rows.folders|
  {
    st.rows.folders[st.rows.items[id - 1].folder].row
  }

  // ------------------------------------------------------------------ the next one has nothing under it

  lemma AcceptedIsWaiting(rows: World, b: nat, folder: nat) returns (id: nat)
    requires Accepts(rows, b, folder)
    ensures Waiting(rows, b, id) && rows.items[id - 1].folder == folder
  {
    var item: Item :| item in rows.items && item.bundle == b && item.status == Accepted && item.folder == folder;
    var i :| 0 <= i < |rows.items| && rows.items[i] == item;
    id := i + 1;
  }

  lemma HeadComesFirst(rows: World, b: nat, id: nat)
    requires b < |rows.bundles| && InOrder(rows, b) != [] && Waiting(rows, b, id) && id != InOrder(rows, b)[0]
    ensures var head := InOrder(rows, b)[0]; Before(KeysOf(rows, b), head, id)
  {
    OrderedIsSorted(rows, b, |rows.items|);
    var ids := InOrder(rows, b);
    assert id in ids && ids == [ids[0]] + ids[1..];
  }

  lemma DeeperIsBefore(st: State, b: nat, id: nat, other: nat)
    requires Appliable(st, b) && st.rows.bundles[b].operation == Discard
    requires Waiting(st.rows, b, id) && Waiting(st.rows, b, other) && Removable(st, id) && Removable(st, other)
    requires RowOf(st, id).delimiter == RowOf(st, other).delimiter
    requires Under(RowOf(st, other).name, RowOf(st, id).name, RowOf(st, id).delimiter)
    ensures var keys := KeysOf(st.rows, b); KeyBefore(keys[other - 1], keys[id - 1]) && !Before(keys, id, other)
  {
    var keys := KeysOf(st.rows, b);
    UnderIsDeeper(RowOf(st, other).name, RowOf(st, id).name, RowOf(st, id).delimiter.value);
    KeyBeforeOneWay(keys[other - 1], keys[id - 1]);
  }

  /** Whatever is under it would have come before it. */
  lemma NothingUnderTheNext(st: State, b: nat)
    requires Ready(st, b) && InOrder(st.rows, b) != []
    ensures var head := InOrder(st.rows, b)[0];
            Waiting(st.rows, b, head) && Removable(st, head) &&
            (RowOf(st, head).made ==> !HasUnder(st.server, RowOf(st, head).name, st.server.delimiter))
  {
    var head := InOrder(st.rows, b)[0];
    assert head in InOrder(st.rows, b);
    var row := RowOf(st, head);
    forall name | row.made && name in st.server.boxes.Keys + st.server.noselect ensures !Under(name, row.name, st.server.delimiter) {
      if Under(name, row.name, st.server.delimiter) {
        assert Lists(st.server, name);
        var k :| 0 <= k < |st.rows.folders| && st.rows.folders[k].row.made && st.rows.folders[k].row.name == name;
        assert Above(st, head, k);
        var id := AcceptedIsWaiting(st.rows, b, k);
        assert id != head;
        DeeperIsBefore(st, b, head, id);
        HeadComesFirst(st.rows, b, id);
        assert false;
      }
    }
  }

  // ------------------------------------------------------------------ one folder goes

  function Gone(s: Server, row: Container): Server {
    if row.made then s.(boxes := s.boxes - {row.name}, noselect := s.noselect - {row.name}, deleted := s.deleted + [row.name]) else s
  }

  lemma NextGoes(st: State, b: nat, trash: Option<string>)
    requires Ready(st, b) && InOrder(st.rows, b) != []
    ensures var head := InOrder(st.rows, b)[0];
            Waiting(st.rows, b, head) && Removable(st, head) &&
            ApplyItem(st, b, head, trash) == Progress(State(ApplyingOne(st.rows, head, true), Gone(st.server, RowOf(st, head))), 1, false)
  {
    NothingUnderTheNext(st, b);
  }

  lemma MatchesAfter(st: State, b: nat, id: nat)
    requires CacheMatches(st) && Appliable(st, b) && st.rows.bundles[b].operation == Discard
    requires Waiting(st.rows, b, id) && Removable(st, id)
    ensures CacheMatches(State(ApplyingOne(st.rows, id, true), Gone(st.server, RowOf(st, id))))
  {
    var row, at := RowOf(st, id), st.rows.items[id - 1].folder;
    var v := State(ApplyingOne(st.rows, id, true), Gone(st.server, row));
    forall name | Lists(v.server, name)
      ensures exists i :: 0 <= i < |v.rows.folders| && v.rows.folders[i].row.made && v.rows.folders[i].row.name == name
    {
      assert Lists(st.server, name);
      var i :| 0 <= i < |st.rows.folders| && st.rows.folders[i].row.made && st.rows.folders[i].row.name == name;
      assert v.rows.folders[i].row.made && v.rows.folders[i].row.name == name;
    }
  }

  lemma WholeAfter(st: State, b: nat, id: nat)
    requires WholeBranch(st, b) && Appliable(st, b) && st.rows.bundles[b].operation == Discard
    requires Waiting(st.rows, b, id) && Removable(st, id)
    ensures WholeBranch(State(ApplyingOne(st.rows, id, true), Gone(st.server, RowOf(st, id))), b)
  {
    var v := State(ApplyingOne(st.rows, id, true), Gone(st.server, RowOf(st, id)));
    forall i: nat, k: nat | Waiting(v.rows, b, i) && Above(v, i, k) && v.rows.folders[k].row.made
      ensures Accepts(v.rows, b, k)
    {
      assert Waiting(st.rows, b, i) && Above(st, i, k);
      var j := AcceptedIsWaiting(st.rows, b, k);
      assert v.rows.items[j - 1] in v.rows.items;
    }
    forall i, j | 1 <= i < j && Waiting(v.rows, b, i) && Waiting(v.rows, b, j)
      ensures v.rows.items[i - 1].folder != v.rows.items[j - 1].folder
    {
      assert Waiting(st.rows, b, i) && Waiting(st.rows, b, j);
    }
  }

  lemma RemovableAfter(st: State, b: nat, id: nat, other: nat)
    requires Ready(st, b) && Waiting(st.rows, b, id) && Waiting(st.rows, b, other) && id != other
    ensures Removable(State(ApplyingOne(st.rows, id, true), Gone(st.server, RowOf(st, id))), other)
  {
    assert Removable(st, id) && Removable(st, other);
    assert st.rows.items[id - 1].folder != st.rows.items[other - 1].folder;
    assert RowOf(st, id).name != RowOf(st, other).name;
  }

  lemma ReadyAfter(st: State, b: nat, id: nat)
    requires Ready(st, b) && Waiting(st.rows, b, id)
    ensures Ready(State(ApplyingOne(st.rows, id, true), Gone(st.server, RowOf(st, id))), b)
  {
    MatchesAfter(st, b, id);
    WholeAfter(st, b, id);
    var v := State(ApplyingOne(st.rows, id, true), Gone(st.server, RowOf(st, id)));
    forall other: nat | Waiting(v.rows, b, other) ensures Removable(v, other) {
      RemovableAfter(st, b, id, other);
    }
  }

  // ------------------------------------------------------------------ the whole branch goes

  predicate AllWaiting(rows: World, b: nat, ids: seq<nat>) { forall k :: 0 <= k < |ids| ==> Waiting(rows, b, ids[k]) }

  predicate AllPlaced(rows: World, ids: seq<nat>) {
    forall k :: 0 <= k < |ids| ==> 1 <= ids[k] <= |rows.items| && rows.items[ids[k] - 1].folder < |rows.folders|
  }

  /** The names of those folders that there are on the server. */
  function MadeNames(rows: World, ids: seq<nat>): seq<string>
    requires AllPlaced(rows, ids)
  {
    if ids == [] then []
    else
      var row := rows.folders[rows.items[ids[0] - 1].folder].row;
      (if row.made then [row.name] else []) + MadeNames(rows, ids[1..])
  }

  lemma {:induction false} MadeNamesSame(a: World, c: World, ids: seq<nat>)
    requires AllPlaced(a, ids) && AllPlaced(c, ids)
    requires forall k :: 0 <= k < |ids| ==> a.folders[a.items[ids[k] - 1].folder].row == c.folders[c.items[ids[k] - 1].folder].row
    ensures MadeNames(a, ids) == MadeNames(c, ids)
    decreases |ids|
  {
    if ids != [] {
      MadeNamesSame(a, c, ids[1..]);
    }
  }

  function Without(s: Server, names: seq<string>): Server {
    s.(boxes := (map n | n in s.boxes && n !in names :: s.boxes[n]),
       noselect := (set n | n in s.noselect && n !in names),
       deleted := s.deleted + names)
  }

  lemma WithoutMore(s: Server, row: Container, names: seq<string>)
    ensures Without(Gone(s, row), names) == Without(s, (if row.made then [row.name] else []) + names)
  {
    var more := (if row.made then [row.name] else []) + names;
    assert forall n :: n in more <==> (row.made && n == row.name) || n in names;
    var x, y := Without(Gone(s, row), names), Without(s, more);
    assert x.boxes == y.boxes;
    assert x.noselect == y.noselect;
    assert x.deleted == y.deleted;
  }

  /** The folder about to be deleted, if it is to be deleted at all, is empty and has nothing listed under it. */
  predicate SafeToDelete(st: State, b: nat, id: nat) {
    && Waiting(st.rows, b, id) && Removable(st, id)
    && (RowOf(st, id).made ==> !HasUnder(st.server, RowOf(st, id).name, st.server.delimiter))
  }

  predicate ItemsApplied(a: seq<Item>, c: seq<Item>, b: nat) {
    |a| == |c| && forall i :: 0 <= i < |a| ==>
      c[i] == if a[i].bundle == b && a[i].status == Accepted then a[i].(status := Applied) else a[i]
  }

  lemma ReadyIsPlaced(st: State, b: nat)
    requires Ready(st, b)
    ensures AllWaiting(st.rows, b, InOrder(st.rows, b)) && AllPlaced(st.rows, InOrder(st.rows, b))
  {
    var ids := InOrder(st.rows, b);
    forall k | 0 <= k < |ids| ensures Waiting(st.rows, b, ids[k]) && st.rows.items[ids[k] - 1].folder < |st.rows.folders| {
      assert ids[k] in ids && Removable(st, ids[k]);
    }
  }

  /** One folder further. */
  lemma Onwards(st: State, b: nat, trash: Option<string>)
    requires Ready(st, b) && InOrder(st.rows, b) != []
    ensures var ids := InOrder(st.rows, b);
            && SafeToDelete(st, b, ids[0])
            && var one := ApplyItem(st, b, ids[0], trash);
            && !one.failed && one.done == 1 && Ready(one.state, b) && InOrder(one.state.rows, b) == ids[1..]
            && one.state.server == Gone(st.server, RowOf(st, ids[0]))
            && one.state.rows == ApplyingOne(st.rows, ids[0], true)
  {
    NothingUnderTheNext(st, b);
    NextGoes(st, b, trash);
    ReadyAfter(st, b, InOrder(st.rows, b)[0]);
    OneLeaves(st, b, trash);
  }

  /** The rows of the other folders are as they were. */
  lemma RowsAfter(st: State, b: nat, id: nat, more: seq<nat>)
    requires Ready(st, b) && Waiting(st.rows, b, id) && AllWaiting(st.rows, b, more) && id !in more
    ensures AllPlaced(st.rows, more) && AllPlaced(ApplyingOne(st.rows, id, true), more)
    ensures MadeNames(ApplyingOne(st.rows, id, true), more) == MadeNames(st.rows, more)
  {
    var v := ApplyingOne(st.rows, id, true);
    assert Removable(st, id);
    forall k | 0 <= k < |more|
      ensures st.rows.items[more[k] - 1].folder < |st.rows.folders|
      ensures v.items[more[k] - 1] == st.rows.items[more[k] - 1]
      ensures v.folders[v.items[more[k] - 1].folder] == st.rows.folders[st.rows.items[more[k] - 1].folder]
    {
      assert more[k] in more && Waiting(st.rows, b, more[k]) && Removable(st, more[k]);
      assert st.rows.items[more[k] - 1].folder != st.rows.items[id - 1].folder;
    }
    MadeNamesSame(st.rows, v, more);
  }

  lemma HeadAndRest(st: State, b: nat)
    requires Ready(st, b) && InOrder(st.rows, b) != []
    ensures var ids := InOrder(st.rows, b);
            Waiting(st.rows, b, ids[0]) && AllWaiting(st.rows, b, ids[1..]) && ids[0] !in ids[1..]
  {
    ReadyIsPlaced(st, b);
    OrderedIsSorted(st.rows, b, |st.rows.items|);
  }

  /** All of them go, and nothing else does. */
  ghost predicate AllGo(st: State, b: nat, ids: seq<nat>, run: Progress) {
    && AllPlaced(st.rows, ids) && !run.failed
    && ItemsApplied(st.rows.items, run.state.rows.items, b)
    && run.state.server == Without(st.server, MadeNames(st.rows, ids))
  }

  lemma NoneGo(st: State, b: nat)
    requires Ready(st, b) && InOrder(st.rows, b) == []
    ensures AllGo(st, b, [], Progress(st, 0, false))
  {
    WhatWaits(st.rows, b);
    assert Without(st.server, []) == st.server;
  }

  lemma ItemsAfter(items: seq<Item>, b: nat, id: nat, end: seq<Item>)
    requires 1 <= id <= |items| && items[id - 1].bundle == b && items[id - 1].status == Accepted
    requires ItemsApplied(items[id - 1 := items[id - 1].(status := Applied)], end, b)
    ensures ItemsApplied(items, end, b)
  {}

  lemma OneMoreGoes(st: State, v: State, b: nat, ids: seq<nat>, rest: Progress, run: Progress)
    requires Ready(st, b) && ids == InOrder(st.rows, b) && ids != []
    requires Waiting(st.rows, b, ids[0]) && Removable(st, ids[0])
    requires v == State(ApplyingOne(st.rows, ids[0], true), Gone(st.server, RowOf(st, ids[0])))
    requires AllGo(v, b, ids[1..], rest) && run.state == rest.state && run.failed == rest.failed
    ensures AllGo(st, b, ids, run)
  {
    HeadAndRest(st, b);
    ReadyIsPlaced(st, b);
    RowsAfter(st, b, ids[0], ids[1..]);
    ItemsAfter(st.rows.items, b, ids[0], rest.state.rows.items);
    WithoutMore(st.server, RowOf(st, ids[0]), MadeNames(v.rows, ids[1..]));
  }

  lemma {:induction false} BranchGoes(st: State, b: nat, ids: seq<nat>, trash: Option<string>)
    requires Ready(st, b) && ids == InOrder(st.rows, b)
    ensures AllGo(st, b, ids, ApplyAll(st, b, ids, trash))
    decreases |ids|
  {
    if ids == [] {
      NoneGo(st, b);
    } else {
      Onwards(st, b, trash);
      var one := ApplyItem(st, b, ids[0], trash);
      BranchGoes(one.state, b, ids[1..], trash);
      OneMoreGoes(st, one.state, b, ids, ApplyAll(one.state, b, ids[1..], trash), ApplyAll(st, b, ids, trash));
    }
  }

  lemma TailsAgree(ids: seq<nat>, k: nat)
    requires 0 < k < |ids|
    ensures ids[..k][1..] == ids[1..][..k - 1] && ids[1..][k - 1] == ids[k] && ids[..k][0] == ids[0]
  {}

  /** At every step of it. */
  lemma {:induction false} BranchIsSafe(st: State, b: nat, ids: seq<nat>, k: nat, trash: Option<string>)
    requires Ready(st, b) && ids == InOrder(st.rows, b) && k < |ids|
    ensures SafeToDelete(ApplyAll(st, b, ids[..k], trash).state, b, ids[k])
    decreases k
  {
    Onwards(st, b, trash);
    if k > 0 {
      TailsAgree(ids, k);
      BranchIsSafe(ApplyItem(st, b, ids[0], trash).state, b, ids[1..], k - 1, trash);
    }
  }

  /** Each child before its parent. */
  lemma ChildrenFirst(st: State, b: nat, i: nat, j: nat)
    requires Ready(st, b) && i < j < |InOrder(st.rows, b)|
    ensures var ids := InOrder(st.rows, b);
            && Waiting(st.rows, b, ids[i]) && Removable(st, ids[i]) && Waiting(st.rows, b, ids[j]) && Removable(st, ids[j])
            && (RowOf(st, ids[i]).made && RowOf(st, ids[j]).made ==>
                  !Under(RowOf(st, ids[j]).name, RowOf(st, ids[i]).name, st.server.delimiter))
  {
    var ids := InOrder(st.rows, b);
    assert ids[i] in ids && ids[j] in ids;
    OrderedIsSorted(st.rows, b, |st.rows.items|);
    if RowOf(st, ids[i]).made && RowOf(st, ids[j]).made && Under(RowOf(st, ids[j]).name, RowOf(st, ids[i]).name, st.server.delimiter) {
      DeeperIsBefore(st, b, ids[i], ids[j]);
      assert false;
    }
  }

  /** Folders go deepest first, by the separators in their names, and those alike in depth by name. */
  lemma DeepestFirst(st: State, b: nat, i: nat, j: nat)
    requires Appliable(st, b) && st.rows.bundles[b].operation == Discard && i < j < |InOrder(st.rows, b)|
    requires forall id: nat :: Waiting(st.rows, b, id) ==> st.rows.items[id - 1].folder < |st.rows.folders|
    ensures var ids := InOrder(st.rows, b);
            && Waiting(st.rows, b, ids[i]) && Waiting(st.rows, b, ids[j])
            && var one, other := RowOf(st, ids[i]), RowOf(st, ids[j]);
            var levels, others := FolderTree.DepthOf(one.name, one.delimiter), FolderTree.DepthOf(other.name, other.delimiter);
            levels > others || (levels == others && (one.name == other.name || ComesBefore(one.name, other.name)))
  {
    var ids, keys := InOrder(st.rows, b), KeysOf(st.rows, b);
    assert ids[i] in ids && ids[j] in ids;
    OrderedIsSorted(st.rows, b, |st.rows.items|);
    assert Before(keys, ids[i], ids[j]);
    LeqComesBefore(RowOf(st, ids[i]).name, RowOf(st, ids[j]).name);
  }

  /** The two agree up to `k`, where the first ends and the other goes on, or has the lesser character. */
  predicate ComesBeforeAt(a: string, c: string, k: nat) {
    && k <= |a| && k < |c| && (forall i :: 0 <= i < k ==> a[i] == c[i])
    && (k < |a| ==> a[k] < c[k])
  }

  ghost predicate ComesBefore(a: string, c: string) { exists k: nat :: ComesBeforeAt(a, c, k) }

  lemma ComesBeforeNext(a: string, c: string)
    requires a != "" && c != ""
    ensures ComesBefore(a, c) <==> a[0] < c[0] || (a[0] == c[0] && ComesBefore(a[1..], c[1..]))
  {
    if ComesBefore(a, c) {
      var k: nat :| ComesBeforeAt(a, c, k);
      if k > 0 {
        assert a[0] == c[0] && ComesBeforeAt(a[1..], c[1..], k - 1);
      }
    }
    if a[0] < c[0] {
      assert ComesBeforeAt(a, c, 0);
    }
    if a[0] == c[0] && ComesBefore(a[1..], c[1..]) {
      var k: nat :| ComesBeforeAt(a[1..], c[1..], k);
      assert ComesBeforeAt(a, c, k + 1);
    }
  }

  lemma {:induction false} LeqComesBefore(a: string, c: string)
    ensures FolderTree.StringLeq(a, c) <==> a == c || ComesBefore(a, c)
    decreases |a|
  {
    if a == "" {
      assert c != "" ==> ComesBeforeAt(a, c, 0);
    } else if c != "" {
      LeqComesBefore(a[1..], c[1..]);
      ComesBeforeNext(a, c);
      assert a == [a[0]] + a[1..] && c == [c[0]] + c[1..];
    }
  }

  /** A bundle that holds a whole branch of empty folders takes all of it away, however the server treats a
      folder with folders under it: it is never asked to delete one, nor one with mail in it. */
  lemma WholeBranchIsDiscarded(st: State, b: nat, trash: Option<string>)
    requires Ready(st, b)
    ensures var ids := InOrder(st.rows, b);
            && AllPlaced(st.rows, ids)
            && var u := Finished(st, b, trash);
            && ItemsApplied(st.rows.items, u.rows.items, b)
            && u.server == Without(st.server, MadeNames(st.rows, ids))
            && (ids != [] && !HasItem(st.rows.items, b, Stale) ==> u.rows.bundles[b].status == BundleApplied)
            && forall k :: 0 <= k < |ids| ==> SafeToDelete(ApplyAll(st, b, ids[..k], trash).state, b, ids[k])
  {
    BranchGoes(st, b, InOrder(st.rows, b), trash);
    forall k | 0 <= k < |InOrder(st.rows, b)|
      ensures SafeToDelete(ApplyAll(st, b, InOrder(st.rows, b)[..k], trash).state, b, InOrder(st.rows, b)[k])
    {
      BranchIsSafe(st, b, InOrder(st.rows, b), k, trash);
    }
    FinishedIsRolledUp(st, b, trash);
    var u := Finished(st, b, trash);
    NoneOf(st.rows.items, u.rows.items, b);
  }

  lemma NoneOf(a: seq<Item>, c: seq<Item>, b: nat)
    requires ItemsApplied(a, c, b)
    ensures !HasItem(c, b, Accepted) && (!HasItem(a, b, Stale) ==> !HasItem(c, b, Stale))
  {
    forall i | 0 <= i < |c| ensures !(c[i].bundle == b && c[i].status == Accepted)
      ensures c[i].bundle == b && c[i].status == Stale ==> a[i] in a && a[i].bundle == b && a[i].status == Stale {}
  }

  // ------------------------------------------------------------------ what may be proposed

  lemma UnderGoesToo(folders: seq<Folder>, wanted: seq<nat>, i: nat, k: nat) returns (at: nat)
    requires (forall id: nat <- wanted :: id < |folders| && MayGo(folders, id, wanted))
    requires i < |wanted| && wanted[i] < |folders| && k < |folders| && !folders[k].row.discarded
    requires IsUnder(folders[k].row.name, folders[wanted[i]].row)
    requires forall x, y :: 0 <= x < y < |folders| ==> folders[x].row.name != folders[y].row.name
    ensures at < |wanted| && wanted[at] == k
  {
    assert wanted[i] in wanted && folders[k] in folders;
    var g: nat :| g in wanted && g < |folders| && folders[g].row.name == folders[k].row.name;
    at :| 0 <= at < |wanted| && wanted[at] == g;
  }

  /** A discard that can be proposed holds every folder known to be under one of its own. */
  lemma ProposedBranchIsWhole(w: World, producer: nat, ids: seq<nat>, most: nat, expires: nat, i: nat, k: nat)
    requires Discarding(w, producer, ids, most, expires).Some?
    requires i < |Once(ids)| && k < |w.folders| && !w.folders[k].row.discarded
    requires Once(ids)[i] < |w.folders| && IsUnder(w.folders[k].row.name, w.folders[Once(ids)[i]].row)
    requires forall x, y :: 0 <= x < y < |w.folders| ==> w.folders[x].row.name != w.folders[y].row.name
    ensures var v := Discarding(w, producer, ids, most, expires).value;
            exists item: Item <- v.items :: item.bundle == |w.bundles| && item.status == Proposed && item.folder == k
  {
    var at := UnderGoesToo(w.folders, Once(ids), i, k);
    var v := Discarding(w, producer, ids, most, expires).value;
    assert v.items[|w.items| + at] in v.items;
  }

  // ------------------------------------------------------------------ whatever the cache believes

  /** Nothing is on the server that was not, and what is gone had no mail in it. */
  predicate LosesNothing(a: Server, c: Server) {
    && c.boxes.Keys <= a.boxes.Keys && c.noselect <= a.noselect
    && (forall name <- c.boxes :: c.boxes[name] == a.boxes[name])
    && (forall name <- a.boxes :: name !in c.boxes ==> a.boxes[name].mail == map[])
  }

  /** One folder to be discarded: deleted with nothing in it and nothing under it, or left as it is. */
  lemma DiscardsEmpty(st: State, b: nat, id: nat, trash: Option<string>)
    requires b < |st.rows.bundles| && Waiting(st.rows, b, id) && st.rows.bundles[b].operation == Discard
    ensures var v := ApplyItem(st, b, id, trash).state;
            && LosesNothing(st.server, v.server) && v.rows.bundles == st.rows.bundles
            && (v.server != st.server ==>
                  && st.rows.items[id - 1].folder < |st.rows.folders|
                  && var row := RowOf(st, id);
                  && row.made && row.name in st.server.boxes && st.server.boxes[row.name].mail == map[]
                  && v.server.boxes == st.server.boxes - {row.name}
                  && forall name <- st.server.boxes.Keys + st.server.noselect :: !Under(name, row.name, row.delimiter))
            && (v.rows.items[id - 1].status == Applied ==>
                  && st.rows.items[id - 1].folder < |st.rows.folders|
                  && (RowOf(st, id).made ==> RowOf(st, id).name !in v.server.boxes))
  {}

  lemma {:induction false} AllDiscardEmpty(st: State, b: nat, ids: seq<nat>, trash: Option<string>)
    requires b < |st.rows.bundles| && st.rows.bundles[b].operation == Discard
    ensures LosesNothing(st.server, ApplyAll(st, b, ids, trash).state.server)
    decreases |ids|
  {
    if ids != [] && Waiting(st.rows, b, ids[0]) {
      DiscardsEmpty(st, b, ids[0], trash);
      var one := ApplyItem(st, b, ids[0], trash);
      if !one.failed {
        AllDiscardEmpty(one.state, b, ids[1..], trash);
      }
    }
  }

  /** However old the cache is, and whatever is in the folders by now: a bundle that discards deletes no folder with
      mail in it, and touches no other. */
  lemma DiscardLosesNothing(st: State, b: nat, trash: Option<string>)
    requires Appliable(st, b) && st.rows.bundles[b].operation == Discard && WellMade(st.rows.bundles[b])
    ensures LosesNothing(st.server, Finished(st, b, trash).server)
  {
    AllDiscardEmpty(st, b, InOrder(st.rows, b), trash);
  }
}
