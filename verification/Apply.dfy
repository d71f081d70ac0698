/** Applying an accepted bundle, one committed item at a time: `imap/apply.py`, on a mailbox that nobody
    else touches meanwhile. */
module Apply {
  import opened Common
  import opened Sync
  import opened Freshness
  import opened Review
  import opened Client
  import FolderTree
  import Mailbox

  // ------------------------------------------------------------------ the server

  /** `noselect` are names that are listed and cannot be opened; `makes` is what CREATE answers with, for the
      names it does not refuse; `refusesParents` is one of the two ways section 6.3.4 of RFC 3501 leaves a
      server to treat DELETE of a folder with folders under it; `deleted` is every DELETE that was done.  In a
      folder of `fixed` STORE and MOVE are answered NO: the account may read it and not change its messages. */
  datatype Server = Server(boxes: map<string, Mailbox.Box>, noselect: set<string>, fixed: set<string>, blank: Mailbox.Box,
                           canMove: bool, counts: bool, delimiter: Option<char>, refusesParents: bool,
                           makes: map<string, Listed>, deleted: seq<string>)

  datatype Outcome = Changed | Declined | Failed

  datatype Answer = Answer(server: Server, outcome: Outcome)

  predicate Lists(s: Server, name: string) { name in s.boxes || name in s.noselect }

  predicate Under(name: string, above: string, delimiter: Option<char>) {
    delimiter.Some? && above + [delimiter.value] <= name
  }

  predicate HasUnder(s: Server, above: string, delimiter: Option<char>) {
    exists name <- s.boxes.Keys + s.noselect :: Under(name, above, delimiter)
  }

  function WithBox(s: Server, name: string, box: Mailbox.Box): Server { s.(boxes := s.boxes[name := box]) }

  /** `store_flags`. */
  function StoreFlags(s: Server, name: string, uid: nat, operation: Operation, since: Option<nat>): Answer {
    if name !in s.boxes then Answer(s, Failed)
    else if StoreDeclined(s.boxes[name], uid, since) || name in s.fixed then Answer(s, Declined)
    else Answer(WithBox(s, name, Stored(s.boxes[name], uid, operation, s.counts)), Changed)
  }

  function Arrived(s: Server, name: string, mail: Mailbox.Mail): Server
    requires name in s.boxes
  {
    WithBox(s, name, Mailbox.Step(s.boxes[name], Mailbox.Deliver(mail.key, mail.flags)))
  }

  /** `move`: where there is no MOVE, a COPY that succeeds is not taken back when the mark after it is answered NO. */
  function MoveMessage(s: Server, name: string, uid: nat, target: string, since: Option<nat>): Answer {
    if name !in s.boxes then Answer(s, Failed)
    else if MoveDeclined(s.boxes[name], uid, since) || target !in s.boxes || (s.canMove && name in s.fixed) then Answer(s, Declined)
    else if uid !in s.boxes[name].mail then Answer(s, if name in s.fixed then Declined else Changed)
    else
      var copied := Arrived(s, target, s.boxes[name].mail[uid]);
      if name in s.fixed then Answer(copied, Declined)
      else
        var box := copied.boxes[name];
        Answer(WithBox(copied, name, if s.canMove then MovedOut(box, uid) else MarkedDeleted(box, uid, s.counts)), Changed)
  }

  /** `delete_container`. */
  function DeleteFolder(s: Server, name: string): Answer {
    if !Lists(s, name) || (s.refusesParents && HasUnder(s, name, s.delimiter)) then Answer(s, Failed)
    else Answer(s.(boxes := s.boxes - {name}, noselect := s.noselect - {name}, deleted := s.deleted + [name]), Changed)
  }

  /** `_discard`. */
  function DiscardFolder(s: Server, row: Container): Answer {
    if !row.made then Answer(s, Changed)
    else if row.name !in s.boxes then Answer(s, Declined)
    else if |s.boxes[row.name].mail| > 0 || HasUnder(s, row.name, row.delimiter) then Answer(s, Declined)
    else DeleteFolder(s, row.name)
  }

  // ------------------------------------------------------------------ one item

  datatype State = State(rows: World, server: Server)

  function NameOf(folders: seq<Folder>, folder: Option<nat>): Option<string> {
    if folder.Some? && folder.value < |folders| then Some(folders[folder.value].row.name) else None
  }

  /** `_perform`. */
  function Perform(st: State, item: Item, bundle: Bundle, trash: Option<string>): Answer
    requires item.folder < |st.rows.folders|
  {
    var row := st.rows.folders[item.folder].row;
    var target := NameOf(st.rows.folders, bundle.target);
    match bundle.operation
    case Discard => DiscardFolder(st.server, row)
    case Delete =>
      if trash.None? then Answer(st.server, Failed)
      else MoveMessage(st.server, row.name, item.premise.uid, trash.value, item.premise.modseq)
    case Move =>
      if target.None? then Answer(st.server, Failed)
      else MoveMessage(st.server, row.name, item.premise.uid, target.value, item.premise.modseq)
    case _ => StoreFlags(st.server, row.name, item.premise.uid, bundle.operation, item.premise.modseq)
  }

  /** What a run has got to: the state last committed, how many items are behind it, and whether it had to give up. */
  datatype Progress = Progress(state: State, done: nat, failed: bool)

  predicate Waiting(rows: World, b: nat, id: nat) {
    1 <= id <= |rows.items| && rows.items[id - 1].bundle == b && rows.items[id - 1].status == Accepted
  }

  /** The folder of a message looked at without a mod-sequence. */
  predicate LooksGone(s: Server, name: string, item: Item) {
    item.message.Some? && item.premise.modseq.None? && name in s.boxes && LooksChanged(s.boxes[name], item.premise)
  }

  predicate CannotLook(s: Server, name: string, item: Item) {
    item.message.Some? && item.premise.modseq.None? && name !in s.boxes
  }

  /** `_apply_one` and the checkpoint after it; an unreachable mailbox leaves everything as it was. */
  function ApplyItem(st: State, b: nat, id: nat, trash: Option<string>): (one: Progress)
    requires b < |st.rows.bundles| && Waiting(st.rows, b, id)
    ensures one.failed ==> one == Progress(st, 0, true)
    ensures !one.failed ==> one.done == 1 && one.state.rows.bundles == st.rows.bundles
  {
    var item := st.rows.items[id - 1];
    if !StillHolds(st.rows.folders, item) then Progress(st.(rows := ApplyingOne(st.rows, id, false)), 1, false)
    else
      var name := st.rows.folders[item.folder].row.name;
      if CannotLook(st.server, name, item) then Progress(st, 0, true)
      else if LooksGone(st.server, name, item) then Progress(st.(rows := ApplyingOne(st.rows, id, false)), 1, false)
      else
        var answer := Perform(st, item, st.rows.bundles[b], trash);
        if answer.outcome == Failed then Progress(st, 0, true)
        else Progress(State(ApplyingOne(st.rows, id, answer.outcome == Changed), answer.server), 1, false)
  }

  // ------------------------------------------------------------------ the order

  datatype Key = Key(levels: nat, name: string)

  function KeyOf(rows: World, b: nat, item: Item): Key
    requires b < |rows.bundles|
  {
    if rows.bundles[b].operation != Discard || item.folder >= |rows.folders| then Key(0, "")
    else
      var row := rows.folders[item.folder].row;
      Key(if row.delimiter.Some? then Count(row.name, row.delimiter.value) else 0, row.name)
  }

  function KeysOf(rows: World, b: nat): seq<Key>
    requires b < |rows.bundles|
  {
    seq(|rows.items|, i requires 0 <= i < |rows.items| => KeyOf(rows, b, rows.items[i]))
  }

  predicate KeyBefore(x: Key, y: Key) {
    x.levels > y.levels || (x.levels == y.levels && x.name != y.name && FolderTree.StringLeq(x.name, y.name))
  }

  /** Deepest first, then by name; what is alike stays as it stands. */
  predicate Before(keys: seq<Key>, i: nat, j: nat)
    requires 1 <= i <= |keys| && 1 <= j <= |keys|
  {
    KeyBefore(keys[i - 1], keys[j - 1]) || (keys[i - 1] == keys[j - 1] && i < j)
  }

  predicate Ids(keys: seq<Key>, ids: seq<nat>) { forall i :: 0 <= i < |ids| ==> 1 <= ids[i] <= |keys| }

  function Insert(keys: seq<Key>, id: nat, sorted: seq<nat>): (r: seq<nat>)
    requires 1 <= id <= |keys| && Ids(keys, sorted)
    ensures Ids(keys, r) && forall k: nat :: k in r <==> k == id || k in sorted
  {
    if sorted == [] then [id]
    else if Before(keys, id, sorted[0]) then [id] + sorted
    else
      var rest := Insert(keys, id, sorted[1..]);
      assert sorted == [sorted[0]] + sorted[1..];
      [sorted[0]] + rest
  }

  /** The accepted items among the first `n`. */
  function Ordered(rows: World, b: nat, n: nat): (ids: seq<nat>)
    requires b < |rows.bundles| && n <= |rows.items|
    ensures Ids(KeysOf(rows, b), ids) && forall id: nat :: id in ids <==> id <= n && Waiting(rows, b, id)
  {
    if n == 0 then []
    else if Waiting(rows, b, n) then Insert(KeysOf(rows, b), n, Ordered(rows, b, n - 1))
    else Ordered(rows, b, n - 1)
  }

  /** `_in_order`. */
  function InOrder(rows: World, b: nat): (ids: seq<nat>)
    requires b < |rows.bundles|
    ensures Ids(KeysOf(rows, b), ids) && forall id: nat :: id in ids <==> Waiting(rows, b, id)
  {
    Ordered(rows, b, |rows.items|)
  }

  // ------------------------------------------------------------------ a run

  /** `_ensure_target_exists` and its checkpoint. */
  function EnsureTarget(st: State, b: nat): Progress
    requires b < |st.rows.bundles|
  {
    var target := st.rows.bundles[b].target;
    if target.None? || target.value >= |st.rows.folders| || st.rows.folders[target.value].row.made then Progress(st, 0, false)
    else
      var name := st.rows.folders[target.value].row.name;
      if name !in st.server.makes then Progress(st, 0, true)
      else
        var info := st.server.makes[name];
        var server := if Lists(st.server, info.name) then st.server else WithBox(st.server, info.name, st.server.blank);
        Progress(State(TargetMade(st.rows, target.value, info.name, info.delimiter, info.special), server), 0, false)
  }

  /** The items one after another, up to the first that cannot be reached. */
  function ApplyAll(st: State, b: nat, ids: seq<nat>, trash: Option<string>): (run: Progress)
    requires b < |st.rows.bundles|
    ensures run.state.rows.bundles == st.rows.bundles && run.done <= |ids|
    decreases |ids|
  {
    if ids == [] || !Waiting(st.rows, b, ids[0]) then Progress(st, 0, false)
    else
      var one := ApplyItem(st, b, ids[0], trash);
      if one.failed then one
      else
        var rest := ApplyAll(one.state, b, ids[1..], trash);
        rest.(done := rest.done + 1)
  }

  predicate Appliable(st: State, b: nat) { b < |st.rows.bundles| && st.rows.bundles[b].status == BundleAccepted }

  /** A run cut off when `k` items were behind it: asked to stop, or crashed after their checkpoints. */
  function CutOff(st: State, b: nat, k: nat, trash: Option<string>): State {
    if !Appliable(st, b) then st
    else
      var ids := InOrder(st.rows, b);
      if ids == [] then st
      else
        var ensured := EnsureTarget(st, b);
        if ensured.failed then st
        else ApplyAll(ensured.state, b, if k < |ids| then ids[..k] else ids, trash).state
  }

  /** `apply_bundle`, run to its end. */
  function Finished(st: State, b: nat, trash: Option<string>): State {
    if !Appliable(st, b) then st
    else
      var ids := InOrder(st.rows, b);
      var ensured := if ids == [] then Progress(st, 0, false) else EnsureTarget(st, b);
      if ensured.failed then st
      else
        var run := ApplyAll(ensured.state, b, ids, trash);
        if run.failed then run.state
        else run.state.(rows := ClosingApply(run.state.rows, b, ids != []))
  }

  /** Cut off any number of times, and then run to the end. */
  function Resumed(st: State, b: nat, cuts: seq<nat>, trash: Option<string>): State
    decreases cuts
  {
    if cuts == [] then Finished(st, b, trash) else Resumed(CutOff(st, b, cuts[0], trash), b, cuts[1..], trash)
  }

  /** Where the last run of them starts. */
  function LastStart(st: State, b: nat, cuts: seq<nat>, trash: Option<string>): State
    decreases cuts
  {
    if cuts == [] then st else LastStart(CutOff(st, b, cuts[0], trash), b, cuts[1..], trash)
  }
}
