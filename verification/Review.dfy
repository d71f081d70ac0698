/** Making, reviewing and closing bundles: `suggest/model.py`, `refresh_bundle` of `suggest/staleness.py`,
    and what `imap/sync.py` and `imap/apply.py` do to the same rows.  A step is one transaction; a call
    that refuses leaves what its transaction leaves. */
module Review {
  import opened Common
  import opened Mailbox
  import opened Sync
  import opened Freshness
  import FolderTree
  import Search

  // ------------------------------------------------------------------ the rows

  datatype ItemStatus = Proposed | Excluded | Accepted | Applied | Rejected | Withdrawn | Stale | Expired

  datatype BundleStatus =
    | BundleProposed | BundleAccepted | BundleApplied | BundlePartlyApplied
    | BundleRejected | BundleWithdrawn | BundleExpired | BundleStale

  datatype Operation = AddFlag(flag: string) | RemoveFlag(flag: string) | Move | Delete | Discard

  /** A row of the suggestion table.  Rows are only appended: an item's id is its place plus one.  An item
      about a folder names no message, and of its premise only the generation counts. */
  datatype Item = Item(bundle: nat, message: Option<nat>, folder: nat, premise: Premise, status: ItemStatus)

  /** An entry of a bundle's `queries`: `first` and `last` are the span of items it brought. */
  datatype Query = Query(text: string, grew: bool, matched: nat, added: nat, first: nat, last: nat)

  datatype Bundle = Bundle(producer: nat, operation: Operation, target: Option<nat>, expires: nat,
                           status: BundleStatus, queries: seq<Query>)

  datatype World = World(folders: seq<Folder>, items: seq<Item>, bundles: seq<Bundle>)

  predicate Undecided(item: Item) { item.status == Proposed || item.status == Accepted }

  predicate HasItem(items: seq<Item>, b: nat, status: ItemStatus) {
    exists i: Item <- items :: i.bundle == b && i.status == status
  }

  function WithStatus(w: World, b: nat, status: BundleStatus): World
    requires b < |w.bundles|
  {
    w.(bundles := w.bundles[b := w.bundles[b].(status := status)])
  }

  /** Every item of the bundle in one status moved to another. */
  function Marked(items: seq<Item>, b: nat, before: ItemStatus, after: ItemStatus): seq<Item> {
    seq(|items|, i requires 0 <= i < |items| =>
      if items[i].bundle == b && items[i].status == before then items[i].(status := after) else items[i])
  }

  // ------------------------------------------------------------------ staleness

  /** `live_message_count` is nought. */
  predicate HoldsNothing(f: Folder) {
    forall s <- f.places :: s.generation == f.row.generation ==> f.places[s].gone
  }

  /** `check`: what the item assumed of its folder is still so. */
  predicate Holds(f: Folder, item: Item) {
    if item.message.Some? then Check(f, item.premise) == Fresh
    else !f.row.discarded && f.row.generation == item.premise.generation && HoldsNothing(f)
  }

  predicate StillHolds(folders: seq<Folder>, item: Item) {
    item.folder < |folders| && Holds(folders[item.folder], item)
  }

  function Judged(folders: seq<Folder>, item: Item, b: nat): Item {
    if item.bundle == b && Undecided(item) && !StillHolds(folders, item) then item.(status := Stale) else item
  }

  function AllJudged(folders: seq<Folder>, items: seq<Item>, b: nat): seq<Item> {
    seq(|items|, i requires 0 <= i < |items| => Judged(folders, items[i], b))
  }

  predicate Emptied(items: seq<Item>, b: nat) {
    HasItem(items, b, Stale) && !HasItem(items, b, Proposed) && !HasItem(items, b, Accepted)
  }

  /** `refresh_bundle`. */
  function Refreshed(w: World, b: nat): World
    requires b < |w.bundles|
  {
    var judged := w.(items := AllJudged(w.folders, w.items, b));
    if w.bundles[b].status == BundleProposed && Emptied(judged.items, b) then WithStatus(judged, b, BundleStale) else judged
  }

  /** `sweep_queue`, of the first `n` bundles. */
  function Swept(w: World, n: nat): (r: World)
    requires n <= |w.bundles|
    ensures |r.bundles| == |w.bundles| && |r.items| == |w.items|
  {
    if n == 0 then w
    else
      var before := Swept(w, n - 1);
      if w.bundles[n - 1].status == BundleProposed then Refreshed(before, n - 1) else before
  }

  // ------------------------------------------------------------------ proposing

  datatype Spot = Spot(folder: nat, uid: nat)

  predicate LiveAt(folders: seq<Folder>, message: nat, spot: Spot) {
    && spot.folder < |folders|
    && Here(folders[spot.folder], spot.uid) in folders[spot.folder].places
    && folders[spot.folder].places[Here(folders[spot.folder], spot.uid)].message == message
    && !folders[spot.folder].places[Here(folders[spot.folder], spot.uid)].gone
  }

  /** `where` answers `_live_placement`: of a message's live placements, the one seen last. */
  ghost predicate Locates(folders: seq<Folder>, where: map<nat, Spot>) {
    && (forall m <- where :: LiveAt(folders, m, where[m]))
    && (forall m, spot :: LiveAt(folders, m, spot) ==> m in where)
  }

  predicate HoldsMessage(items: seq<Item>, b: nat, message: nat) {
    exists i: Item <- items :: i.bundle == b && i.message == Some(message)
  }

  predicate HoldsExcluded(items: seq<Item>, b: nat, message: nat) {
    exists i: Item <- items :: i.bundle == b && i.message == Some(message) && i.status == Excluded
  }

  /** `Added`. */
  datatype Added = Added(added: seq<nat>, inTarget: seq<nat>, nowhere: seq<nat>, here: seq<nat>, excluded: seq<nat>)

  const NOTHING := Added([], [], [], [], [])

  /** One message more, before any item of this call is written. */
  function Sorted(items: seq<Item>, b: nat, target: Option<nat>, where: map<nat, Spot>, so: Added, m: nat): Added {
    if HoldsMessage(items, b, m) then
      so.(here := so.here + [m], excluded := if HoldsExcluded(items, b, m) then so.excluded + [m] else so.excluded)
    else if m !in where then so.(nowhere := so.nowhere + [m])
    else if target == Some(where[m].folder) then so.(inTarget := so.inTarget + [m])
    else so.(added := so.added + [m])
  }

  /** `_add_messages`, before it writes anything. */
  function Sorting(items: seq<Item>, b: nat, target: Option<nat>, where: map<nat, Spot>, ids: seq<nat>): Added {
    if ids == [] then NOTHING
    else
      var rest := ids[..|ids| - 1];
      var so := Sorting(items, b, target, where, rest);
      if Last(ids) in rest then so else Sorted(items, b, target, where, so, Last(ids))
  }

  function ItemFor(folders: seq<Folder>, b: nat, m: nat, spot: Spot): Item
    requires LiveAt(folders, m, spot)
  {
    var f := folders[spot.folder];
    var p := f.places[Here(f, spot.uid)];
    Item(b, Some(m), spot.folder, Premise(f.row.generation, spot.uid, p.modseq, p.flags), Proposed)
  }

  function ItemsFor(folders: seq<Folder>, b: nat, where: map<nat, Spot>, added: seq<nat>): seq<Item>
    requires forall m <- added :: m in where && LiveAt(folders, m, where[m])
  {
    seq(|added|, i requires 0 <= i < |added| => ItemFor(folders, b, added[i], where[added[i]]))
  }

  predicate BroughtBy(item: Item, b: nat, added: seq<nat>) {
    item.bundle == b && item.message.Some? && item.message.value in added
  }

  /** The least id among the items a search brought, or nought. */
  function FirstOf(items: seq<Item>, b: nat, added: seq<nat>): nat {
    if items == [] then 0
    else
      var before := FirstOf(items[..|items| - 1], b, added);
      if before > 0 then before else if BroughtBy(Last(items), b, added) then |items| else 0
  }

  /** The greatest. */
  function LastOne(items: seq<Item>, b: nat, added: seq<nat>): nat {
    if items == [] then 0
    else if BroughtBy(Last(items), b, added) then |items|
    else LastOne(items[..|items| - 1], b, added)
  }

  /** `_record_query`. */
  function Recorded(w: World, b: nat, text: string, matched: nat, added: seq<nat>, grew: bool): World
    requires b < |w.bundles|
  {
    var entry := Query(text, grew, matched, |added|, FirstOf(w.items, b, added), LastOne(w.items, b, added));
    w.(bundles := w.bundles[b := w.bundles[b].(queries := w.bundles[b].queries + [entry])])
  }

  datatype Target = NoTarget | ById(id: nat) | ByName(name: string)

  datatype Naming = Outright(ids: seq<nat>) | Searched(text: string, matched: nat, found: seq<nat>)

  const MAX_CONTAINER_NAME := 255

  /** A name `validate_container_name` lets through. */
  predicate ValidName(name: string, delimiter: Option<char>) {
    && name != "" && !Search.IsSpace(name[0]) && !Search.IsSpace(Last(name))
    && |name| <= MAX_CONTAINER_NAME
    && (forall c <- name :: c >= ' ' && c != '\U{7F}')
    && !FolderTree.IsInbox(name)
    && (delimiter.Some? ==>
          && name[0] != delimiter.value && Last(name) != delimiter.value
          && forall i :: 0 <= i < |name| - 1 ==> !(name[i] == delimiter.value && name[i + 1] == delimiter.value))
  }

  function AccountDelimiter(folders: seq<Folder>): Option<char> {
    if folders == [] then None
    else if folders[0].row.delimiter.Some? then folders[0].row.delimiter
    else AccountDelimiter(folders[1..])
  }

  function Find(folders: seq<Folder>, name: string): (i: nat)
    ensures i <= |folders|
    ensures i < |folders| ==> folders[i].row.name == name
    ensures forall j :: 0 <= j < i ==> folders[j].row.name != name
  {
    if folders == [] || folders[0].row.name == name then 0 else 1 + Find(folders[1..], name)
  }

  /** A folder proposed and not made: nothing was asked of the server. */
  function Unmade(name: string, delimiter: Option<char>): Folder {
    Folder(Container(name, delimiter, false, None, None, 0, 1, false, false), map[])
  }

  /** Wanted back: the row lives again, and what was computed against it before no longer holds. */
  function Revived(f: Folder): Folder {
    f.(row := f.row.(discarded := false, made := false, generation := f.row.generation + 1))
  }

  /** `resolve_target`, for a name it does not refuse. */
  function ForTarget(folders: seq<Folder>, name: string): seq<Folder> {
    var i := Find(folders, name);
    if i == |folders| then folders + [Unmade(name, AccountDelimiter(folders))]
    else if folders[i].row.discarded then folders[i := Revived(folders[i])]
    else folders
  }

  /** The folders once the target is resolved, and which it is; nothing if it is refused. */
  function Resolved(folders: seq<Folder>, target: Target): Option<(seq<Folder>, Option<nat>)> {
    match target
    case NoTarget => Some((folders, None))
    case ById(id) => if id < |folders| && !folders[id].row.discarded then Some((folders, Some(id))) else None
    case ByName(name) =>
      if ValidName(name, AccountDelimiter(folders)) then Some((ForTarget(folders, name), Some(Find(folders, name)))) else None
  }

  /** A search that names messages at all, and few enough; `found` is what the index answers. */
  predicate Searchable(text: string, matched: nat, found: seq<nat>, most: nat) {
    Search.Query(text).Some? && 0 < matched <= most && |found| <= most
  }

  predicate Nameable(naming: Naming, most: nat) {
    match naming
    case Outright(ids) => 0 < |ids| <= most
    case Searched(text, matched, found) => Searchable(text, matched, found, most)
  }

  function Candidates(naming: Naming): seq<nat> { if naming.Outright? then naming.ids else naming.found }

  predicate Complete(operation: Operation, target: Target) {
    && operation != Discard
    && (operation == Move ==> target != NoTarget)
    && (operation.AddFlag? || operation.RemoveFlag? ==> operation.flag != "")
  }

  lemma {:induction false} AddedAreLocated(items: seq<Item>, b: nat, target: Option<nat>, where: map<nat, Spot>, ids: seq<nat>)
    ensures forall m <- Sorting(items, b, target, where, ids).added :: m in where
  {
    if ids != [] {
      AddedAreLocated(items, b, target, where, ids[..|ids| - 1]);
    }
  }

  /** `_add_messages`: every claim about a message named outright has to hold; of those found, what can take part does. */
  ghost function WithMessages(w: World, b: nat, where: map<nat, Spot>, ids: seq<nat>, each: bool): Option<World>
    requires b < |w.bundles| && Locates(w.folders, where)
  {
    var so := Sorting(w.items, b, w.bundles[b].target, where, ids);
    AddedAreLocated(w.items, b, w.bundles[b].target, where, ids);
    if each && (so.nowhere != [] || so.inTarget != []) then None
    else Some(w.(items := w.items + ItemsFor(w.folders, b, where, so.added)))
  }

  /** `propose_bundle`; nothing if it refuses. */
  ghost function Proposing(w: World, producer: nat, operation: Operation, target: Target, naming: Naming,
                           where: map<nat, Spot>, most: nat, expires: nat): Option<World> {
    var resolved := Resolved(w.folders, target);
    if !Complete(operation, target) || !Nameable(naming, most) || resolved.None? || !Locates(resolved.value.0, where) then None
    else
      var b := |w.bundles|;
      var begun := World(resolved.value.0, w.items,
                         w.bundles + [Bundle(producer, operation, resolved.value.1, expires, BundleProposed, [])]);
      Filled(begun, b, where, naming, false)
  }

  /** The bundle with what was named or found added to it, and the search written down. */
  ghost function Filled(w: World, b: nat, where: map<nat, Spot>, naming: Naming, grew: bool): Option<World>
    requires b < |w.bundles| && Locates(w.folders, where)
  {
    var added := Sorting(w.items, b, w.bundles[b].target, where, Candidates(naming)).added;
    var full := WithMessages(w, b, where, Candidates(naming), naming.Outright?);
    match naming
    case Outright(_) => full
    case Searched(text, matched, _) =>
      if added == [] then None else Some(Recorded(full.value, b, text, matched, added, grew))
  }

  function Messages(items: seq<Item>, b: nat): nat {
    if items == [] then 0
    else Messages(items[..|items| - 1], b) + (if Last(items).bundle == b && Last(items).message.Some? then 1 else 0)
  }

  /** How many of the messages found are not in the bundle. */
  function Arriving(items: seq<Item>, b: nat, found: seq<nat>): nat {
    |set m | m in found && !HoldsMessage(items, b, m)|
  }

  /** `add_to_bundle`; nothing if it refuses, and then its transaction leaves nothing either. */
  ghost function Growing(w: World, b: nat, producer: nat, text: string, matched: nat, found: seq<nat>,
                         where: map<nat, Spot>, most: nat): Option<World> {
    if b >= |w.bundles| || !Locates(w.folders, where) then None
    else
      var now := Refreshed(w, b);
      if now.bundles[b].status != BundleProposed || now.bundles[b].producer != producer
         || now.bundles[b].operation == Discard || !Searchable(text, matched, found, most)
         || Messages(now.items, b) + Arriving(now.items, b, found) > most
      then None
      else Filled(now, b, where, Searched(text, matched, found), true)
  }

  // ------------------------------------------------------------------ deciding

  function Excluding(w: World, id: nat): World
    requires 1 <= id <= |w.items|
  {
    if w.items[id - 1].status == Proposed then w.(items := w.items[id - 1 := w.items[id - 1].(status := Excluded)]) else w
  }

  /** `shown_through`: the last item the bundle has. */
  function ShownThrough(items: seq<Item>, b: nat): nat {
    if items == [] then 0
    else if Last(items).bundle == b then |items|
    else ShownThrough(items[..|items| - 1], b)
  }

  /** `accept`; a refusal keeps what the refresh found. */
  function Accepting(w: World, b: nat, reviewedThrough: nat, acknowledged: bool): World
    requires b < |w.bundles|
  {
    if w.bundles[b].status != BundleProposed || reviewedThrough == 0 || ShownThrough(w.items, b) > reviewedThrough then w
    else
      var now := Refreshed(w, b);
      if now.bundles[b].status == BundleStale || (HasItem(now.items, b, Stale) && !acknowledged)
         || !HasItem(now.items, b, Proposed)
      then now
      else WithStatus(now.(items := Marked(now.items, b, Proposed, Accepted)), b, BundleAccepted)
  }

  /** How a bundle awaiting review ends without being accepted: its open items end with it. */
  function Ended(w: World, b: nat, status: BundleStatus, item: ItemStatus): World
    requires b < |w.bundles|
  {
    if w.bundles[b].status != BundleProposed then w
    else WithStatus(w.(items := Marked(w.items, b, Proposed, item)), b, status)
  }

  function Due(bundle: Bundle, now: nat): bool { bundle.status == BundleProposed && bundle.expires <= now }

  /** `expire_due`, of the first `n` bundles. */
  function Expiring(w: World, now: nat, n: nat): (r: World)
    requires n <= |w.bundles|
    ensures |r.bundles| == |w.bundles| && |r.items| == |w.items|
  {
    if n == 0 then w
    else
      var before := Expiring(w, now, n - 1);
      if Due(w.bundles[n - 1], now) then Ended(before, n - 1, BundleExpired, Expired) else before
  }

  // ------------------------------------------------------------------ what the runner does to the same rows

  /** Every open item resting on a folder whose identity broke. */
  function Killed(items: seq<Item>, folder: nat, generation: nat): seq<Item> {
    seq(|items|, i requires 0 <= i < |items| =>
      if items[i].folder == folder && items[i].premise.generation == generation && Undecided(items[i])
      then items[i].(status := Stale) else items[i])
  }

  /** The start of a sync, `break_identity` with it. */
  function Starting(w: World, folder: nat, selected: Selected): World
    requires folder < |w.folders|
  {
    var f := w.folders[folder];
    var moved := w.(folders := w.folders[folder := Begin(f, selected)]);
    if IdentityBroken(f, selected) then moved.(items := Killed(w.items, folder, f.row.generation)) else moved
  }

  function FlagsAfter(operation: Operation, flags: Flags): Flags {
    match operation
    case AddFlag(flag) => flags + {flag}
    case RemoveFlag(flag) => flags - {flag}
    case _ => flags
  }

  /** `_update_cache`. */
  function Reflected(f: Folder, item: Item, operation: Operation): Folder {
    var slot := Slot(item.premise.generation, item.premise.uid);
    if operation == Discard then f.(row := f.row.(discarded := true, made := false, count := 0))
    else if slot !in f.places then f
    else if operation == Move || operation == Delete then f.(places := f.places[slot := Vanish(f.places[slot])])
    else f.(places := f.places[slot := f.places[slot].(flags := FlagsAfter(operation, f.places[slot].flags))])
  }

  /** `_apply_one` up to its checkpoint: `did` is whether the server changed anything. */
  function ApplyingOne(w: World, id: nat, did: bool): World
    requires 1 <= id <= |w.items| && w.items[id - 1].bundle < |w.bundles|
  {
    var item := w.items[id - 1];
    if item.status != Accepted || w.bundles[item.bundle].status != BundleAccepted then w
    else if !StillHolds(w.folders, item) || !did then w.(items := w.items[id - 1 := item.(status := Stale)])
    else
      w.(items := w.items[id - 1 := item.(status := Applied)],
         folders := w.folders[item.folder := Reflected(w.folders[item.folder], item, w.bundles[item.bundle].operation)])
  }

  /** `_ensure_target_exists`, once the server has the folder: the row says what the server made. */
  function TargetMade(w: World, folder: nat, name: string, delimiter: Option<char>, special: bool): World
    requires folder < |w.folders|
  {
    var f := w.folders[folder];
    var row := f.row.(name := name, delimiter := delimiter, special := special, made := true, discarded := false);
    w.(folders := w.folders[folder := f.(row := row)])
  }

  /** The roll-up: `tried` is whether this run attempted any item. */
  function Rollup(items: seq<Item>, b: nat, tried: bool): BundleStatus {
    if !tried && !HasItem(items, b, Applied) then BundleStale
    else if HasItem(items, b, Stale) then BundlePartlyApplied
    else BundleApplied
  }

  function ClosingApply(w: World, b: nat, tried: bool): World
    requires b < |w.bundles|
  {
    if w.bundles[b].status != BundleAccepted || HasItem(w.items, b, Accepted) then w
    else WithStatus(w, b, Rollup(w.items, b, tried))
  }

  datatype Listed = Listed(name: string, delimiter: Option<char>, special: bool)

  function Adopted(folders: seq<Folder>, info: Listed): (r: seq<Folder>) {
    var i := Find(folders, info.name);
    if i == |folders| then folders + [Folder(Container(info.name, info.delimiter, info.special, None, None, 0, 1, true, false), map[])]
    else
      var row := folders[i].row.(made := true, discarded := false, delimiter := info.delimiter, special := info.special);
      folders[i := folders[i].(row := row)]
  }

  /** `discover_containers`. */
  function Discovered(folders: seq<Folder>, infos: seq<Listed>): seq<Folder>
    decreases infos
  {
    if infos == [] then folders else Discovered(Adopted(folders, infos[0]), infos[1..])
  }

  // ------------------------------------------------------------------ discarding folders

  predicate IsUnder(name: string, above: Container) {
    above.delimiter.Some? && above.name + [above.delimiter.value] <= name
  }

  predicate GoesToo(folders: seq<Folder>, going: seq<nat>, name: string) {
    exists g: nat <- going :: g < |folders| && folders[g].row.name == name
  }

  /** `_refuse_undiscardable` lets it go. */
  predicate MayGo(folders: seq<Folder>, id: nat, going: seq<nat>)
    requires id < |folders|
  {
    var row := folders[id].row;
    && !row.discarded && !FolderTree.IsInbox(row.name) && !row.special && HoldsNothing(folders[id])
    && forall c: Folder <- folders :: !c.row.discarded && IsUnder(c.row.name, row) ==> GoesToo(folders, going, c.row.name)
  }

  function Once(ids: seq<nat>): seq<nat> {
    if ids == [] then []
    else
      var rest := ids[..|ids| - 1];
      if Last(ids) in rest then Once(rest) else Once(rest) + [Last(ids)]
  }

  function FolderItem(folders: seq<Folder>, b: nat, id: nat): Item
    requires id < |folders|
  {
    Item(b, None, id, Premise(folders[id].row.generation, 0, None, {}), Proposed)
  }

  function FolderItems(folders: seq<Folder>, b: nat, ids: seq<nat>): seq<Item>
    requires forall id <- ids :: id < |folders|
  {
    seq(|ids|, i requires 0 <= i < |ids| => (assert ids[i] in ids; FolderItem(folders, b, ids[i])))
  }

  /** `propose_discard`; nothing if it refuses. */
  function Discarding(w: World, producer: nat, ids: seq<nat>, most: nat, expires: nat): Option<World> {
    var wanted := Once(ids);
    if ids == [] || |ids| > most || (exists id <- wanted :: id >= |w.folders|) then None
    else if exists id <- wanted :: !MayGo(w.folders, id, wanted) then None
    else
      var b := |w.bundles|;
      Some(World(w.folders, w.items + FolderItems(w.folders, b, wanted),
                 w.bundles + [Bundle(producer, Discard, None, expires, BundleProposed, [])]))
  }

  // ------------------------------------------------------------------ runs

  datatype Op =
    | Propose(producer: nat, operation: Operation, target: Target, naming: Naming, where: map<nat, Spot>, most: nat, expires: nat)
    | ProposeDiscard(producer: nat, ids: seq<nat>, most: nat, expires: nat)
    | Grow(bundle: nat, producer: nat, text: string, matched: nat, found: seq<nat>, where: map<nat, Spot>, most: nat)
    | Exclude(id: nat)
    | Draw(bundle: nat)
    | Accept(bundle: nat, reviewedThrough: nat, acknowledged: bool)
    | Reject(bundle: nat)
    | Withdraw(bundle: nat, producer: nat)
    | ExpireDue(now: nat)
    | ApplyOne(id: nat, did: bool)
    | CloseApply(bundle: nat, tried: bool)
    | MakeTarget(folder: nat, name: string, delimiter: Option<char>, special: bool)
    | Discover(listed: seq<Listed>)
    | StartSync(folder: nat, selected: Selected)
    | AbsorbMore(folder: nat, infos: seq<Info>)
    | CloseSync(folder: nat, present: seq<nat>, selected: Selected)

  function Otherwise(r: Option<World>, w: World): World { if r.Some? then r.value else w }

  ghost function Step(w: World, op: Op): World {
    match op
    case Propose(producer, operation, target, naming, where, most, expires) =>
      Otherwise(Proposing(w, producer, operation, target, naming, where, most, expires), w)
    case ProposeDiscard(producer, ids, most, expires) => Otherwise(Discarding(w, producer, ids, most, expires), w)
    case Grow(b, producer, text, matched, found, where, most) =>
      Otherwise(Growing(w, b, producer, text, matched, found, where, most), w)
    case Exclude(id) => if 1 <= id <= |w.items| then Excluding(w, id) else w
    case Draw(b) => if b < |w.bundles| then Refreshed(w, b) else w
    case Accept(b, through, acknowledged) => if b < |w.bundles| then Accepting(w, b, through, acknowledged) else w
    case Reject(b) => if b < |w.bundles| then Ended(w, b, BundleRejected, Rejected) else w
    case Withdraw(b, producer) =>
      if b < |w.bundles| && w.bundles[b].producer == producer then Ended(w, b, BundleWithdrawn, Withdrawn) else w
    case ExpireDue(now) => Expiring(w, now, |w.bundles|)
    case ApplyOne(id, did) => if 1 <= id <= |w.items| && w.items[id - 1].bundle < |w.bundles| then ApplyingOne(w, id, did) else w
    case CloseApply(b, tried) => if b < |w.bundles| then ClosingApply(w, b, tried) else w
    case MakeTarget(folder, name, delimiter, special) =>
      if folder < |w.folders| then TargetMade(w, folder, name, delimiter, special) else w
    case Discover(listed) => w.(folders := Discovered(w.folders, listed))
    case StartSync(folder, selected) => if folder < |w.folders| then Starting(w, folder, selected) else w
    case AbsorbMore(folder, infos) =>
      if folder < |w.folders| then w.(folders := w.folders[folder := AbsorbAll(w.folders[folder], infos)]) else w
    case CloseSync(folder, present, selected) =>
      if folder < |w.folders| then w.(folders := w.folders[folder := Closed(w.folders[folder], present, selected)]) else w
  }

  ghost function Run(w: World, ops: seq<Op>): World
    decreases |ops|
  {
    if ops == [] then w else Step(Run(w, ops[..|ops| - 1]), Last(ops))
  }

  const EMPTY := World([], [], [])
}
