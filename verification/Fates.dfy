/** What becomes of each item of a bundle of changes to messages, and what the mailbox shows while the bundle is
    carried out: `_apply_one` and `_perform` of `imap/apply.py` with the outcomes of `imap/client.py`, one item after
    another.  What becomes of an item does not depend on those before it, and after each the mailbox is as it was but for
    the messages of the items done so far, and their copies. */
module Fates {
  import opened Common
  import opened Sync
  import opened Freshness
  import opened Review
  import opened Client
  import opened Apply
  import Growth
  import Mailbox
  import Once
  import Resume

  // ------------------------------------------------------------------ an item about a message

  /** A message on the server. */
  datatype Put = Put(name: string, uid: nat)

  /** The message the item is about. */
  function PutOf(rows: World, id: nat): Put
    requires 1 <= id <= |rows.items| && rows.items[id - 1].folder < |rows.folders|
  {
    Put(rows.folders[rows.items[id - 1].folder].row.name, rows.items[id - 1].premise.uid)
  }

  function DestinationOf(rows: World, b: nat, trash: Option<string>): Option<string>
    requires b < |rows.bundles|
  {
    match rows.bundles[b].operation
    case Move => NameOf(rows.folders, rows.bundles[b].target)
    case Delete => trash
    case _ => None
  }

  /** The item is accepted, about a message, of a folder the cache has. */
  predicate OfMessage(st: State, b: nat, id: nat) {
    && Appliable(st, b) && Waiting(st.rows, b, id)
    && st.rows.bundles[b].operation != Discard
    && st.rows.items[id - 1].message.Some? && st.rows.items[id - 1].folder < |st.rows.folders|
  }

  // ------------------------------------------------------------------ what becomes of each item

  datatype Fate = Unreached | Refused | Half | Made

  /** What becomes of an item, by what the cache and the server say of its message. */
  function FateOf(st: State, b: nat, id: nat, trash: Option<string>): Fate
    requires OfMessage(st, b, id)
  {
    var s, item, put := st.server, st.rows.items[id - 1], PutOf(st.rows, id);
    var operation, target := st.rows.bundles[b].operation, DestinationOf(st.rows, b, trash);
    if !StillHolds(st.rows.folders, item) then Refused
    else if put.name !in s.boxes then Unreached
    else
      var box := s.boxes[put.name];
      if LooksChanged(box, item.premise) then Refused
      else if Once.Moves(operation) then
        if target.None? then Unreached
        else if MoveDeclined(box, put.uid, item.premise.modseq) || target.value !in s.boxes then Refused
        else if put.name !in s.fixed then Made
        else if s.canMove then Refused
        else Half
      else if StoreDeclined(box, put.uid, item.premise.modseq) || put.name in s.fixed then Refused
      else Made
  }

  /** The premise was taken from the folder it is about. */
  predicate TakenThere(s: Server, rows: World, id: nat)
    requires 1 <= id <= |rows.items| && rows.items[id - 1].folder < |rows.folders|
  {
    var put := PutOf(rows, id);
    put.name in s.boxes ==> Once.Taken(s.boxes[put.name], rows.items[id - 1].premise)
  }

  predicate CanWork(s: Server, operation: Operation, put: Put, target: Option<string>) {
    && put.name in s.boxes && put.uid in s.boxes[put.name].mail
    && (Once.Moves(operation) ==> target.Some? && target.value in s.boxes)
  }

  /** The server, once the item has met its fate. */
  function Worked(s: Server, operation: Operation, put: Put, target: Option<string>, fate: Fate): Server
    requires fate == Half || fate == Made ==> CanWork(s, operation, put, target)
    requires fate == Half ==> Once.Moves(operation)
  {
    if fate == Unreached || fate == Refused then s
    else if !Once.Moves(operation) then WithBox(s, put.name, Stored(s.boxes[put.name], put.uid, operation, s.counts))
    else
      var copied := Arrived(s, target.value, s.boxes[put.name].mail[put.uid]);
      var box := copied.boxes[put.name];
      if fate == Half then copied
      else WithBox(copied, put.name, if s.canMove then MovedOut(box, put.uid) else MarkedDeleted(box, put.uid, s.counts))
  }

  lemma FateWorks(st: State, b: nat, id: nat, trash: Option<string>)
    requires OfMessage(st, b, id) && (StillHolds(st.rows.folders, st.rows.items[id - 1]) ==> TakenThere(st.server, st.rows, id))
    ensures var fate, operation := FateOf(st, b, id, trash), st.rows.bundles[b].operation;
            && (fate == Half || fate == Made ==> CanWork(st.server, operation, PutOf(st.rows, id), DestinationOf(st.rows, b, trash)))
            && (fate == Half ==> Once.Moves(operation))
  {}

  lemma FateIs(st: State, b: nat, id: nat, trash: Option<string>)
    requires OfMessage(st, b, id) && (StillHolds(st.rows.folders, st.rows.items[id - 1]) ==> TakenThere(st.server, st.rows, id))
    ensures var one, fate := ApplyItem(st, b, id, trash), FateOf(st, b, id, trash);
            && (one.failed <==> fate == Unreached)
            && (!one.failed ==> one.state.rows == ApplyingOne(st.rows, id, fate == Made))
            && (fate == Made ==> StillHolds(st.rows.folders, st.rows.items[id - 1]))
            && (FateWorks(st, b, id, trash);
                one.state.server == Worked(st.server, st.rows.bundles[b].operation, PutOf(st.rows, id), DestinationOf(st.rows, b, trash), fate))
  {
    FateWorks(st, b, id, trash);
  }

  // ------------------------------------------------------------------ what the mailbox shows

  function FlagsLeft(operation: Operation, flags: Mailbox.Flags): Mailbox.Flags {
    match operation
    case AddFlag(flag) => flags + {flag}
    case RemoveFlag(flag) => flags - {flag}
    case _ => flags + {DELETED}
  }

  /** A message that was there: changed if it was hit, and otherwise the same in everything. */
  predicate MailShows(was: Mailbox.Box, now: Mailbox.Box, u: nat, operation: Operation, canMove: bool, hit: bool) {
    if !hit then (u in now.mail <==> u in was.mail) && (u in was.mail ==> now.mail[u] == was.mail[u])
    else
      && u in was.mail
      && if Once.Moves(operation) && canMove then u !in now.mail
         else u in now.mail && now.mail[u].key == was.mail[u].key && now.mail[u].flags == FlagsLeft(operation, was.mail[u].flags)
  }

  ghost predicate BoxShows(was: Mailbox.Box, now: Mailbox.Box, name: string, operation: Operation, canMove: bool, hits: set<Put>) {
    && Mailbox.Valid(now) && now.uidvalidity == was.uidvalidity && now.condstore == was.condstore && was.uidnext <= now.uidnext
    && was.highest <= now.highest
    && forall u: nat :: u < was.uidnext ==> MailShows(was, now, u, operation, canMove, Put(name, u) in hits)
  }

  /** A message that was not there: a copy of one that was, with its flags. */
  predicate CopyShows(s: Server, put: Put, now: Mailbox.Box, u: nat) {
    && put.name in s.boxes && put.uid in s.boxes[put.name].mail
    && u in now.mail && now.mail[u].key == s.boxes[put.name].mail[put.uid].key && now.mail[u].flags == s.boxes[put.name].mail[put.uid].flags
  }

  ghost predicate NewsShow(s: Server, was: Mailbox.Box, now: Mailbox.Box, news: seq<Put>) {
    && now.uidnext == was.uidnext + |news|
    && forall k :: 0 <= k < |news| ==> CopyShows(s, news[k], now, was.uidnext + k)
  }

  function NewsOf(dest: Option<string>, name: string, news: seq<Put>): seq<Put> { if dest == Some(name) then news else [] }

  /** `s` is `s0` with exactly the messages of `hits` changed, and copies of those of `news` in `dest`, in order. */
  ghost predicate Shows(s0: Server, s: Server, operation: Operation, dest: Option<string>, hits: set<Put>, news: seq<Put>) {
    && s == s0.(boxes := s.boxes) && s.boxes.Keys == s0.boxes.Keys
    && (forall name <- s0.boxes :: BoxShows(s0.boxes[name], s.boxes[name], name, operation, s0.canMove, hits))
    && (forall name <- s0.boxes :: NewsShow(s0, s0.boxes[name], s.boxes[name], NewsOf(dest, name, news)))
  }

  lemma ReplacedShows(s0: Server, s: Server, operation: Operation, dest: Option<string>, hits: set<Put>, after: set<Put>,
                      news: seq<Put>, later: seq<Put>, name: string, box: Mailbox.Box)
    requires Shows(s0, s, operation, dest, hits, news) && name in s.boxes
    requires BoxShows(s0.boxes[name], box, name, operation, s0.canMove, after)
    requires NewsShow(s0, s0.boxes[name], box, NewsOf(dest, name, later))
    requires forall put: Put :: put.name != name ==> (put in hits <==> put in after)
    requires later == news || dest == Some(name)
    ensures Shows(s0, WithBox(s, name, box), operation, dest, after, later)
  {
    var v := WithBox(s, name, box);
    forall n | n in s0.boxes ensures BoxShows(s0.boxes[n], v.boxes[n], n, operation, s0.canMove, after) {
      assert BoxShows(s0.boxes[n], s.boxes[n], n, operation, s0.canMove, hits);
    }
  }

  lemma StoredShows(was: Mailbox.Box, now: Mailbox.Box, put: Put, operation: Operation, asked: Operation, canMove: bool,
                    counts: bool, hits: set<Put>)
    requires Mailbox.Valid(was) && BoxShows(was, now, put.name, operation, canMove, hits) && put !in hits
    requires put.uid in was.mail && operation != Discard && !(Once.Moves(operation) && canMove)
    requires asked == if Once.Moves(operation) then AddFlag(DELETED) else operation
    ensures BoxShows(was, Stored(now, put.uid, asked, counts), put.name, operation, canMove, hits + {put})
    ensures Stored(now, put.uid, asked, counts).uidnext == now.uidnext
  {
    assert MailShows(was, now, put.uid, operation, canMove, false);
  }

  lemma MovedShows(was: Mailbox.Box, now: Mailbox.Box, put: Put, operation: Operation, hits: set<Put>)
    requires Mailbox.Valid(was) && BoxShows(was, now, put.name, operation, true, hits)
    requires put.uid in was.mail && Once.Moves(operation)
    ensures BoxShows(was, MovedOut(now, put.uid), put.name, operation, true, hits + {put})
  {}

  /** Changing one message that was there leaves the copies alone. */
  lemma NewsStay(s: Server, was: Mailbox.Box, now: Mailbox.Box, later: Mailbox.Box, news: seq<Put>, uid: nat)
    requires NewsShow(s, was, now, news) && uid < was.uidnext && later.uidnext == now.uidnext
    requires later.mail - {uid} == now.mail - {uid}
    ensures NewsShow(s, was, later, news)
  {
    forall k | 0 <= k < |news| ensures CopyShows(s, news[k], later, was.uidnext + k) {
      assert CopyShows(s, news[k], now, was.uidnext + k);
      assert was.uidnext + k in (now.mail - {uid}) && (now.mail - {uid})[was.uidnext + k] == now.mail[was.uidnext + k];
      assert was.uidnext + k in (later.mail - {uid}) && (later.mail - {uid})[was.uidnext + k] == later.mail[was.uidnext + k];
    }
  }

  lemma ArrivedShows(s0: Server, s: Server, operation: Operation, target: string, hits: set<Put>, news: seq<Put>, put: Put)
    requires Shows(s0, s, operation, Some(target), hits, news) && target in s.boxes
    requires put.name in s0.boxes && put.uid in s0.boxes[put.name].mail && Mailbox.Valid(s0.boxes[put.name]) && put !in hits
    requires Mailbox.Valid(s0.boxes[target])
    ensures put.name in s.boxes && put.uid in s.boxes[put.name].mail
    ensures Shows(s0, Arrived(s, target, s.boxes[put.name].mail[put.uid]), operation, Some(target), hits, news + [put])
  {
    var was, now := s0.boxes[target], s.boxes[target];
    assert MailShows(s0.boxes[put.name], s.boxes[put.name], put.uid, operation, s0.canMove, false);
    var mail := s.boxes[put.name].mail[put.uid];
    var box := Mailbox.Step(now, Mailbox.Deliver(mail.key, mail.flags));
    assert BoxShows(was, now, target, operation, s0.canMove, hits) && NewsShow(s0, was, now, news);
    forall u: nat | u < was.uidnext ensures MailShows(was, box, u, operation, s0.canMove, Put(target, u) in hits) {
      assert MailShows(was, now, u, operation, s0.canMove, Put(target, u) in hits);
    }
    forall k | 0 <= k < |news + [put]| ensures CopyShows(s0, (news + [put])[k], box, was.uidnext + k) {
      if k < |news| {
        assert CopyShows(s0, news[k], now, was.uidnext + k);
      }
    }
    ReplacedShows(s0, s, operation, Some(target), hits, hits, news, news + [put], target, box);
  }

  ghost predicate AllValid(s: Server) { forall name <- s.boxes :: Mailbox.Valid(s.boxes[name]) }

  predicate Copies(operation: Operation, fate: Fate) { Once.Moves(operation) && (fate == Half || fate == Made) }

  /** One message of one folder, changed where it is. */
  lemma HitShows(s0: Server, s: Server, operation: Operation, dest: Option<string>, hits: set<Put>, news: seq<Put>, put: Put)
    requires AllValid(s0) && Shows(s0, s, operation, dest, hits, news) && put !in hits && operation != Discard
    requires put.name in s.boxes && put.uid in s0.boxes[put.name].mail
    ensures var box := s.boxes[put.name];
            var changed := if !Once.Moves(operation) then Stored(box, put.uid, operation, s.counts)
                           else if s.canMove then MovedOut(box, put.uid) else MarkedDeleted(box, put.uid, s.counts);
            Shows(s0, WithBox(s, put.name, changed), operation, dest, hits + {put}, news)
  {
    var was, box := s0.boxes[put.name], s.boxes[put.name];
    var asked := if Once.Moves(operation) then AddFlag(DELETED) else operation;
    var changed := if Once.Moves(operation) && s.canMove then MovedOut(box, put.uid) else Stored(box, put.uid, asked, s.counts);
    if Once.Moves(operation) && s.canMove {
      MovedShows(was, box, put, operation, hits);
    } else {
      StoredShows(was, box, put, operation, asked, s.canMove, s.counts, hits);
    }
    assert changed.mail - {put.uid} == box.mail - {put.uid};
    NewsStay(s0, was, box, changed, NewsOf(dest, put.name, news), put.uid);
    ReplacedShows(s0, s, operation, dest, hits, hits + {put}, news, news, put.name, changed);
  }

  lemma MoveShows(s0: Server, s: Server, operation: Operation, target: string, hits: set<Put>, news: seq<Put>,
                  put: Put, fate: Fate)
    requires AllValid(s0) && Shows(s0, s, operation, Some(target), hits, news) && Once.Moves(operation)
    requires CanWork(s, operation, put, Some(target)) && CanWork(s0, operation, put, Some(target)) && put !in hits
    requires fate == Half || fate == Made
    ensures Shows(s0, Worked(s, operation, put, Some(target), fate), operation, Some(target),
                  if fate == Made then hits + {put} else hits, news + [put])
  {
    ArrivedShows(s0, s, operation, target, hits, news, put);
    if fate == Made {
      HitShows(s0, Arrived(s, target, s.boxes[put.name].mail[put.uid]), operation, Some(target), hits, news + [put], put);
    }
  }

  lemma WorkedShows(s0: Server, s: Server, operation: Operation, dest: Option<string>, hits: set<Put>, news: seq<Put>,
                    put: Put, fate: Fate)
    requires AllValid(s0) && Shows(s0, s, operation, dest, hits, news) && operation != Discard
    requires fate == Half || fate == Made ==>
               CanWork(s, operation, put, dest) && CanWork(s0, operation, put, dest) && put !in hits
    requires fate == Half ==> Once.Moves(operation)
    ensures Shows(s0, Worked(s, operation, put, dest, fate), operation, dest,
                  if fate == Made then hits + {put} else hits, if Copies(operation, fate) then news + [put] else news)
  {
    if fate == Half || fate == Made {
      if Once.Moves(operation) {
        MoveShows(s0, s, operation, dest.value, hits, news, put, fate);
      } else {
        HitShows(s0, s, operation, dest, hits, news, put);
      }
    }
  }

  // ------------------------------------------------------------------ a run

  /** The premise is of the generation the folder is at. */
  predicate Current(rows: World, id: nat)
    requires 1 <= id <= |rows.items| && rows.items[id - 1].folder < |rows.folders|
  {
    rows.items[id - 1].premise.generation == rows.folders[rows.items[id - 1].folder].row.generation
  }

  /** The item's folder is on the server, and its premise was taken from it. */
  predicate RestsOn(s: Server, rows: World, id: nat)
    requires 1 <= id <= |rows.items| && rows.items[id - 1].folder < |rows.folders|
  {
    rows.folders[rows.items[id - 1].folder].row.made && TakenThere(s, rows, id)
  }

  /** Each item waiting is about a message of its own, as the server once had it. */
  ghost predicate Ready(e: State, b: nat) {
    && Appliable(e, b) && e.rows.bundles[b].operation != Discard && AllValid(e.server)
    && (forall id: nat :: Waiting(e.rows, b, id) ==> OfMessage(e, b, id) && (Current(e.rows, id) ==> RestsOn(e.server, e.rows, id)))
    && (forall i: nat, j: nat :: Waiting(e.rows, b, i) && Waiting(e.rows, b, j) && i != j && Current(e.rows, i) && Current(e.rows, j)
          ==> PutOf(e.rows, i) != PutOf(e.rows, j))
  }

  ghost predicate AllOfMessages(e: State, b: nat, ids: seq<nat>) { forall id <- ids :: OfMessage(e, b, id) }

  /** The messages of those that are made. */
  function HitsOf(e: State, b: nat, ids: seq<nat>, trash: Option<string>): set<Put>
    requires AllOfMessages(e, b, ids)
  {
    set id | id in ids && FateOf(e, b, id, trash) == Made :: PutOf(e.rows, id)
  }

  /** Those of which a copy is made, in order. */
  function CopiesOf(e: State, b: nat, ids: seq<nat>, trash: Option<string>): seq<Put>
    requires AllOfMessages(e, b, ids)
  {
    if ids == [] then []
    else
      assert Last(ids) in ids;
      CopiesOf(e, b, ids[..|ids| - 1], trash)
      + (if Copies(e.rows.bundles[b].operation, FateOf(e, b, Last(ids), trash)) then [PutOf(e.rows, Last(ids))] else [])
  }

  predicate SameFolder(f: Folder, g: Folder) { f.row == g.row && f.places.Keys == g.places.Keys }

  /** The rows of the items still waiting are what they were, and so is what they rest on. */
  ghost predicate RowsAlike(e: World, rows: World, b: nat, done: seq<nat>) {
    && |rows.items| == |e.items| && rows.bundles == e.bundles && |rows.folders| == |e.folders|
    && (forall k :: 0 <= k < |e.folders| ==> SameFolder(e.folders[k], rows.folders[k]))
    && (forall id: nat :: Waiting(rows, b, id) <==> Waiting(e, b, id) && id !in done)
    && (forall id: nat :: Waiting(rows, b, id) ==>
          rows.items[id - 1] == e.items[id - 1]
          && (StillHolds(rows.folders, e.items[id - 1]) <==> StillHolds(e.folders, e.items[id - 1])))
  }

  /** So far `done` have met their fates. */
  ghost predicate Midway(e: State, st: State, b: nat, done: seq<nat>, trash: Option<string>)
    requires b < |e.rows.bundles|
  {
    && AllOfMessages(e, b, done) && RowsAlike(e.rows, st.rows, b, done)
    && Shows(e.server, st.server, e.rows.bundles[b].operation, DestinationOf(e.rows, b, trash),
             HitsOf(e, b, done, trash), CopiesOf(e, b, done, trash))
    && MetTheirs(e, st.rows.items, b, done, trash)
  }

  ghost predicate MetTheirs(e: State, items: seq<Item>, b: nat, done: seq<nat>, trash: Option<string>)
    requires AllOfMessages(e, b, done)
  {
    forall id <- done :: 1 <= id <= |items| && items[id - 1].status == if FateOf(e, b, id, trash) == Made then Applied else Stale
  }

  lemma OneMoreMet(e: State, items: seq<Item>, b: nat, done: seq<nat>, id: nat, trash: Option<string>)
    requires AllOfMessages(e, b, done) && AllOfMessages(e, b, done + [id]) && MetTheirs(e, items, b, done, trash) && 1 <= id <= |items|
    ensures MetTheirs(e, items[id - 1 := items[id - 1].(status := if FateOf(e, b, id, trash) == Made then Applied else Stale)],
                      b, done + [id], trash)
  {}

  lemma NotHit(e: State, st: State, b: nat, done: seq<nat>, id: nat, trash: Option<string>)
    requires Ready(e, b) && Midway(e, st, b, done, trash) && Waiting(st.rows, b, id) && Current(e.rows, id)
    ensures PutOf(e.rows, id) !in HitsOf(e, b, done, trash)
  {}

  /** The message of an item that is not hit, before and now. */
  predicate SameMail(was: Mailbox.Box, now: Mailbox.Box, uid: nat) {
    && was.condstore == now.condstore && (uid in was.mail <==> uid in now.mail) && (uid in was.mail ==> now.mail[uid] == was.mail[uid])
  }

  lemma MailIsSame(e: State, st: State, b: nat, done: seq<nat>, id: nat, trash: Option<string>)
    requires Ready(e, b) && Midway(e, st, b, done, trash) && Waiting(st.rows, b, id)
    requires var put := PutOf(e.rows, id); put.name in e.server.boxes && Current(e.rows, id)
    ensures var put := PutOf(e.rows, id);
            put.name in st.server.boxes
            && Once.Taken(st.server.boxes[put.name], e.rows.items[id - 1].premise)
            && SameMail(e.server.boxes[put.name], st.server.boxes[put.name], put.uid)
  {
    var put := PutOf(e.rows, id);
    assert RestsOn(e.server, e.rows, id);
    assert BoxShows(e.server.boxes[put.name], st.server.boxes[put.name], put.name, e.rows.bundles[b].operation, e.server.canMove,
                    HitsOf(e, b, done, trash));
    NotHit(e, st, b, done, id, trash);
    assert MailShows(e.server.boxes[put.name], st.server.boxes[put.name], put.uid, e.rows.bundles[b].operation, e.server.canMove, false);
  }

  lemma RowsAreSame(e: World, rows: World, b: nat, done: seq<nat>, id: nat, trash: Option<string>)
    requires RowsAlike(e, rows, b, done) && Waiting(rows, b, id) && b < |e.bundles| && e.items[id - 1].folder < |e.folders|
    ensures PutOf(rows, id) == PutOf(e, id) && DestinationOf(rows, b, trash) == DestinationOf(e, b, trash)
  {
    assert SameFolder(e.folders[e.items[id - 1].folder], rows.folders[e.items[id - 1].folder]);
    if e.bundles[b].target.Some? && e.bundles[b].target.value < |e.folders| {
      assert SameFolder(e.folders[e.bundles[b].target.value], rows.folders[e.bundles[b].target.value]);
    }
  }

  lemma FateByWhatIsSeen(e: State, st: State, b: nat, id: nat, trash: Option<string>)
    requires OfMessage(e, b, id) && OfMessage(st, b, id) && e.rows.bundles == st.rows.bundles && e.rows.items[id - 1] == st.rows.items[id - 1]
    requires PutOf(st.rows, id) == PutOf(e.rows, id) && DestinationOf(st.rows, b, trash) == DestinationOf(e.rows, b, trash)
    requires st.server == e.server.(boxes := st.server.boxes) && st.server.boxes.Keys == e.server.boxes.Keys
    requires StillHolds(st.rows.folders, e.rows.items[id - 1]) <==> StillHolds(e.rows.folders, e.rows.items[id - 1])
    requires var put := PutOf(e.rows, id);
             StillHolds(e.rows.folders, e.rows.items[id - 1]) && put.name in e.server.boxes ==>
               SameMail(e.server.boxes[put.name], st.server.boxes[put.name], put.uid)
    ensures FateOf(st, b, id, trash) == FateOf(e, b, id, trash)
  {}

  /** What becomes of an item does not depend on those before it. */
  lemma SameFate(e: State, st: State, b: nat, done: seq<nat>, id: nat, trash: Option<string>)
    requires Ready(e, b) && Midway(e, st, b, done, trash) && Waiting(st.rows, b, id)
    ensures OfMessage(st, b, id) && (StillHolds(st.rows.folders, st.rows.items[id - 1]) ==> TakenThere(st.server, st.rows, id))
    ensures PutOf(st.rows, id) == PutOf(e.rows, id) && DestinationOf(st.rows, b, trash) == DestinationOf(e.rows, b, trash)
    ensures FateOf(st, b, id, trash) == FateOf(e, b, id, trash)
  {
    assert OfMessage(e, b, id);
    RowsAreSame(e.rows, st.rows, b, done, id, trash);
    if PutOf(e.rows, id).name in e.server.boxes && StillHolds(e.rows.folders, e.rows.items[id - 1]) {
      MailIsSame(e, st, b, done, id, trash);
    }
    FateByWhatIsSeen(e, st, b, id, trash);
  }

  /** Reflecting one change leaves every verdict on another message as it was. */
  lemma OthersHold(f: Folder, item: Item, operation: Operation, other: Item)
    requires operation != Discard && other.message.Some?
    requires item.premise.generation != other.premise.generation || item.premise.uid != other.premise.uid
    ensures Holds(Reflected(f, item, operation), other) <==> Holds(f, other)
  {}

  lemma ReflectedKeepsRow(f: Folder, item: Item, operation: Operation)
    requires operation != Discard
    ensures SameFolder(f, Reflected(f, item, operation))
  {}

  lemma OtherStays(e: State, rows: World, b: nat, done: seq<nat>, id: nat, other: nat, did: bool)
    requires Ready(e, b) && RowsAlike(e.rows, rows, b, done) && Waiting(rows, b, id) && Waiting(rows, b, other) && other != id
    ensures var v := ApplyingOne(rows, id, did);
            && Waiting(v, b, other) && v.items[other - 1] == e.rows.items[other - 1]
            && (StillHolds(v.folders, e.rows.items[other - 1]) <==> StillHolds(e.rows.folders, e.rows.items[other - 1]))
  {
    var item, second := e.rows.items[id - 1], e.rows.items[other - 1];
    var f, operation := rows.folders[item.folder], rows.bundles[b].operation;
    assert OfMessage(e, b, id) && OfMessage(e, b, other);
    if did && StillHolds(rows.folders, item) && second.folder == item.folder {
      assert SameFolder(e.rows.folders[item.folder], f) && Current(e.rows, id);
      assert Current(e.rows, other) ==> PutOf(e.rows, id) != PutOf(e.rows, other);
      OthersHold(f, item, operation, second);
    }
  }

  lemma RowsStayAlike(e: State, rows: World, b: nat, done: seq<nat>, id: nat, did: bool)
    requires Ready(e, b) && RowsAlike(e.rows, rows, b, done) && Waiting(rows, b, id)
    ensures RowsAlike(e.rows, ApplyingOne(rows, id, did), b, done + [id])
  {
    var v, item := ApplyingOne(rows, id, did), e.rows.items[id - 1];
    assert OfMessage(e, b, id);
    forall other: nat ensures Waiting(v, b, other) <==> Waiting(e.rows, b, other) && other !in done + [id] {
      if Waiting(rows, b, other) && other != id {
        OtherStays(e, rows, b, done, id, other, did);
      }
    }
    forall other: nat | Waiting(v, b, other)
      ensures v.items[other - 1] == e.rows.items[other - 1]
      ensures StillHolds(v.folders, e.rows.items[other - 1]) <==> StillHolds(e.rows.folders, e.rows.items[other - 1])
    {
      assert other != id && Waiting(rows, b, other);
      OtherStays(e, rows, b, done, id, other, did);
    }
    forall k | 0 <= k < |e.rows.folders| ensures SameFolder(e.rows.folders[k], v.folders[k]) {
      ReflectedKeepsRow(rows.folders[item.folder], item, rows.bundles[b].operation);
      assert SameFolder(e.rows.folders[k], rows.folders[k]);
    }
  }

  lemma HitsMore(e: State, b: nat, done: seq<nat>, id: nat, trash: Option<string>)
    requires AllOfMessages(e, b, done) && OfMessage(e, b, id)
    ensures AllOfMessages(e, b, done + [id])
    ensures var hits, put := HitsOf(e, b, done, trash), PutOf(e.rows, id);
            HitsOf(e, b, done + [id], trash) == if FateOf(e, b, id, trash) == Made then hits + {put} else hits
    ensures var news, put := CopiesOf(e, b, done, trash), PutOf(e.rows, id);
            CopiesOf(e, b, done + [id], trash) == if Copies(e.rows.bundles[b].operation, FateOf(e, b, id, trash)) then news + [put] else news
  {
    assert (done + [id])[..|done + [id]| - 1] == done;
  }

  /** The item may be carried out now exactly as it would have been then. */
  lemma WorksNow(e: State, st: State, b: nat, done: seq<nat>, id: nat, trash: Option<string>)
    requires Ready(e, b) && Midway(e, st, b, done, trash) && Waiting(st.rows, b, id)
    ensures OfMessage(e, b, id)
    ensures var operation, put, dest, fate := e.rows.bundles[b].operation, PutOf(e.rows, id), DestinationOf(e.rows, b, trash), FateOf(e, b, id, trash);
            && (fate == Half || fate == Made ==>
                  && CanWork(st.server, operation, put, dest) && CanWork(e.server, operation, put, dest)
                  && put !in HitsOf(e, b, done, trash))
            && (fate == Half ==> Once.Moves(operation))
            && ApplyItem(st, b, id, trash).state.server == Worked(st.server, operation, put, dest, fate)
  {
    assert OfMessage(e, b, id) && (Current(e.rows, id) ==> RestsOn(e.server, e.rows, id));
    SameFate(e, st, b, done, id, trash);
    FateIs(st, b, id, trash);
    FateWorks(st, b, id, trash);
    FateWorks(e, b, id, trash);
    if FateOf(e, b, id, trash) == Half || FateOf(e, b, id, trash) == Made {
      assert StillHolds(e.rows.folders, e.rows.items[id - 1]) && Current(e.rows, id);
      NotHit(e, st, b, done, id, trash);
    }
  }

  lemma ServerMidway(e: State, st: State, b: nat, done: seq<nat>, id: nat, trash: Option<string>)
    requires Ready(e, b) && Midway(e, st, b, done, trash) && Waiting(st.rows, b, id) && AllOfMessages(e, b, done + [id])
    ensures Shows(e.server, ApplyItem(st, b, id, trash).state.server, e.rows.bundles[b].operation, DestinationOf(e.rows, b, trash),
                  HitsOf(e, b, done + [id], trash), CopiesOf(e, b, done + [id], trash))
  {
    WorksNow(e, st, b, done, id, trash);
    HitsMore(e, b, done, id, trash);
    WorkedShows(e.server, st.server, e.rows.bundles[b].operation, DestinationOf(e.rows, b, trash), HitsOf(e, b, done, trash),
                CopiesOf(e, b, done, trash), PutOf(e.rows, id), FateOf(e, b, id, trash));
  }

  lemma RowsMidway(e: State, st: State, b: nat, done: seq<nat>, id: nat, trash: Option<string>)
    requires Ready(e, b) && Midway(e, st, b, done, trash) && Waiting(st.rows, b, id)
    requires !ApplyItem(st, b, id, trash).failed
    ensures var v := ApplyItem(st, b, id, trash).state;
            && AllOfMessages(e, b, done + [id]) && RowsAlike(e.rows, v.rows, b, done + [id])
            && v.rows.items == st.rows.items[id - 1 := st.rows.items[id - 1].(status := if FateOf(e, b, id, trash) == Made then Applied else Stale)]
  {
    SameFate(e, st, b, done, id, trash);
    FateIs(st, b, id, trash);
    RowsStayAlike(e, st.rows, b, done, id, FateOf(e, b, id, trash) == Made);
  }

  /** One item further. */
  lemma MidwayOn(e: State, st: State, b: nat, done: seq<nat>, id: nat, trash: Option<string>)
    requires Ready(e, b) && Midway(e, st, b, done, trash) && Waiting(st.rows, b, id)
    requires !ApplyItem(st, b, id, trash).failed
    ensures Midway(e, ApplyItem(st, b, id, trash).state, b, done + [id], trash)
  {
    RowsMidway(e, st, b, done, id, trash);
    ServerMidway(e, st, b, done, id, trash);
    OneMoreMet(e, st.rows.items, b, done, id, trash);
  }

  lemma AtTheStart(e: State, b: nat, trash: Option<string>)
    requires Ready(e, b)
    ensures Midway(e, e, b, [], trash)
  {
    forall name | name in e.server.boxes
      ensures BoxShows(e.server.boxes[name], e.server.boxes[name], name, e.rows.bundles[b].operation, e.server.canMove, {})
      ensures NewsShow(e.server, e.server.boxes[name], e.server.boxes[name], [])
    {}
    assert HitsOf(e, b, [], trash) == {};
  }

  /** The run stopped at an item that could not be reached, or got through. */
  ghost predicate StoppedAt(e: State, b: nat, ids: seq<nat>, run: Progress, trash: Option<string>) {
    && run.done <= |ids| && (run.failed <==> run.done < |ids|)
    && (run.failed ==> OfMessage(e, b, ids[run.done]) && FateOf(e, b, ids[run.done], trash) == Unreached)
  }

  lemma StoppedLater(e: State, b: nat, ids: seq<nat>, rest: Progress, trash: Option<string>)
    requires ids != [] && StoppedAt(e, b, ids[1..], rest, trash)
    ensures StoppedAt(e, b, ids, rest.(done := rest.done + 1), trash)
  {}

  /** What a run of the items leaves behind. */
  ghost predicate RanTo(e: State, b: nat, done: seq<nat>, ids: seq<nat>, run: Progress, trash: Option<string>)
    requires b < |e.rows.bundles|
  {
    StoppedAt(e, b, ids, run, trash) && Midway(e, run.state, b, done + ids[..run.done], trash)
  }

  lemma RanLater(e: State, b: nat, done: seq<nat>, ids: seq<nat>, rest: Progress, trash: Option<string>)
    requires b < |e.rows.bundles| && ids != [] && RanTo(e, b, done + [ids[0]], ids[1..], rest, trash)
    ensures RanTo(e, b, done, ids, rest.(done := rest.done + 1), trash)
  {
    StoppedLater(e, b, ids, rest, trash);
    assert done + [ids[0]] + ids[1..][..rest.done] == done + ids[..rest.done + 1];
  }

  lemma RanNowhere(e: State, st: State, b: nat, done: seq<nat>, ids: seq<nat>, trash: Option<string>)
    requires Ready(e, b) && Midway(e, st, b, done, trash) && b < |st.rows.bundles|
    requires ids == [] || (Waiting(st.rows, b, ids[0]) && ApplyItem(st, b, ids[0], trash).failed)
    ensures RanTo(e, b, done, ids, ApplyAll(st, b, ids, trash), trash)
  {
    assert done + ids[..0] == done;
    if ids != [] {
      SameFate(e, st, b, done, ids[0], trash);
      FateIs(st, b, ids[0], trash);
      assert OfMessage(e, b, ids[0]);
    }
  }

  lemma {:induction false} RunShows(e: State, st: State, b: nat, done: seq<nat>, ids: seq<nat>, trash: Option<string>)
    requires Ready(e, b) && Midway(e, st, b, done, trash) && b < |st.rows.bundles|
    requires Growth.NoDup(ids) && forall id <- ids :: Waiting(st.rows, b, id)
    ensures RanTo(e, b, done, ids, ApplyAll(st, b, ids, trash), trash)
    decreases |ids|
  {
    assert ids != [] ==> ids[0] in ids;
    if ids == [] || ApplyItem(st, b, ids[0], trash).failed {
      RanNowhere(e, st, b, done, ids, trash);
    } else {
      var one := ApplyItem(st, b, ids[0], trash);
      MidwayOn(e, st, b, done, ids[0], trash);
      RunRest(e, st, b, done, ids, trash);
      RunShows(e, one.state, b, done + [ids[0]], ids[1..], trash);
      RanLater(e, b, done, ids, ApplyAll(one.state, b, ids[1..], trash), trash);
    }
  }

  lemma RunRest(e: State, st: State, b: nat, done: seq<nat>, ids: seq<nat>, trash: Option<string>)
    requires Ready(e, b) && Midway(e, st, b, done, trash) && b < |st.rows.bundles| && ids != []
    requires Growth.NoDup(ids) && (forall id <- ids :: Waiting(st.rows, b, id)) && !ApplyItem(st, b, ids[0], trash).failed
    requires Midway(e, ApplyItem(st, b, ids[0], trash).state, b, done + [ids[0]], trash)
    ensures forall id <- ids[1..] :: Waiting(ApplyItem(st, b, ids[0], trash).state.rows, b, id)
  {
    forall k | 1 <= k < |ids| ensures Waiting(ApplyItem(st, b, ids[0], trash).state.rows, b, ids[k]) {
      assert ids[k] in ids && ids[k] != ids[0] && ids[k] !in done + [ids[0]];
    }
  }

  lemma OrderedOnce(rows: World, b: nat)
    requires b < |rows.bundles|
    ensures Growth.NoDup(InOrder(rows, b))
  {
    var keys, ids := KeysOf(rows, b), InOrder(rows, b);
    Resume.OrderedIsSorted(rows, b, |rows.items|);
    forall i, j | 0 <= i < j < |ids| ensures ids[i] != ids[j] {
      assert Before(keys, ids[i], ids[j]);
      Resume.KeyBeforeOneWay(keys[ids[i] - 1], keys[ids[j] - 1]);
    }
  }
}
