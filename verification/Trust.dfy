/** The whole life of a folder's rows. */
module Trust {
  import opened Common
  import opened Mailbox
  import opened Sync
  import opened SyncSafety
  import opened SyncExact
  import opened Freshness
  import opened Identity
  import opened Review
  import opened Client
  import Once
  import ReviewSafety

  // The rows through everything that is ever done to them: syncs (`imap/sync.py`), what applying a bundle reflects
  // in them (`_update_cache` of `imap/apply.py`), folders discarded, wanted back (`resolve_target` of
  // `suggest/model.py`) and listed again, the server changing all the while.

  // ------------------------------------------------------------------ lives

  /** What may be done to the rows of a folder.  An attempt cut off before its first commit is the server, or
      the runner's other commands, being given time. */
  datatype Deed =
    | Syncing(attempt: Attempt)
    | Applying(item: Item, operation: Operation, canMove: bool, counts: bool)
    | Reviving
    | Relisting(name: string, delimiter: Option<char>, special: bool)

  /** The server has the folder: what `discover_containers` and `_ensure_target_exists` write. */
  function Relisted(f: Folder, name: string, delimiter: Option<char>, special: bool): Folder {
    f.(row := f.row.(name := name, delimiter := delimiter, special := special, made := true, discarded := false))
  }

  ghost function After(f: Folder, at: nat -> Box, call: nat, d: Deed): Commit
    requires Served(at)
  {
    match d
    case Syncing(a) => AfterAttempt(f, at, call, a)
    case Applying(item, operation, _, _) => Commit(Reflected(f, item, operation), call + 1)
    case Reviving => Commit(Revived(f), call)
    case Relisting(name, delimiter, special) => Commit(Relisted(f, name, delimiter, special), call)
  }

  /** What makes the code do it: an item is applied when it holds and the server has changed its message; only a
      discarded folder is revived. */
  ghost predicate Happens(f: Folder, at: nat -> Box, call: nat, d: Deed) {
    match d
    case Applying(item, operation, canMove, counts) =>
      && Holds(f, item) && (item.message.Some? <==> operation != Discard)
      && (operation != Discard ==>
            at(call + 1) == Once.Command(at(call), operation, item.premise, canMove, false, false, counts, Once.Never).0)
    case Reviving => f.row.discarded
    case _ => true
  }

  // ------------------------------------------------------------------ the two that may do harm

  predicate Marking(d: Deed) { d.Applying? && Once.Moves(d.operation) && !d.canMove }

  /** The server says of the mark that something changed, or says nothing the cache would rely on. */
  predicate MarkNoticed(f: Folder, b: Box, uid: nat, counts: bool) {
    uid !in b.mail || counts || DELETED !in b.mail[uid].flags
    || !(f.row.uidvalidity == Some(b.uidvalidity) && f.row.highest.Some? && b.mail[uid].modseq <= f.row.highest.value)
  }

  /** A message moved by COPY is marked, and that is noticed; a folder that is revived holds nothing. */
  predicate Harmless(f: Folder, b: Box, d: Deed) {
    (Marking(d) ==> MarkNoticed(f, b, d.item.premise.uid, d.counts)) && (d.Reviving? ==> HoldsNothing(f))
  }

  /** A change of flags, reflected. */
  lemma FlagsKeep(f: Folder, b: Box, item: Item, operation: Operation, counts: bool)
    requires Synced(f, b) && Check(f, item.premise) == Fresh && (operation.AddFlag? || operation.RemoveFlag?)
    ensures Synced(Reflected(f, item, operation), Stored(b, item.premise.uid, operation, counts))
  {}

  lemma UnchangedKeeps(f: Folder, b: Box, item: Item, operation: Operation)
    requires Synced(f, b) && Check(f, item.premise) == Fresh && (operation.AddFlag? || operation.RemoveFlag?)
    requires StoreDeclined(b, item.premise.uid, item.premise.modseq)
    ensures Synced(Reflected(f, item, operation), b)
  {}

  /** A message that has left. */
  lemma MovedKeeps(f: Folder, b: Box, item: Item, operation: Operation)
    requires Synced(f, b) && Check(f, item.premise) == Fresh && Once.Moves(operation)
    ensures Synced(Reflected(f, item, operation), MovedOut(b, item.premise.uid))
  {}

  lemma MarkedKeepsExactly(f: Folder, b: Box, item: Item, operation: Operation, counts: bool)
    requires Synced(f, b) && Check(f, item.premise) == Fresh && Once.Moves(operation)
    ensures Synced(Reflected(f, item, operation), MarkedDeleted(b, item.premise.uid, counts)) <==> MarkNoticed(f, b, item.premise.uid, counts)
  {
    var g, u := Reflected(f, item, operation), item.premise.uid;
    if !MarkNoticed(f, b, u, counts) {
      assert b.mail[u].flags + {DELETED} == b.mail[u].flags;
      assert !Mirrors(g, b, u);
    }
  }

  lemma RevivedKeepsExactly(f: Folder, b: Box)
    requires Synced(f, b)
    ensures Synced(Revived(f), b) <==> HoldsNothing(f)
  {
    if HoldsNothing(f) && f.row.uidvalidity == Some(b.uidvalidity) && f.row.highest.Some? {
      forall u | u in b.mail ensures b.mail[u].modseq > f.row.highest.value {
        assert !Mirrors(f, b, u);
      }
    }
  }

  lemma AppliedKeepsExactly(f: Folder, at: nat -> Box, call: nat, d: Deed)
    requires History(at) && Synced(f, at(call)) && d.Applying? && Happens(f, at, call, d)
    ensures Synced(After(f, at, call, d).folder, at(call + 1)) <==> Harmless(f, at(call), d)
  {
    var item, b := d.item, at(call);
    assert Later(b, at(call + 1));
    match d.operation
    case Discard => SyncedLater(f, b, at(call + 1));
    case Move => AppliedMove(f, b, d);
    case Delete => AppliedMove(f, b, d);
    case _ =>
      if StoreDeclined(b, item.premise.uid, item.premise.modseq) {
        UnchangedKeeps(f, b, item, d.operation);
      } else {
        FlagsKeep(f, b, item, d.operation, d.counts);
      }
  }

  lemma AppliedMove(f: Folder, b: Box, d: Deed)
    requires Synced(f, b) && d.Applying? && Once.Moves(d.operation) && Check(f, d.item.premise) == Fresh
    ensures Synced(Reflected(f, d.item, d.operation),
                   Once.Command(b, d.operation, d.item.premise, d.canMove, false, false, d.counts, Once.Never).0)
            <==> Harmless(f, b, d)
  {
    if d.canMove {
      MovedKeeps(f, b, d.item, d.operation);
    } else {
      MarkedKeepsExactly(f, b, d.item, d.operation, d.counts);
    }
  }

  /** Whatever is done to the rows of a folder leaves the cache as trustworthy as it was, but for those two
      cases, and in those it does not. */
  lemma DeedKeepsExactly(f: Folder, at: nat -> Box, call: nat, d: Deed)
    requires History(at) && Synced(f, at(call)) && Happens(f, at, call, d)
    ensures var c := After(f, at, call, d);
            c.call >= call && (Synced(c.folder, at(c.call)) <==> Harmless(f, at(call), d))
  {
    match d
    case Syncing(a) => AttemptKeepsWatermark(f, at, call, a);
    case Applying(_, _, _, _) => AppliedKeepsExactly(f, at, call, d);
    case Reviving => RevivedKeepsExactly(f, at(call));
    case Relisting(_, _, _) =>
  }

  // ------------------------------------------------------------------ whole lives

  ghost function Through(f: Folder, at: nat -> Box, call: nat, deeds: seq<Deed>): Commit
    requires Served(at)
    decreases deeds
  {
    if deeds == [] then Commit(f, call)
    else
      var c := After(f, at, call, deeds[0]);
      Through(c.folder, at, c.call, deeds[1..])
  }

  ghost predicate Happen(f: Folder, at: nat -> Box, call: nat, deeds: seq<Deed>)
    requires Served(at)
    decreases deeds
  {
    deeds != [] ==>
      Happens(f, at, call, deeds[0]) && var c := After(f, at, call, deeds[0]); Happen(c.folder, at, c.call, deeds[1..])
  }

  ghost predicate DoNoHarm(f: Folder, at: nat -> Box, call: nat, deeds: seq<Deed>)
    requires Served(at)
    decreases deeds
  {
    deeds != [] ==>
      Harmless(f, at(call), deeds[0]) && var c := After(f, at, call, deeds[0]); DoNoHarm(c.folder, at, c.call, deeds[1..])
  }

  /** A life that leaves the cache to be trusted. */
  ghost predicate Lived(f: Folder, at: nat -> Box, call: nat, deeds: seq<Deed>)
    requires Served(at)
  {
    Happen(f, at, call, deeds) && DoNoHarm(f, at, call, deeds)
  }

  /** The watermark through any number of syncs, each cut off after any of its commits, and everything else,
      while the server changes between any two calls. */
  lemma {:induction false} LivesStaySynced(f: Folder, at: nat -> Box, call: nat, deeds: seq<Deed>)
    requires History(at) && Synced(f, at(call)) && Lived(f, at, call, deeds)
    ensures var end := Through(f, at, call, deeds); end.call >= call && Synced(end.folder, at(end.call))
    decreases deeds
  {
    if deeds != [] {
      DeedKeepsExactly(f, at, call, deeds[0]);
      var c := After(f, at, call, deeds[0]);
      LivesStaySynced(c.folder, at, c.call, deeds[1..]);
    }
  }

  ghost predicate SyncedAfter(f: Folder, at: nat -> Box, call: nat, deeds: seq<Deed>)
    requires Served(at)
  {
    var end := Through(f, at, call, deeds); Synced(end.folder, at(end.call))
  }

  /** And it holds all the way exactly if there was no harm on the way. */
  lemma {:induction false} SyncedThroughoutExactly(f: Folder, at: nat -> Box, call: nat, deeds: seq<Deed>)
    requires History(at) && Synced(f, at(call)) && Happen(f, at, call, deeds)
    ensures DoNoHarm(f, at, call, deeds) <==> forall k: nat :: k <= |deeds| ==> SyncedAfter(f, at, call, deeds[..k])
    decreases deeds
  {
    if deeds == [] {
      assert forall k: nat :: k <= |deeds| ==> deeds[..k] == [];
    } else {
      var c := After(f, at, call, deeds[0]);
      DeedKeepsExactly(f, at, call, deeds[0]);
      forall k: nat | 1 <= k <= |deeds| ensures SyncedAfter(f, at, call, deeds[..k]) <==> SyncedAfter(c.folder, at, c.call, deeds[1..][..k - 1]) {
        assert deeds[..k][1..] == deeds[1..][..k - 1];
      }
      if Harmless(f, at(call), deeds[0]) {
        SyncedThroughoutExactly(c.folder, at, c.call, deeds[1..]);
        if forall k: nat :: k <= |deeds| ==> SyncedAfter(f, at, call, deeds[..k]) {
          forall k: nat | k <= |deeds[1..]| ensures SyncedAfter(c.folder, at, c.call, deeds[1..][..k]) {
            assert SyncedAfter(f, at, call, deeds[..k + 1]);
          }
        }
      } else {
        assert deeds[1..][..0] == [] && !SyncedAfter(f, at, call, deeds[..1]);
      }
    }
  }

  /** A row that nothing has been read into: listed for the first time, or proposed as a target. */
  predicate New(f: Folder) { f.row.uidvalidity.None? && f.row.highest.None? && f.places == map[] && !f.row.discarded }

  /** Whatever has become of a folder since its row was made: right after a sync that nobody disturbed, either way
      of syncing has left the same rows, they show the server's messages and nothing else, and every verdict is the server's. */
  lemma SyncTellsTheTruth(f: Folder, at: nat -> Box, call: nat, deeds: seq<Deed>, force: bool, b: Box, p: Premise)
    requires History(at) && New(f) && Lived(f, at, call, deeds) && Quiet(at, Through(f, at, call, deeds).call, b)
    ensures var end := Through(f, at, call, deeds);
            var g := Ends(end.folder, at, end.call, force);
            && g == Ends(end.folder, at, end.call, true)
            && View(g) == ServerView(b, g.row.generation)
            && var known := end.folder.row.uidvalidity;
            && g.row.generation == end.folder.row.generation + (if known.Some? && known.value != b.uidvalidity then 1 else 0)
            && g.row.uidvalidity == Some(b.uidvalidity) && g.row.count == |b.mail|
            && Check(g, p) == Truth(b, g.row.generation, p)
  {
    assert Valid(at(call));
    LivesStaySynced(f, at, call, deeds);
    var end := Through(f, at, call, deeds);
    assert at(end.call) == b;
    IncrementalRefinesFull(end.folder, at, end.call, b);
    SyncIsExact(end.folder, at, end.call, force, b);
    VerdictsAreTrue(end.folder, at, end.call, force, b, p);
  }

  // ------------------------------------------------------------------ when no harm is done

  predicate EmptyIfDiscarded(f: Folder) { f.row.discarded ==> HoldsNothing(f) }

  /** No discarded row is synced before its folder is listed again. */
  ghost predicate NotReadWhileDiscarded(f: Folder, at: nat -> Box, call: nat, deeds: seq<Deed>)
    requires Served(at)
    decreases deeds
  {
    deeds != [] ==>
      && (deeds[0].Syncing? && deeds[0].attempt.cut > 0 ==> !f.row.discarded)
      && var c := After(f, at, call, deeds[0]);
      NotReadWhileDiscarded(c.folder, at, c.call, deeds[1..])
  }

  lemma ReflectedStaysEmpty(f: Folder, item: Item, operation: Operation)
    requires Holds(f, item) && (item.message.Some? <==> operation != Discard) && EmptyIfDiscarded(f)
    ensures EmptyIfDiscarded(Reflected(f, item, operation))
  {}

  ghost predicate SameFlag(t: seq<Commit>, discarded: bool) { forall c <- t :: c.folder.row.discarded == discarded }

  lemma {:induction false} BatchesKeepFlag(c: Commit, at: nat -> Box, todo: seq<nat>)
    ensures var t := Batches(c.folder, at, c.call, todo);
            SameFlag(t, c.folder.row.discarded) && LastOf(c, t).folder.row.discarded == c.folder.row.discarded
    decreases |todo|
  {
    if todo != [] {
      var cut := if |todo| < FETCH_BATCH then |todo| else FETCH_BATCH;
      var d := NextBatch(c, at, todo, cut);
      AbsorbedExactly(c.folder, at(c.call), todo[..cut], Slot(0, 0));
      BatchesKeepFlag(d, at, todo[cut..]);
      LastOfMore(c, d, Batches(d.folder, at, d.call, todo[cut..]));
    }
  }

  lemma TraceKeepsFlag(f: Folder, at: nat -> Box, call: nat, force: bool)
    requires Served(at)
    ensures SameFlag(Trace(f, at, call, force), f.row.discarded)
  {
    var selected := Select(at(call));
    if UseCondstore(f, selected, force) {
      AbsorbedExactly(f, at(call + 1), ChangedSince(at(call + 1), f.row.highest.value), Slot(0, 0));
    } else {
      var c := Commit(Begin(f, selected), call + 2);
      BatchesKeepFlag(c, at, Uids(at(call + 1)));
      FullTrace(f, at, call, force);
      var t := Trace(f, at, call, force);
      assert t == [t[0]] + t[1..];
    }
  }

  /** A sync neither discards a folder nor takes it back. */
  lemma SyncKeepsFlag(f: Folder, at: nat -> Box, call: nat, a: Attempt)
    requires Served(at)
    ensures AfterAttempt(f, at, call, a).folder.row.discarded == f.row.discarded
  {
    TraceKeepsFlag(f, at, call, a.force);
  }

  /** Where a server without MOVE counts every mark, and no row is read while it is discarded, no harm is done. */
  lemma {:induction false} NoHarmIsDone(f: Folder, at: nat -> Box, call: nat, deeds: seq<Deed>)
    requires Served(at) && EmptyIfDiscarded(f) && Happen(f, at, call, deeds)
    requires NotReadWhileDiscarded(f, at, call, deeds) && (forall d <- deeds :: Marking(d) ==> d.counts)
    ensures DoNoHarm(f, at, call, deeds)
    decreases deeds
  {
    if deeds != [] {
      var d := deeds[0];
      assert d in deeds;
      match d {
        case Syncing(a) => SyncKeepsFlag(f, at, call, a);
        case Applying(item, operation, _, _) => ReflectedStaysEmpty(f, item, operation);
        case Reviving =>
        case Relisting(_, _, _) =>
      }
      var c := After(f, at, call, d);
      NoHarmIsDone(c.folder, at, c.call, deeds[1..]);
    }
  }

  // ------------------------------------------------------------------ the harm that is done

  /** The cache says of a message it relies on that it left: asking what changed leaves it so, reading everything does not. */
  lemma HiddenStaysHidden(g: Folder, b: Box, u: nat)
    requires Valid(b) && b.condstore && u in b.mail && Here(g, u) in g.places && g.places[Here(g, u)].gone
    requires g.row.uidvalidity == Some(b.uidvalidity) && g.row.highest.Some? && b.mail[u].modseq <= g.row.highest.value
    ensures var asked, read := Ends(g, Always(b), 0, false), Ends(g, Always(b), 0, true);
            && asked != read && asked.row.generation == g.row.generation
            && Here(g, u) in asked.places && asked.places[Here(g, u)].gone
  {
    QuietFull(g, Always(b), 0, true, b);
    ReadAllShows(g, b, Here(g, u));
    AbsorbedExactly(g, b, ChangedSince(b, g.row.highest.value), Here(g, u));
  }

  /** A mark that went unnoticed: the server still has the message and the cache says that it left, until
      something happens to it.  Asking what changed and reading everything then differ, and only then. */
  lemma MarkedAgreesExactly(f: Folder, b: Box, item: Item, operation: Operation, counts: bool)
    requires Synced(f, b) && Check(f, item.premise) == Fresh && Once.Moves(operation)
    ensures var g, m := Reflected(f, item, operation), MarkedDeleted(b, item.premise.uid, counts);
            var asked, read := Ends(g, Always(m), 0, false), Ends(g, Always(m), 0, true);
            && (asked == read <==> MarkNoticed(f, b, item.premise.uid, counts))
            && (asked != read ==> Check(asked, item.premise) == MessageLeft && Truth(m, asked.row.generation, item.premise) == Fresh)
  {
    var g, u := Reflected(f, item, operation), item.premise.uid;
    var m := MarkedDeleted(b, u, counts);
    MarkedKeepsExactly(f, b, item, operation, counts);
    if MarkNoticed(f, b, u, counts) {
      IncrementalRefinesFull(g, Always(m), 0, m);
    } else {
      assert b.mail[u].flags + {DELETED} == b.mail[u].flags && m == b;
      assert Mirrors(f, b, u);
      HiddenStaysHidden(g, b, u);
    }
  }

  /** What a sync of a folder that does not change leaves of one message, and in the row. */
  lemma ReadMirrors(f: Folder, b: Box, force: bool, u: nat)
    requires Synced(f, b) && u in b.mail
    ensures Mirrors(Ends(f, Always(b), 0, force), b, u)
  {
    var g := Ends(f, Always(b), 0, force);
    SyncIsExact(f, Always(b), 0, force, b);
    assert Here(g, u) in ServerView(b, g.row.generation);
    assert Here(g, u) in View(g) && View(g)[Here(g, u)] == ServerView(b, g.row.generation)[Here(g, u)];
  }

  lemma MarkUnnoticed(f: Folder, b: Box, p: Premise)
    requires New(f) && Valid(b) && b.condstore && p.uid in b.mail && DELETED in b.mail[p.uid].flags
    requires p.generation == f.row.generation && p.modseq == Some(b.mail[p.uid].modseq)
    ensures var g := Ends(f, Always(b), 0, true);
            Check(g, p) == Fresh && !MarkNoticed(g, b, p.uid, false) && MarkedDeleted(b, p.uid, false) == b
  {
    SyncIsExact(f, Always(b), 0, true, b);
    ReadMirrors(f, b, true, p.uid);
    assert b.mail[p.uid].flags + {DELETED} == b.mail[p.uid].flags;
  }

  lemma HappenThenHarm(f: Folder, at: nat -> Box, call: nat, d: Deed, e: Deed)
    requires Served(at) && Happens(f, at, call, d)
    requires var c := After(f, at, call, d); Happens(c.folder, at, c.call, e) && !Harmless(c.folder, at(c.call), e)
    ensures Happen(f, at, call, [d, e]) && !DoNoHarm(f, at, call, [d, e])
  {
    var c := After(f, at, call, d);
    var end := After(c.folder, at, c.call, e);
    assert [d, e][1..] == [e] && [e][1..] == [];
    assert Happen(end.folder, at, end.call, []);
    assert Happen(c.folder, at, c.call, [e]) && !DoNoHarm(c.folder, at, c.call, [e]);
  }

  /** It is reached: by any folder with mod-sequences that is read whole, when a message in it that is marked
      already is moved where there is no MOVE, and the server does not count the mark. */
  lemma UnnoticedIsReached(f: Folder, b: Box, item: Item, operation: Operation)
    requires New(f) && Valid(b) && b.condstore && item.message.Some? && Once.Moves(operation)
    requires item.premise.uid in b.mail && DELETED in b.mail[item.premise.uid].flags
    requires item.premise.generation == f.row.generation && item.premise.modseq == Some(b.mail[item.premise.uid].modseq)
    ensures var at, reading := Always(b), Syncing(Attempt(true, |Trace(f, Always(b), 0, true)|, 0));
            var mark := Applying(item, operation, false, false);
            Happen(f, at, 0, [reading, mark]) && !DoNoHarm(f, at, 0, [reading, mark])
  {
    var at, reading := Always(b), Syncing(Attempt(true, |Trace(f, Always(b), 0, true)|, 0));
    MarkUnnoticed(f, b, item.premise);
    assert After(f, at, 0, reading).folder == Ends(f, at, 0, true);
    HappenThenHarm(f, at, 0, reading, Applying(item, operation, false, false));
  }

  predicate ShowsNothing(g: Folder) { forall s <- View(g) :: s.generation != g.row.generation }

  lemma {:induction false} NoneAbove(b: Box, n: nat)
    requires Valid(b)
    ensures UidsBelow(b, Some(b.highest), n) == []
  {
    if n > 0 {
      NoneAbove(b, n - 1);
    }
  }

  lemma RevivedAsksInVain(f: Folder, b: Box)
    requires Valid(b) && b.condstore && OnlyCurrentLive(f)
    requires f.row.uidvalidity == Some(b.uidvalidity) && f.row.highest == Some(b.highest)
    ensures ShowsNothing(Ends(Revived(f), Always(b), 0, false))
  {
    var r := Revived(f);
    NoneAbove(b, b.uidnext);
    assert Changes(r, b) == r;
    assert Ends(r, Always(b), 0, false) == Closed(r, Uids(b), Select(b));
  }

  lemma ReadRow(f: Folder, b: Box, force: bool)
    requires Synced(f, b) && b.condstore
    ensures var read := Ends(f, Always(b), 0, force);
            OnlyCurrentLive(read) && read.row.uidvalidity == Some(b.uidvalidity) && read.row.highest == Some(b.highest)
  {
    var read, t := Ends(f, Always(b), 0, force), Trace(f, Always(b), 0, force);
    SyncIsExact(f, Always(b), 0, force, b);
    SyncKeepsWatermark(f, Always(b), 0, force);
    assert Last(t) in t && SyncedFrom(read, Always(b), Last(t).call - 1) && Synced(read, Always(b)(Last(t).call));
  }

  /** A discarded folder that somebody made again and a sync then read, wanted back before it is listed: the
      revival leaves its messages behind, and asking what changed brings none of them. */
  lemma RevivedUnread(f: Folder, b: Box, force: bool)
    requires Synced(f, b) && b.condstore
    ensures var read := Ends(f, Always(b), 0, force);
            && ShowsNothing(Ends(Revived(read), Always(b), 0, false))
            && (b.mail != map[] ==> !HoldsNothing(read))
  {
    ReadRow(f, b, force);
    RevivedAsksInVain(Ends(f, Always(b), 0, force), b);
    if b.mail != map[] {
      var u :| u in b.mail;
      ReadMirrors(f, b, force, u);
    }
  }

  // ------------------------------------------------------------------ names

  lemma DeedDescends(f: Folder, at: nat -> Box, call: nat, d: Deed)
    requires Served(at)
    ensures Descends(f, After(f, at, call, d).folder)
  {
    if d.Syncing? {
      AttemptDescends(f, at, call, d.attempt);
    }
  }

  /** Whatever is done to them, slots name the messages they named, and one generation knows one UIDVALIDITY. */
  lemma {:induction false} LifeDescends(f: Folder, at: nat -> Box, call: nat, deeds: seq<Deed>)
    requires Served(at)
    ensures Descends(f, Through(f, at, call, deeds).folder)
    decreases deeds
  {
    if deeds != [] {
      DeedDescends(f, at, call, deeds[0]);
      var c := After(f, at, call, deeds[0]);
      LifeDescends(c.folder, at, c.call, deeds[1..]);
      DescendsTrans(f, c.folder, Through(c.folder, at, c.call, deeds[1..]).folder);
    }
  }

  /** No sync starts where a change of UIDVALIDITY would go unnoticed. */
  ghost predicate AnchoredThroughout(f: Folder, at: nat -> Box, call: nat, deeds: seq<Deed>)
    requires Served(at)
    decreases deeds
  {
    Anchored(f) &&
    (deeds != [] ==>
       var c := After(f, at, call, deeds[0]);
       AnchoredThroughout(c.folder, at, c.call, deeds[1..]))
  }

  /** A folder whose UIDVALIDITY has been stored once never needs the condition again. */
  lemma {:induction false} KnownIsAnchored(f: Folder, at: nat -> Box, call: nat, deeds: seq<Deed>)
    requires Served(at) && f.row.uidvalidity.Some?
    ensures AnchoredThroughout(f, at, call, deeds)
    decreases deeds
  {
    if deeds != [] {
      DeedDescends(f, at, call, deeds[0]);
      var c := After(f, at, call, deeds[0]);
      KnownIsAnchored(c.folder, at, c.call, deeds[1..]);
    }
  }

  lemma NamedLater(f: Folder, a: Box, b: Box)
    requires Named(f, a) && Later(a, b)
    ensures Named(f, b)
  {}

  lemma DeedKeepsNames(f: Folder, at: nat -> Box, call: nat, d: Deed)
    requires History(at) && Synced(f, at(call)) && Named(f, at(call)) && Anchored(f)
    requires Happens(f, at, call, d) && Harmless(f, at(call), d)
    ensures var c := After(f, at, call, d); c.call >= call && Synced(c.folder, at(c.call)) && Named(c.folder, at(c.call))
  {
    DeedKeepsExactly(f, at, call, d);
    if d.Syncing? {
      AttemptKeepsNames(f, at, call, d.attempt);
    } else if d.Applying? {
      assert Later(at(call), at(call + 1));
      NamedLater(f, at(call), at(call + 1));
    }
  }

  /** Through syncs cut off anywhere, and everything else, while the folder is changed, deleted and made again. */
  lemma {:induction false} NamesStayRight(f: Folder, at: nat -> Box, call: nat, deeds: seq<Deed>)
    requires History(at) && Synced(f, at(call)) && Named(f, at(call))
    requires Lived(f, at, call, deeds) && AnchoredThroughout(f, at, call, deeds)
    ensures var end := Through(f, at, call, deeds);
            && end.call >= call && Synced(end.folder, at(end.call))
            && Named(end.folder, at(end.call)) && Anchored(end.folder)
    decreases deeds
  {
    if deeds != [] {
      DeedKeepsNames(f, at, call, deeds[0]);
      var c := After(f, at, call, deeds[0]);
      NamesStayRight(c.folder, at, c.call, deeds[1..]);
    }
  }

  /** An item proposed from a folder whose UIDVALIDITY was known, whatever had become of the folder by then, and
      found fresh right after a sync, whatever has become of it since: it is still about the very same message. */
  lemma FreshIsTheSame(f: Folder, at: nat -> Box, call: nat, before: seq<Deed>, proposed: Commit, since: seq<Deed>,
                       force: bool, b: Box, p: Premise)
    requires History(at) && New(f) && Lived(f, at, call, before) && AnchoredThroughout(f, at, call, before)
    requires proposed == Through(f, at, call, before) && proposed.folder.row.uidvalidity.Some? && Pins(proposed.folder, p)
    requires Lived(proposed.folder, at, proposed.call, since)
    requires Quiet(at, Through(proposed.folder, at, proposed.call, since).call, b)
    ensures var end := Through(proposed.folder, at, proposed.call, since);
            Check(Ends(end.folder, at, end.call, force), p) == Fresh ==> SameMessage(proposed.folder, at(proposed.call), b, p)
  {
    assert Valid(at(call));
    NamesStayRight(f, at, call, before);
    if Check(Ends(Through(proposed.folder, at, proposed.call, since).folder, at, Through(proposed.folder, at, proposed.call, since).call, force), p) == Fresh {
      FreshSince(proposed.folder, at, proposed.call, since, force, b, p);
    }
  }

  lemma FreshSince(f: Folder, at: nat -> Box, call: nat, since: seq<Deed>, force: bool, b: Box, p: Premise)
    requires History(at) && Synced(f, at(call)) && Named(f, at(call)) && f.row.uidvalidity.Some? && Pins(f, p)
    requires Lived(f, at, call, since) && Quiet(at, Through(f, at, call, since).call, b)
    requires var end := Through(f, at, call, since); Check(Ends(end.folder, at, end.call, force), p) == Fresh
    ensures SameMessage(f, at(call), b, p)
  {
    var end := Through(f, at, call, since);
    var g, t := Ends(end.folder, at, end.call, force), Trace(end.folder, at, end.call, force);
    KnownIsAnchored(f, at, call, since);
    NamesStayRight(f, at, call, since);
    LifeDescends(f, at, call, since);
    TraceDescends(end.folder, at, end.call, force);
    assert Last(t) in t && Descends(end.folder, g);
    DescendsTrans(f, end.folder, g);
    assert at(end.call) == b;
    FreshNow(end.folder, at, end.call, force, b, p);
    assert Later(at(call), b);
    PinsThen(f, at(call), p);
  }

  // ------------------------------------------------------------------ nothing else is done to the rows

  /** What a step of the review may do to the rows of one folder: the parts of a sync, or one of the deeds. */
  predicate Touched(f: Folder, g: Folder, w: World, op: Op) {
    || g == f
    || (op.StartSync? && g == Begin(f, op.selected))
    || (op.AbsorbMore? && g == AbsorbAll(f, op.infos))
    || (op.CloseSync? && g == Closed(f, op.present, op.selected))
    || (op.ApplyOne? && 1 <= op.id <= |w.items| && w.items[op.id - 1].bundle < |w.bundles|
          && w.items[op.id - 1].status == Accepted && op.did && Holds(f, w.items[op.id - 1])
          && g == Reflected(f, w.items[op.id - 1], w.bundles[w.items[op.id - 1].bundle].operation))
    || (op.Propose? && f.row.discarded && g == Revived(f))
    || ((op.MakeTarget? || op.Discover?) && g == Relisted(f, g.row.name, g.row.delimiter, g.row.special))
  }

  ghost predicate OnlyRelisted(a: seq<Folder>, b: seq<Folder>) {
    && |a| <= |b|
    && (forall i :: 0 <= i < |a| ==> b[i] == a[i] || b[i] == Relisted(a[i], b[i].row.name, b[i].row.delimiter, b[i].row.special))
    && (forall i :: |a| <= i < |b| ==> New(b[i]))
  }

  lemma {:induction false} DiscoveredRelists(folders: seq<Folder>, listed: seq<Listed>)
    ensures OnlyRelisted(folders, Discovered(folders, listed))
    decreases listed
  {
    if listed != [] {
      var next := Adopted(folders, listed[0]);
      assert OnlyRelisted(folders, next);
      DiscoveredRelists(next, listed[1..]);
      var after := Discovered(folders, listed);
      forall i | |folders| <= i < |after| ensures New(after[i]) {
        assert i < |next| ==> New(next[i]);
      }
    }
  }

  lemma {:induction false} ExpiringKeepsFolders(w: World, now: nat, n: nat)
    requires n <= |w.bundles|
    ensures Expiring(w, now, n).folders == w.folders
  {
    if n > 0 {
      ExpiringKeepsFolders(w, now, n - 1);
    }
  }

  /** Deciding leaves the folders alone. */
  lemma DecidingTouchesNothing(w: World, op: Op)
    requires !op.Propose? && !ReviewSafety.ByRunner(op)
    ensures Review.Step(w, op).folders == w.folders
  {
    if op.ExpireDue? {
      ExpiringKeepsFolders(w, op.now, |w.bundles|);
    }
  }

  lemma ProposingTouches(w: World, op: Op, i: nat)
    requires op.Propose?
    ensures i < |w.folders| ==> i < |Review.Step(w, op).folders| && Touched(w.folders[i], Review.Step(w, op).folders[i], w, op)
    ensures |w.folders| <= i < |Review.Step(w, op).folders| ==> New(Review.Step(w, op).folders[i])
  {
    var v := Review.Step(w, op);
    assert v == w || v.folders == Resolved(w.folders, op.target).value.0;
  }

  /** Every step there is, and every folder; a row that a step adds is new. */
  lemma StepsAreDeeds(w: World, op: Op, i: nat)
    ensures i < |w.folders| ==> i < |Review.Step(w, op).folders| && Touched(w.folders[i], Review.Step(w, op).folders[i], w, op)
    ensures |w.folders| <= i < |Review.Step(w, op).folders| ==> New(Review.Step(w, op).folders[i])
  {
    if op.Discover? {
      DiscoveredRelists(w.folders, op.listed);
      assert OnlyRelisted(w.folders, Review.Step(w, op).folders);
    } else if op.Propose? {
      ProposingTouches(w, op, i);
    } else if !ReviewSafety.ByRunner(op) {
      DecidingTouchesNothing(w, op);
    }
  }
}
