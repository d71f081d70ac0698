/** Which message a slot of the cache names, while folders are deleted and made again on the server. */
module Identity {
  import opened Common
  import opened Mailbox
  import opened Sync
  import opened SyncSafety
  import opened SyncExact
  import opened Freshness

  // ------------------------------------------------------------------ what is claimed

  /** The slot is for the message the server has, or had, at that UID. */
  predicate Names(p: Placement, uid: nat, b: Box) {
    && uid < b.uidnext && (uid in b.mail ==> p.message == b.mail[uid].key)
    && (p.modseq.Some? ==> p.modseq.value <= b.highest)
  }

  /** While the server's UIDVALIDITY is `v`, the slots of the current generation are for its messages. */
  ghost predicate Agrees(f: Folder, v: nat, b: Box) {
    && Valid(b) && v <= b.uidvalidity
    && (b.uidvalidity == v ==> forall s <- f.places :: s.generation == f.row.generation ==> Names(f.places[s], s.uid, b))
  }

  ghost predicate Named(f: Folder, b: Box) {
    f.row.uidvalidity.Some? ==> Agrees(f, f.row.uidvalidity.value, b)
  }

  /** Whether a change of UIDVALIDITY would be noticed before it could do harm. */
  predicate Anchored(f: Folder) {
    f.row.uidvalidity.Some? || forall s <- f.places :: s.generation != f.row.generation
  }

  /** The state of one run of `sync_container` that selected a folder of UIDVALIDITY `v`, from the i-th call on. */
  ghost predicate Rightly(f: Folder, v: nat, at: nat -> Box, i: nat) {
    && (f.row.uidvalidity.Some? ==> f.row.uidvalidity.value == v)
    && forall n :: n >= i ==> Agrees(f, v, at(n))
  }

  lemma RightlyOnwards(f: Folder, v: nat, at: nat -> Box, i: nat)
    requires History(at) && Agrees(f, v, at(i)) && (f.row.uidvalidity.Some? ==> f.row.uidvalidity.value == v)
    ensures Rightly(f, v, at, i)
  {
    forall n | n >= i ensures Agrees(f, v, at(n)) {
      assert Later(at(i), at(n));
    }
  }

  lemma AbsorbAgrees(f: Folder, v: nat, b: Box, uids: seq<nat>)
    requires Agrees(f, v, b)
    ensures Agrees(AbsorbAll(f, Fetch(b, uids)), v, b)
  {
    var g := AbsorbAll(f, Fetch(b, uids));
    AbsorbedExactly(f, b, uids, Slot(0, 0));
    forall s | s in g.places && s.generation == g.row.generation && b.uidvalidity == v ensures Names(g.places[s], s.uid, b) {
      AbsorbedExactly(f, b, uids, s);
    }
  }

  lemma AbsorbRightly(f: Folder, v: nat, at: nat -> Box, i: nat, k: nat, uids: seq<nat>)
    requires History(at) && Rightly(f, v, at, i) && i <= k
    ensures Rightly(AbsorbAll(f, Fetch(at(k), uids)), v, at, k)
  {
    AbsorbAgrees(f, v, at(k), uids);
    AbsorbedExactly(f, at(k), uids, Slot(0, 0));
    RightlyOnwards(AbsorbAll(f, Fetch(at(k), uids)), v, at, k);
  }

  lemma BeginRightly(f: Folder, at: nat -> Box, call: nat)
    requires History(at) && Anchored(f) && Named(f, at(call))
    requires forall s <- f.places :: s.generation <= f.row.generation
    ensures Rightly(Begin(f, Select(at(call))), at(call).uidvalidity, at, call)
  {
    RightlyOnwards(Begin(f, Select(at(call))), at(call).uidvalidity, at, call);
  }

  ghost predicate AllRightly(t: seq<Commit>, v: nat, at: nat -> Box) {
    forall c <- t :: c.call >= 1 && Rightly(c.folder, v, at, c.call - 1)
  }

  lemma RightlyThen(t: seq<Commit>, c: Commit, v: nat, at: nat -> Box)
    requires c.call >= 1 && Rightly(c.folder, v, at, c.call - 1) && AllRightly(t, v, at)
    ensures AllRightly(t + [c], v, at)
  {}

  lemma {:induction false} BatchesRightly(c: Commit, v: nat, at: nat -> Box, todo: seq<nat>)
    requires History(at) && c.call >= 1 && Rightly(c.folder, v, at, c.call - 1)
    ensures var t := Batches(c.folder, at, c.call, todo);
            AllRightly(t, v, at) && LastOf(c, t).call >= 1 && Rightly(LastOf(c, t).folder, v, at, LastOf(c, t).call - 1)
    decreases |todo|
  {
    if todo != [] {
      var cut := if |todo| < FETCH_BATCH then |todo| else FETCH_BATCH;
      var d := NextBatch(c, at, todo, cut);
      AbsorbRightly(c.folder, v, at, c.call - 1, c.call, todo[..cut]);
      BatchesRightly(d, v, at, todo[cut..]);
      var more := Batches(d.folder, at, d.call, todo[cut..]);
      LastOfMore(c, d, more);
      assert Batches(c.folder, at, c.call, todo) == [d] + more;
    }
  }

  lemma FullRightly(f: Folder, at: nat -> Box, call: nat, force: bool)
    requires History(at) && !UseCondstore(f, Select(at(call)), force)
    requires Rightly(Begin(f, Select(at(call))), at(call).uidvalidity, at, call)
    ensures AllRightly(Trace(f, at, call, force)[1..], at(call).uidvalidity, at)
  {
    var v, selected, present := at(call).uidvalidity, Select(at(call)), Uids(at(call + 1));
    var c := Commit(Begin(f, selected), call + 2);
    BatchesRightly(c, v, at, present);
    var batches := Batches(c.folder, at, c.call, present);
    var last := LastOf(c, batches);
    RightlyThen(batches, Commit(Closed(last.folder, present, selected), last.call), v, at);
    FullTrace(f, at, call, force);
  }

  lemma IncrementalRightly(f: Folder, at: nat -> Box, call: nat)
    requires History(at) && UseCondstore(f, Select(at(call)), false)
    requires Rightly(f, at(call).uidvalidity, at, call)
    ensures AllRightly(Trace(f, at, call, false)[1..], at(call).uidvalidity, at)
  {
    var v, h := at(call).uidvalidity, Changes(f, at(call + 1));
    AbsorbRightly(f, v, at, call, call + 1, ChangedSince(at(call + 1), f.row.highest.value));
    assert Rightly(h, v, at, call + 2);
  }

  /** Every state of a run that starts anchored. */
  lemma SyncRightly(f: Folder, at: nat -> Box, call: nat, force: bool)
    requires History(at) && Anchored(f) && Named(f, at(call)) && OnlyCurrentLive(f)
    ensures AllRightly(Trace(f, at, call, force), at(call).uidvalidity, at)
  {
    BeginRightly(f, at, call);
    var t := Trace(f, at, call, force);
    assert t == [t[0]] + t[1..];
    if UseCondstore(f, Select(at(call)), force) {
      IncrementalRightly(f, at, call);
    } else {
      FullRightly(f, at, call, force);
    }
  }

  lemma AttemptKeepsNames(f: Folder, at: nat -> Box, call: nat, a: Attempt)
    requires History(at) && Synced(f, at(call)) && Named(f, at(call)) && Anchored(f)
    ensures var c := AfterAttempt(f, at, call, a); c.call >= call && Synced(c.folder, at(c.call)) && Named(c.folder, at(c.call))
  {
    var c := AfterAttempt(f, at, call, a);
    SyncKeepsWatermark(f, at, call, a.force);
    CallsOnlyRise(f, at, call, a.force);
    SyncedOnwards(f, at, call);
    SyncRightly(f, at, call, a.force);
    if a.cut == 0 && f.row.uidvalidity.Some? {
      RightlyOnwards(f, f.row.uidvalidity.value, at, call);
    }
    assert c.folder.row.uidvalidity.Some? ==> Agrees(c.folder, c.folder.row.uidvalidity.value, at(c.call));
  }

  // ------------------------------------------------------------------ what a fresh verdict means

  /** The item's premise, as `_add_messages` writes it down. */
  predicate Pins(f: Folder, p: Premise) {
    var slot := Slot(p.generation, p.uid);
    && p.generation == f.row.generation && slot in f.places && !f.places[slot].gone
    && p.modseq == f.places[slot].modseq && p.flags == f.places[slot].flags
  }

  /** The folder has not been made again since `before`, the UID of the premise still holds the message its
      slot names, and where there are mod-sequences nothing at all has happened to it. */
  predicate SameMessage(f: Folder, before: Box, now: Box, p: Premise) {
    && f.row.uidvalidity == Some(now.uidvalidity) && before.uidvalidity == now.uidvalidity
    && p.uid in now.mail && Slot(p.generation, p.uid) in f.places
    && now.mail[p.uid].key == f.places[Slot(p.generation, p.uid)].message
    && if p.modseq.Some? then p.uid in before.mail && before.mail[p.uid] == now.mail[p.uid] else now.mail[p.uid].flags == p.flags
  }

  lemma FreshNow(f: Folder, at: nat -> Box, call: nat, force: bool, b: Box, p: Premise)
    requires History(at) && Synced(f, b) && Named(f, b) && Anchored(f) && Quiet(at, call, b)
    requires Check(Ends(f, at, call, force), p) == Fresh
    ensures var g := Ends(f, at, call, force); var slot := Slot(p.generation, p.uid);
            && g.row.uidvalidity == Some(b.uidvalidity) && g.row.generation == p.generation && Truth(b, p.generation, p) == Fresh
            && slot in g.places && Names(g.places[slot], p.uid, b)
  {
    var g, t := Ends(f, at, call, force), Trace(f, at, call, force);
    SyncIsExact(f, at, call, force, b);
    VerdictsAreTrue(f, at, call, force, b, p);
    assert at(call) == b;
    SyncRightly(f, at, call, force);
    CallsOnlyRise(f, at, call, force);
    assert Last(t) in t && Rightly(g, b.uidvalidity, at, Last(t).call - 1);
    assert at(Last(t).call) == b && Agrees(g, b.uidvalidity, b);
  }

  lemma PinsThen(f: Folder, before: Box, p: Premise)
    requires Named(f, before) && Pins(f, p) && f.row.uidvalidity == Some(before.uidvalidity)
    ensures Names(f.places[Slot(p.generation, p.uid)], p.uid, before)
  {}

  // ------------------------------------------------------------------ where it goes wrong

  function Always(b: Box): nat -> Box { n => b }

  /** Every message the server holds is filed under the message it is. */
  ghost predicate RightlyNamed(g: Folder, b: Box) {
    forall u <- b.mail :: Here(g, u) in g.places && g.places[Here(g, u)].message == b.mail[u].key
  }

  lemma AnchoredReadsRight(f: Folder, b: Box, now: Box, force: bool)
    requires Anchored(f) && Synced(f, b) && Named(f, b) && Later(b, now)
    ensures RightlyNamed(Ends(f, Always(now), 0, force), now)
  {
    var at := Always(now);
    SyncedLater(f, b, now);
    SyncRightly(f, at, 0, force);
    SyncIsExact(f, at, 0, force, now);
    var t := Trace(f, at, 0, force);
    var g := Ends(f, at, 0, force);
    assert Last(t) in t && Agrees(g, now.uidvalidity, at(Last(t).call));
    forall u | u in now.mail ensures Here(g, u) in g.places && g.places[Here(g, u)].message == now.mail[u].key {
      assert Here(g, u) in ServerView(now, g.row.generation) && Here(g, u) in View(g);
      assert Names(g.places[Here(g, u)], u, now);
    }
  }

  /** The folder made again, with another message at the UID of a slot already filled. */
  function Remade(b: Box, s: Slot, message: nat): Box {
    Box(b.uidvalidity + 1, s.uid + 1, 1, b.condstore, map[s.uid := Mail(message + 1, {}, 1)])
  }

  lemma UnanchoredReadsWrong(f: Folder, b: Box, s: Slot, force: bool)
    requires Synced(f, b) && f.row.uidvalidity.None? && s in f.places && s.generation == f.row.generation
    ensures var now := Remade(b, s, f.places[s].message);
            Later(b, now) && !RightlyNamed(Ends(f, Always(now), 0, force), now)
  {
    var now := Remade(b, s, f.places[s].message);
    SyncedLater(f, b, now);
    QuietFull(f, Always(now), 0, force, now);
    ReadAllShows(f, now, s);
    var g := Ends(f, Always(now), 0, force);
    AbsorbedExactly(f, now, Uids(now), Slot(0, 0));
    assert s == Here(g, s.uid) && g.places[s].message == f.places[s].message;
  }

  /** The first sync of a folder stores its UIDVALIDITY only at its end.  Cut off after a batch, it leaves
      slots that nothing ties to the folder they were read from, and if the folder is made again the next
      sync, complete and undisturbed, files new messages under old ones.  This is exactly the case: the
      rows of a folder survive whatever happens to it on the server if and only if they are anchored. */
  lemma RightAfterEverySyncExactly(f: Folder, b: Box, force: bool)
    requires Synced(f, b) && Agrees(f, if f.row.uidvalidity.Some? then f.row.uidvalidity.value else b.uidvalidity, b)
    ensures Anchored(f) <==> forall now :: Later(b, now) ==> RightlyNamed(Ends(f, Always(now), 0, force), now)
  {
    if Anchored(f) {
      forall now | Later(b, now) ensures RightlyNamed(Ends(f, Always(now), 0, force), now) {
        AnchoredReadsRight(f, b, now, force);
      }
    } else {
      var s :| s in f.places && s.generation == f.row.generation;
      UnanchoredReadsWrong(f, b, s, force);
    }
  }

  lemma FilledIsUnanchored(f: Folder, b: Box, uids: seq<nat>)
    requires f.row.uidvalidity.None? && uids != [] && uids[0] in b.mail
    ensures !Anchored(AbsorbAll(f, Fetch(b, uids)))
  {
    assert uids[0] in uids;
    AbsorbedExactly(f, b, uids, Here(f, uids[0]));
    assert Here(f, uids[0]) in AbsorbAll(f, Fetch(b, uids)).places;
  }

  /** And such a state is reached: by any first sync of a folder with mail in it, cut off after its first batch. */
  lemma FirstSyncCutShort(f: Folder, b: Box, force: bool)
    requires Valid(b) && b.mail != map[]
    requires f.row.uidvalidity.None? && f.row.highest.None? && f.places == map[]
    ensures var g := AfterAttempt(f, Always(b), 0, Attempt(force, 2, 0)).folder;
            Synced(g, b) && Agrees(g, b.uidvalidity, b) && !Anchored(g)
  {
    var uids := Uids(b);
    var u :| u in b.mail;
    assert u in uids && uids[0] in uids;
    var cut := if |uids| < FETCH_BATCH then |uids| else FETCH_BATCH;
    AbsorbKeeps(f, b, uids[..cut]);
    AbsorbAgrees(f, b.uidvalidity, b, uids[..cut]);
    FilledIsUnanchored(f, b, uids[..cut]);
  }
}
