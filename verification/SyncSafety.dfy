/** What a cache may be trusted for: the watermark through every interleaving and every crash, and what
    a completed sync of a quiet folder shows. */
module SyncSafety {
  import opened Common
  import opened Mailbox
  import opened Sync

  // ------------------------------------------------------------------ what is claimed

  /** The cache shows this message live, as the server holds it. */
  predicate Mirrors(f: Folder, b: Box, u: nat) {
    && u in b.mail && Here(f, u) in f.places
    && !f.places[Here(f, u)].gone
    && f.places[Here(f, u)].flags == b.mail[u].flags
    && f.places[Here(f, u)].modseq == InfoOf(b, u).modseq
  }

  /** Every message the server last changed at or below the stored mod-sequence is mirrored. */
  ghost predicate Watermark(f: Folder, b: Box) {
    f.row.uidvalidity == Some(b.uidvalidity) && f.row.highest.Some? ==>
      && b.condstore && f.row.highest.value <= b.highest
      && forall u <- b.mail :: b.mail[u].modseq <= f.row.highest.value ==> Mirrors(f, b, u)
  }

  ghost predicate Synced(f: Folder, b: Box) {
    && Valid(b) && Watermark(f, b)
    && (f.row.uidvalidity.Some? ==> f.row.uidvalidity.value <= b.uidvalidity)
    && (f.row.uidvalidity.None? ==> f.row.highest.None?)
    && OnlyCurrentLive(f)
  }

  /** Nothing of a generation that is over is live, and none is ahead. */
  predicate OnlyCurrentLive(f: Folder) {
    forall s <- f.places :: s.generation <= f.row.generation && (!f.places[s].gone ==> s.generation == f.row.generation)
  }

  /** Nothing the server does by itself breaks it. */
  lemma SyncedLater(f: Folder, a: Box, b: Box)
    requires Synced(f, a) && Later(a, b)
    ensures Synced(f, b)
  {
    if f.row.uidvalidity == Some(b.uidvalidity) && f.row.highest.Some? {
      forall u | u in b.mail && b.mail[u].modseq <= f.row.highest.value ensures Mirrors(f, b, u) {
        assert Mirrors(f, a, u);
      }
    }
  }

  // ------------------------------------------------------------------ what the parts of a sync do

  /** What absorbing leaves at one slot. */
  predicate AbsorbedAt(f: Folder, b: Box, uids: seq<nat>, g: Folder, s: Slot) {
    var hit := s.generation == f.row.generation && s.uid in uids && s.uid in b.mail;
    && (s in g.places <==> s in f.places || hit)
    && (s in g.places ==>
          g.places[s] ==
            if hit then
              Placement(if s in f.places then f.places[s].message else b.mail[s.uid].key,
                        b.mail[s.uid].flags, InfoOf(b, s.uid).modseq, false)
            else f.places[s])
  }

  lemma {:induction false} AbsorbedExactly(f: Folder, b: Box, uids: seq<nat>, s: Slot)
    ensures var g := AbsorbAll(f, Fetch(b, uids)); g.row == f.row && AbsorbedAt(f, b, uids, g, s)
    decreases uids
  {
    if uids != [] {
      var u := uids[0];
      assert uids == [u] + uids[1..];
      if u in b.mail {
        var mid := Absorb(f, InfoOf(b, u));
        var infos := Fetch(b, uids);
        assert infos[0] == InfoOf(b, u) && infos[1..] == Fetch(b, uids[1..]);
        AbsorbedExactly(mid, b, uids[1..], s);
      } else {
        assert Fetch(b, uids) == Fetch(b, uids[1..]);
        AbsorbedExactly(f, b, uids[1..], s);
      }
    }
  }

  lemma AbsorbedMirrors(f: Folder, b: Box, uids: seq<nat>, u: nat)
    requires u in b.mail && (u in uids || Mirrors(f, b, u))
    ensures Mirrors(AbsorbAll(f, Fetch(b, uids)), b, u)
  {
    AbsorbedExactly(f, b, uids, Here(f, u));
  }

  /** Absorbing what the server says now. */
  lemma AbsorbKeeps(f: Folder, b: Box, uids: seq<nat>)
    requires Synced(f, b)
    ensures Synced(AbsorbAll(f, Fetch(b, uids)), b)
  {
    var g := AbsorbAll(f, Fetch(b, uids));
    AbsorbedExactly(f, b, uids, Slot(0, 0));
    forall u | u in b.mail && Mirrors(f, b, u) ensures Mirrors(g, b, u) {
      AbsorbedMirrors(f, b, uids, u);
    }
    forall s | s in g.places ensures s.generation <= g.row.generation && (!g.places[s].gone ==> s.generation == g.row.generation) {
      AbsorbedExactly(f, b, uids, s);
    }
  }

  lemma BeginKeeps(f: Folder, b: Box)
    requires Synced(f, b)
    ensures Synced(Begin(f, Select(b)), b)
  {}

  // ------------------------------------------------------------------ the watermark

  /** A message that has not changed since the folder was selected. */
  predicate Unchanged(selected: Box, now: Box, u: nat) {
    now.uidvalidity == selected.uidvalidity && u in now.mail && now.mail[u].modseq <= selected.highest
  }

  lemma UnchangedBetween(at: nat -> Box, call: nat, i: nat, n: nat, u: nat)
    requires History(at) && call <= i <= n && Unchanged(at(call), at(n), u)
    ensures at(i).uidvalidity == at(n).uidvalidity && u in at(i).mail && at(i).mail[u] == at(n).mail[u]
  {
    assert Later(at(call), at(i)) && Later(at(i), at(n));
  }

  /** From the i-th call on, whatever has not changed since the select is mirrored, but for what is still to do. */
  ghost predicate Covered(f: Folder, at: nat -> Box, call: nat, i: nat, todo: seq<nat>) {
    forall n, u :: n >= i && u !in todo && Unchanged(at(call), at(n), u) ==> Mirrors(f, at(n), u)
  }

  lemma CoverBatch(f: Folder, at: nat -> Box, call: nat, i: nat, todo: seq<nat>, cut: nat)
    requires History(at) && call <= i && cut <= |todo| && Covered(f, at, call, i, todo)
    ensures Covered(AbsorbAll(f, Fetch(at(i + 1), todo[..cut])), at, call, i + 1, todo[cut..])
  {
    var g := AbsorbAll(f, Fetch(at(i + 1), todo[..cut]));
    forall n, u | n >= i + 1 && u !in todo[cut..] && Unchanged(at(call), at(n), u) ensures Mirrors(g, at(n), u) {
      UnchangedBetween(at, call, i + 1, n, u);
      assert at(i + 1).condstore == at(n).condstore by { assert Later(at(i + 1), at(n)); }
      if u !in todo[..cut] {
        assert u !in todo by { assert todo == todo[..cut] + todo[cut..]; }
        assert Mirrors(f, at(n), u);
      }
      AbsorbedMirrors(f, at(i + 1), todo[..cut], u);
    }
  }

  /** The state may be met at any call from `i` on. */
  ghost predicate SyncedFrom(f: Folder, at: nat -> Box, i: nat) { forall n :: n >= i ==> Synced(f, at(n)) }

  lemma SyncedOnwards(f: Folder, at: nat -> Box, i: nat)
    requires History(at) && Synced(f, at(i))
    ensures SyncedFrom(f, at, i)
  {
    forall n | n >= i ensures Synced(f, at(n)) {
      assert Later(at(i), at(n));
      SyncedLater(f, at(i), at(n));
    }
  }

  ghost predicate AllSynced(t: seq<Commit>, at: nat -> Box) {
    forall c <- t :: c.call >= 1 && SyncedFrom(c.folder, at, c.call - 1)
  }

  lemma LastOfMore(first: Commit, c: Commit, more: seq<Commit>)
    ensures LastOf(first, [c] + more) == LastOf(c, more)
  {
    assert more != [] ==> Last([c] + more) == Last(more);
  }

  /** What holds between two batches, the next call being the k-th. */
  ghost predicate Underway(c: Commit, at: nat -> Box, call: nat, todo: seq<nat>) {
    c.call >= call + 2 && SyncedFrom(c.folder, at, c.call - 1) && Covered(c.folder, at, call, c.call - 1, todo)
  }

  function NextBatch(c: Commit, at: nat -> Box, todo: seq<nat>, cut: nat): Commit
    requires cut <= |todo|
  {
    Commit(AbsorbAll(c.folder, Fetch(at(c.call), todo[..cut])), c.call + 1)
  }

  lemma AbsorbKeepsFrom(f: Folder, at: nat -> Box, k: nat, uids: seq<nat>)
    requires History(at) && Synced(f, at(k))
    ensures SyncedFrom(AbsorbAll(f, Fetch(at(k), uids)), at, k)
  {
    AbsorbKeeps(f, at(k), uids);
    SyncedOnwards(AbsorbAll(f, Fetch(at(k), uids)), at, k);
  }

  lemma BatchKeeps(f: Folder, at: nat -> Box, call: nat, i: nat, todo: seq<nat>, cut: nat)
    requires History(at) && call <= i && SyncedFrom(f, at, i) && Covered(f, at, call, i, todo) && cut <= |todo|
    ensures var g := AbsorbAll(f, Fetch(at(i + 1), todo[..cut]));
            SyncedFrom(g, at, i + 1) && Covered(g, at, call, i + 1, todo[cut..])
  {
    CoverBatch(f, at, call, i, todo, cut);
    AbsorbKeepsFrom(f, at, i + 1, todo[..cut]);
  }

  lemma SyncedMore(c: Commit, more: seq<Commit>, at: nat -> Box)
    requires c.call >= 1 && SyncedFrom(c.folder, at, c.call - 1) && AllSynced(more, at)
    ensures AllSynced([c] + more, at)
  {}

  /** What the batches leave behind, and where they end. */
  ghost predicate KeptThrough(c: Commit, t: seq<Commit>, at: nat -> Box, call: nat) {
    AllSynced(t, at) && Underway(LastOf(c, t), at, call, [])
  }

  lemma KeptOneMore(c: Commit, d: Commit, more: seq<Commit>, at: nat -> Box, call: nat, todo: seq<nat>)
    requires Underway(d, at, call, todo) && KeptThrough(d, more, at, call)
    ensures KeptThrough(c, [d] + more, at, call)
  {
    SyncedMore(d, more, at);
    LastOfMore(c, d, more);
  }

  lemma NextUnderway(c: Commit, at: nat -> Box, call: nat, todo: seq<nat>, cut: nat)
    requires History(at) && Underway(c, at, call, todo) && cut <= |todo|
    ensures Underway(NextBatch(c, at, todo, cut), at, call, todo[cut..])
  {
    BatchKeeps(c.folder, at, call, c.call - 1, todo, cut);
  }

  lemma {:induction false} BatchesKeep(c: Commit, at: nat -> Box, call: nat, todo: seq<nat>)
    requires History(at) && Underway(c, at, call, todo)
    ensures KeptThrough(c, Batches(c.folder, at, c.call, todo), at, call)
    decreases |todo|
  {
    if todo != [] {
      var cut := if |todo| < FETCH_BATCH then |todo| else FETCH_BATCH;
      var d := NextBatch(c, at, todo, cut);
      NextUnderway(c, at, call, todo, cut);
      BatchesKeep(d, at, call, todo[cut..]);
      KeptOneMore(c, d, Batches(d.folder, at, d.call, todo[cut..]), at, call, todo[cut..]);
    }
  }

  lemma ClosedMirrors(f: Folder, at: nat -> Box, call: nat, i: nat, j: nat, n: nat, u: nat)
    requires History(at) && call <= j <= i <= n && Covered(f, at, call, i, []) && Unchanged(at(call), at(n), u)
    ensures Mirrors(Closed(f, Uids(at(j)), Select(at(call))), at(n), u)
  {
    assert u !in [] && Mirrors(f, at(n), u);
    UnchangedBetween(at, call, j, n, u);
  }

  lemma ClosedShape(f: Folder, present: seq<nat>, selected: Selected)
    ensures var h := Closed(f, present, selected);
            && (OnlyCurrentLive(f) ==> OnlyCurrentLive(h))
            && h.row.uidvalidity == Some(selected.uidvalidity) && h.row.highest == selected.highest
  {}

  lemma CloseKeeps(f: Folder, at: nat -> Box, call: nat, i: nat, j: nat)
    requires History(at) && call <= j <= i && SyncedFrom(f, at, i) && Covered(f, at, call, i, [])
    ensures SyncedFrom(Closed(f, Uids(at(j)), Select(at(call))), at, i)
  {
    var h := Closed(f, Uids(at(j)), Select(at(call)));
    ClosedShape(f, Uids(at(j)), Select(at(call)));
    forall n | n >= i ensures Synced(h, at(n)) {
      assert Synced(f, at(n)) && Later(at(call), at(n));
      if h.row.uidvalidity == Some(at(n).uidvalidity) && h.row.highest.Some? {
        forall u | u in at(n).mail && at(n).mail[u].modseq <= h.row.highest.value ensures Mirrors(h, at(n), u) {
          ClosedMirrors(f, at, call, i, j, n, u);
        }
      }
    }
  }

  lemma ChangesCover(f: Folder, at: nat -> Box, call: nat)
    requires History(at) && Synced(f, at(call)) && UseCondstore(f, Select(at(call)), false)
    ensures Synced(Changes(f, at(call + 1)), at(call + 1))
    ensures Covered(Changes(f, at(call + 1)), at, call, call + 1, [])
  {
    var b := at(call + 1);
    assert Later(at(call), b);
    SyncedLater(f, at(call), b);
    var uids := ChangedSince(b, f.row.highest.value);
    AbsorbKeeps(f, b, uids);
    forall n, u | n >= call + 1 && Unchanged(at(call), at(n), u) ensures Mirrors(Changes(f, b), at(n), u) {
      UnchangedBetween(at, call, call + 1, n, u);
      assert Later(b, at(n));
      AbsorbedMirrors(f, b, uids, u);
    }
  }

  /** Before the listed messages are read, nothing else needs to be. */
  lemma ListingCovers(f: Folder, at: nat -> Box, call: nat)
    requires History(at)
    ensures Covered(f, at, call, call + 1, Uids(at(call + 1)))
  {
    forall n: nat, u: nat | n >= call + 1 && Unchanged(at(call), at(n), u) ensures u in Uids(at(call + 1)) {
      UnchangedBetween(at, call, call + 1, n, u);
    }
  }

  lemma IncrementalKeeps(f: Folder, at: nat -> Box, call: nat)
    requires History(at) && Synced(f, at(call)) && UseCondstore(f, Select(at(call)), false)
    ensures AllSynced(Trace(f, at, call, false)[1..], at)
  {
    ChangesCover(f, at, call);
    var h := Changes(f, at(call + 1));
    SyncedOnwards(h, at, call + 1);
    assert Covered(h, at, call, call + 2, []);
    CloseKeeps(h, at, call, call + 2, call + 2);
  }

  lemma FullStart(f: Folder, at: nat -> Box, call: nat)
    requires History(at) && Synced(f, at(call))
    ensures Underway(Commit(Begin(f, Select(at(call))), call + 2), at, call, Uids(at(call + 1)))
  {
    BeginKeeps(f, at(call));
    SyncedOnwards(Begin(f, Select(at(call))), at, call);
    ListingCovers(Begin(f, Select(at(call))), at, call);
  }

  lemma FullEnd(c: Commit, at: nat -> Box, call: nat)
    requires History(at) && Underway(c, at, call, [])
    ensures SyncedFrom(Closed(c.folder, Uids(at(call + 1)), Select(at(call))), at, c.call - 1)
  {
    CloseKeeps(c.folder, at, call, c.call - 1, call + 1);
  }

  lemma SyncedThen(t: seq<Commit>, c: Commit, at: nat -> Box)
    requires AllSynced(t, at) && c.call >= 1 && SyncedFrom(c.folder, at, c.call - 1)
    ensures AllSynced(t + [c], at)
  {}

  lemma FullTrace(f: Folder, at: nat -> Box, call: nat, force: bool)
    requires Served(at) && !UseCondstore(f, Select(at(call)), force)
    ensures var c := Commit(Begin(f, Select(at(call))), call + 2);
            var batches := Batches(c.folder, at, c.call, Uids(at(call + 1)));
            var last := LastOf(c, batches);
            Trace(f, at, call, force)[1..] == batches + [Commit(Closed(last.folder, Uids(at(call + 1)), Select(at(call))), last.call)]
  {}

  lemma FullKeeps(f: Folder, at: nat -> Box, call: nat, force: bool)
    requires History(at) && Synced(f, at(call)) && !UseCondstore(f, Select(at(call)), force)
    ensures AllSynced(Trace(f, at, call, force)[1..], at)
  {
    var present := Uids(at(call + 1));
    var c := Commit(Begin(f, Select(at(call))), call + 2);
    FullStart(f, at, call);
    BatchesKeep(c, at, call, present);
    var batches := Batches(c.folder, at, c.call, present);
    var last := LastOf(c, batches);
    FullEnd(last, at, call);
    SyncedThen(batches, Commit(Closed(last.folder, present, Select(at(call))), last.call), at);
    FullTrace(f, at, call, force);
  }

  /** Every state one run of `sync_container` may leave behind keeps the watermark, from the moment it is
      left and for as long as the server goes on changing. */
  lemma SyncKeepsWatermark(f: Folder, at: nat -> Box, call: nat, force: bool)
    requires History(at) && Synced(f, at(call))
    ensures AllSynced(Trace(f, at, call, force), at)
  {
    var t := Trace(f, at, call, force);
    assert t == [t[0]] + t[1..];
    BeginKeeps(f, at(call));
    SyncedOnwards(t[0].folder, at, call);
    if UseCondstore(f, Select(at(call)), force) {
      IncrementalKeeps(f, at, call);
    } else {
      FullKeeps(f, at, call, force);
    }
  }

  lemma AttemptKeepsWatermark(f: Folder, at: nat -> Box, call: nat, a: Attempt)
    requires History(at) && Synced(f, at(call))
    ensures var c := AfterAttempt(f, at, call, a); c.call >= call && Synced(c.folder, at(c.call))
  {
    SyncKeepsWatermark(f, at, call, a.force);
    CallsOnlyRise(f, at, call, a.force);
    SyncedOnwards(f, at, call);
  }

  lemma {:induction false} BatchCallsRise(f: Folder, at: nat -> Box, k: nat, todo: seq<nat>)
    ensures forall c <- Batches(f, at, k, todo) :: c.call > k
    decreases |todo|
  {
    if todo != [] {
      var cut := if |todo| < FETCH_BATCH then |todo| else FETCH_BATCH;
      BatchCallsRise(AbsorbAll(f, Fetch(at(k), todo[..cut])), at, k + 1, todo[cut..]);
    }
  }

  lemma CallsOnlyRise(f: Folder, at: nat -> Box, call: nat, force: bool)
    requires Served(at)
    ensures forall c <- Trace(f, at, call, force) :: c.call > call
  {
    var present := Uids(at(call + 1));
    BatchCallsRise(Begin(f, Select(at(call))), at, call + 2, present);
  }
}
