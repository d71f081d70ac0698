/** A sync left alone. */
module SyncExact {
  import opened Common
  import opened Mailbox
  import opened Sync
  import opened SyncSafety

  // A completed sync of a folder that nobody else touches meanwhile: either way of syncing leaves the same
  // rows, and they show exactly what the server holds.

  ghost predicate Quiet(at: nat -> Box, call: nat, b: Box) { forall i :: i >= call ==> at(i) == b }

  /** The rows a sync that runs to its end leaves behind. */
  ghost function Ends(f: Folder, at: nat -> Box, call: nat, force: bool): Folder
    requires Served(at)
  {
    Last(Trace(f, at, call, force)).folder
  }

  // ------------------------------------------------------------------ the batches of a quiet folder are one read

  lemma {:induction false} AbsorbAllAppend(f: Folder, a: seq<Info>, b: seq<Info>)
    ensures AbsorbAll(f, a + b) == AbsorbAll(AbsorbAll(f, a), b)
    decreases a
  {
    if a == [] {
      assert a + b == b;
    } else {
      assert (a + b)[1..] == a[1..] + b;
      AbsorbAllAppend(Absorb(f, a[0]), a[1..], b);
    }
  }

  lemma {:induction false} FetchAppend(b: Box, u: seq<nat>, v: seq<nat>)
    ensures Fetch(b, u + v) == Fetch(b, u) + Fetch(b, v)
    decreases u
  {
    if u == [] {
      assert u + v == v;
    } else {
      assert (u + v)[1..] == u[1..] + v;
      FetchAppend(b, u[1..], v);
    }
  }

  lemma {:induction false} QuietBatches(c: Commit, at: nat -> Box, b: Box, todo: seq<nat>)
    requires Quiet(at, c.call, b)
    ensures LastOf(c, Batches(c.folder, at, c.call, todo)).folder == AbsorbAll(c.folder, Fetch(b, todo))
    decreases |todo|
  {
    if todo != [] {
      var cut := if |todo| < FETCH_BATCH then |todo| else FETCH_BATCH;
      var d := NextBatch(c, at, todo, cut);
      QuietBatches(d, at, b, todo[cut..]);
      LastOfMore(c, d, Batches(d.folder, at, d.call, todo[cut..]));
      assert todo == todo[..cut] + todo[cut..];
      FetchAppend(b, todo[..cut], todo[cut..]);
      AbsorbAllAppend(c.folder, Fetch(b, todo[..cut]), Fetch(b, todo[cut..]));
    }
  }

  function ReadAll(f: Folder, b: Box): Folder
    requires Valid(b)
  {
    Closed(AbsorbAll(f, Fetch(b, Uids(b))), Uids(b), Select(b))
  }

  lemma QuietFull(f: Folder, at: nat -> Box, call: nat, force: bool, b: Box)
    requires Served(at) && Quiet(at, call, b) && !UseCondstore(f, Select(b), force)
    ensures Ends(f, at, call, force) == ReadAll(Begin(f, Select(b)), b)
  {
    assert at(call) == b && at(call + 1) == b;
    QuietBatches(Commit(Begin(f, Select(b)), call + 2), at, b, Uids(b));
  }

  // ------------------------------------------------------------------ what is left at each slot

  /** What the rows of `f` become at one slot once they show `b`. */
  predicate ShownAt(f: Folder, b: Box, g: Folder, s: Slot) {
    var held := s.generation == f.row.generation && s.uid in b.mail;
    && (s in g.places <==> s in f.places || held)
    && (s in g.places ==>
          g.places[s] ==
            if held then
              Placement(if s in f.places then f.places[s].message else b.mail[s.uid].key,
                        b.mail[s.uid].flags, InfoOf(b, s.uid).modseq, false)
            else if s.generation == f.row.generation then Vanish(f.places[s])
            else f.places[s])
  }

  lemma ReadAllShows(f: Folder, b: Box, s: Slot)
    requires Valid(b)
    ensures ShownAt(f, b, ReadAll(f, b), s)
  {
    AbsorbedExactly(f, b, Uids(b), s);
  }

  /** What the server did not report as changed is already shown. */
  lemma ChangesShow(f: Folder, b: Box, s: Slot)
    requires Synced(f, b) && UseCondstore(f, Select(b), false)
    ensures ShownAt(f, b, Closed(Changes(f, b), Uids(b), Select(b)), s)
  {
    AbsorbedExactly(f, b, ChangedSince(b, f.row.highest.value), s);
    if s.generation == f.row.generation && s.uid in b.mail && s.uid !in ChangedSince(b, f.row.highest.value) {
      assert Mirrors(f, b, s.uid);
    }
  }

  lemma ShownAlike(f: Folder, b: Box, g: Folder, h: Folder)
    requires g.row == h.row && forall s :: ShownAt(f, b, g, s) && ShownAt(f, b, h, s)
    ensures g == h
  {
    forall s ensures (s in g.places <==> s in h.places) && (s in g.places ==> g.places[s] == h.places[s]) {
      assert ShownAt(f, b, g, s) && ShownAt(f, b, h, s);
    }
    assert g.places == h.places;
  }

  /** Asking what changed and reading everything leave the same rows. */
  lemma IncrementalRefinesFull(f: Folder, at: nat -> Box, call: nat, b: Box)
    requires Served(at) && Quiet(at, call, b) && Synced(f, b)
    ensures Ends(f, at, call, false) == Ends(f, at, call, true)
  {
    QuietFull(f, at, call, true, b);
    if UseCondstore(f, Select(b), false) {
      var g, h := Ends(f, at, call, false), Ends(f, at, call, true);
      forall s ensures ShownAt(f, b, g, s) && ShownAt(f, b, h, s) {
        ChangesShow(f, b, s);
        ReadAllShows(f, b, s);
      }
      AbsorbedExactly(f, b, ChangedSince(b, f.row.highest.value), Slot(0, 0));
      AbsorbedExactly(f, b, Uids(b), Slot(0, 0));
      ShownAlike(f, b, g, h);
    } else {
      QuietFull(f, at, call, false, b);
    }
  }

  // ------------------------------------------------------------------ the cache is the folder

  /** What the cache says about a live message, but for which message it is. */
  datatype Seen = Seen(flags: Flags, modseq: Option<nat>)

  /** Everything the cache shows as live, whatever its generation. */
  function View(f: Folder): map<Slot, Seen> {
    map s | s in f.places && !f.places[s].gone :: Seen(f.places[s].flags, f.places[s].modseq)
  }

  function ServerView(b: Box, generation: nat): map<Slot, Seen> {
    map u | u in b.mail :: Slot(generation, u) := Seen(b.mail[u].flags, if b.condstore then Some(b.mail[u].modseq) else None)
  }

  /** After a sync of a quiet folder, the cache shows the server's messages, all of them and nothing else. */
  lemma SyncIsExact(f: Folder, at: nat -> Box, call: nat, force: bool, b: Box)
    requires Served(at) && Quiet(at, call, b) && Synced(f, b)
    ensures var g := Ends(f, at, call, force);
            && View(g) == ServerView(b, g.row.generation)
            && g.row.generation == f.row.generation + (if f.row.uidvalidity.Some? && f.row.uidvalidity.value != b.uidvalidity then 1 else 0)
            && g.row.uidvalidity == Some(b.uidvalidity) && g.row.count == |b.mail|
            && g.row.highest == (if b.condstore then Some(b.highest) else None)
  {
    IncrementalRefinesFull(f, at, call, b);
    QuietFull(f, at, call, true, b);
    var start := Begin(f, Select(b));
    BeginKeeps(f, b);
    var g := ReadAll(start, b);
    AbsorbedExactly(start, b, Uids(b), Slot(0, 0));
    ViewIsServers(start, b, g);
  }

  lemma ViewIsServers(f: Folder, b: Box, g: Folder)
    requires Valid(b) && OnlyCurrentLive(f) && g == ReadAll(f, b) && g.row.generation == f.row.generation
    ensures View(g) == ServerView(b, g.row.generation)
  {
    var server := ServerView(b, g.row.generation);
    forall s ensures s in View(g) <==> s in server {
      ReadAllShows(f, b, s);
    }
    forall s | s in server ensures View(g)[s] == server[s] {
      ReadAllShows(f, b, s);
    }
  }

  /** A forced sync asks nothing of what the cache says already: whatever the flags and the mod-sequences in it are,
      it ends right, exactly if no message of a generation that is over is shown as live. */
  lemma ForcedIsRightExactly(f: Folder, at: nat -> Box, call: nat, b: Box)
    requires Served(at) && Quiet(at, call, b) && forall s <- f.places :: s.generation <= f.row.generation
    ensures var g := Ends(f, at, call, true);
            View(g) == ServerView(b, g.row.generation)
            <==> forall s <- f.places :: s.generation < f.row.generation ==> f.places[s].gone
  {
    QuietFull(f, at, call, true, b);
    var start := Begin(f, Select(b));
    var g := ReadAll(start, b);
    AbsorbedExactly(start, b, Uids(b), Slot(0, 0));
    assert g.row.generation == start.row.generation >= f.row.generation;
    if OnlyCurrentLive(f) {
      ViewIsServers(start, b, g);
    } else {
      var s :| s in f.places && !f.places[s].gone && s.generation != f.row.generation;
      ReadAllShows(start, b, s);
      assert s in View(g) && s !in ServerView(b, g.row.generation);
    }
  }

  /** A full sync commits once for every two hundred messages, and once for what is left. */
  lemma {:induction false} BatchesAreFew(f: Folder, at: nat -> Box, call: nat, todo: seq<nat>)
    ensures |Batches(f, at, call, todo)| == (|todo| + 199) / 200
    decreases |todo|
  {
    if |todo| > 200 {
      BatchesAreFew(AbsorbAll(f, Fetch(at(call), todo[..200])), at, call + 1, todo[200..]);
    } else if todo != [] {
      assert todo[|todo|..] == [];
    }
  }
}
