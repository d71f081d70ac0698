/** Bringing the cache into step with a folder: `imap/sync.py`. */
module Sync {
  import opened Common
  import opened Mailbox

  // The folder changes while it is read.  The server is a history: what the folder is at each call the client makes.
  // A run of `sync_container` is the list of states it would leave in the database if it stopped there.

  const FETCH_BATCH := 200

  /** A row of the container table.  `made` is `exists_on_server`. */
  datatype Container = Container(name: string, delimiter: Option<char>, special: bool,
                                 uidvalidity: Option<nat>, highest: Option<nat>, count: nat, generation: nat,
                                 made: bool, discarded: bool)

  datatype Slot = Slot(generation: nat, uid: nat)

  /** `message` stands for the message row, which is found or made by content key. */
  datatype Placement = Placement(message: nat, flags: Flags, modseq: Option<nat>, gone: bool)

  datatype Folder = Folder(row: Container, places: map<Slot, Placement>)

  function Here(f: Folder, uid: nat): Slot { Slot(f.row.generation, uid) }

  // ------------------------------------------------------------------ the parts of a sync

  /** `_absorb`: an existing placement keeps the message it was made for. */
  function Absorb(f: Folder, info: Info): Folder {
    var slot := Here(f, info.uid);
    var message := if slot in f.places then f.places[slot].message else info.key;
    f.(places := f.places[slot := Placement(message, info.flags, info.modseq, false)])
  }

  function AbsorbAll(f: Folder, infos: seq<Info>): Folder
    decreases infos
  {
    if infos == [] then f else AbsorbAll(Absorb(f, infos[0]), infos[1..])
  }

  function Vanish(p: Placement): Placement { p.(gone := true) }

  /** `_mark_vanished`. */
  function MarkVanished(f: Folder, present: seq<nat>): Folder {
    f.(places := map s | s in f.places ::
         if s.generation == f.row.generation && s.uid !in present then Vanish(f.places[s]) else f.places[s])
  }

  /** The slots that stop being live. */
  function Vanishing(f: Folder, present: seq<nat>): set<Slot> {
    set s | s in f.places && s.generation == f.row.generation && !f.places[s].gone && s.uid !in present
  }

  /** The half of `break_identity` that is about the folder: a new generation, and nothing of the old one live. */
  function BreakIdentity(f: Folder, uidvalidity: nat): Folder {
    Folder(f.row.(generation := f.row.generation + 1, uidvalidity := Some(uidvalidity), highest := None),
           map s | s in f.places :: if s.generation == f.row.generation then Vanish(f.places[s]) else f.places[s])
  }

  predicate IdentityBroken(f: Folder, selected: Selected) {
    f.row.uidvalidity.Some? && f.row.uidvalidity.value != selected.uidvalidity
  }

  function Begin(f: Folder, selected: Selected): Folder {
    if IdentityBroken(f, selected) then BreakIdentity(f, selected.uidvalidity) else f
  }

  function Finish(f: Folder, selected: Selected): Folder {
    f.(row := f.row.(uidvalidity := Some(selected.uidvalidity), highest := selected.highest, count := selected.count))
  }

  predicate UseCondstore(f: Folder, selected: Selected, force: bool) {
    !force && !IdentityBroken(f, selected) && f.row.highest.Some? && selected.highest.Some?
  }

  /** A state a sync may leave behind, and the number of the next call to the server after it. */
  datatype Commit = Commit(folder: Folder, call: nat)

  /** The batches of a full sync, one commit each. */
  function Batches(f: Folder, at: nat -> Box, call: nat, todo: seq<nat>): seq<Commit>
    decreases |todo|
  {
    if todo == [] then []
    else
      var n := if |todo| < FETCH_BATCH then |todo| else FETCH_BATCH;
      var g := AbsorbAll(f, Fetch(at(call), todo[..n]));
      [Commit(g, call + 1)] + Batches(g, at, call + 1, todo[n..])
  }

  function LastOf(first: Commit, more: seq<Commit>): Commit { if more == [] then first else Last(more) }

  ghost predicate Served(at: nat -> Box) { forall i :: Valid(at(i)) }

  /** Anything may happen between two calls, and nothing is ever undone. */
  ghost predicate History(at: nat -> Box) { Served(at) && forall i, j {:trigger Later(at(i), at(j))} :: i <= j ==> Later(at(i), at(j)) }

  /** What a server with CONDSTORE says has changed, folded in. */
  function Changes(f: Folder, b: Box): Folder
    requires Valid(b) && f.row.highest.Some?
  {
    AbsorbAll(f, Fetch(b, ChangedSince(b, f.row.highest.value)))
  }

  /** What left is marked, and only then do the watermarks move. */
  function Closed(f: Folder, present: seq<nat>, selected: Selected): Folder {
    Finish(MarkVanished(f, present), selected)
  }

  /** `sync_container` from its `call`-th call on.  The first state is what the database holds if a
      mailbox that stopped answering was noted before anything was absorbed. */
  ghost function Trace(f: Folder, at: nat -> Box, call: nat, force: bool): (t: seq<Commit>)
    requires Served(at)
    ensures t != []
  {
    var selected := Select(at(call));
    var first := Commit(Begin(f, selected), call + 1);
    if UseCondstore(f, selected, force) then
      var g := Changes(f, at(call + 1));
      [first, Commit(g, call + 2), Commit(Closed(g, Uids(at(call + 2)), selected), call + 3)]
    else
      var present := Uids(at(call + 1));
      var batches := Batches(first.folder, at, call + 2, present);
      var last := LastOf(first.(call := call + 2), batches);
      [first] + batches + [Commit(Closed(last.folder, present, selected), last.call)]
  }

  function IncrementalStates(f: Folder, at: nat -> Box, call: nat, selected: Selected): seq<Folder>
    requires Valid(at(call + 1)) && Valid(at(call + 2)) && f.row.highest.Some?
  {
    var g := Changes(f, at(call + 1));
    [g, Closed(g, Uids(at(call + 2)), selected)]
  }

  function FullStates(f: Folder, at: nat -> Box, call: nat, selected: Selected): seq<Folder>
    requires Valid(at(call + 1))
  {
    var present := Uids(at(call + 1));
    var batches := Batches(f, at, call + 2, present);
    Folders(batches) + [Closed(LastOf(Commit(f, call + 2), batches).folder, present, selected)]
  }

  lemma TraceStates(f: Folder, at: nat -> Box, call: nat, force: bool)
    requires Served(at)
    ensures var selected := Select(at(call));
            Folders(Trace(f, at, call, force)[1..]) ==
              if UseCondstore(f, selected, force) then IncrementalStates(f, at, call, selected)
              else FullStates(Begin(f, selected), at, call, selected)
  {
    var selected := Select(at(call));
    if !UseCondstore(f, selected, force) {
      var present := Uids(at(call + 1));
      var batches := Batches(Begin(f, selected), at, call + 2, present);
      var t := Trace(f, at, call, force);
      assert t[1..] == batches + [Last(t)];
      FoldersAppend(batches, [Last(t)]);
    }
  }

  /** One attempt: what it was asked, after how many commits it was cut off, and how many calls other
      clients of the connection make before the next. */
  datatype Attempt = Attempt(force: bool, cut: nat, skip: nat)

  ghost function AfterAttempt(f: Folder, at: nat -> Box, call: nat, a: Attempt): Commit
    requires Served(at)
  {
    var t := Trace(f, at, call, a.force);
    if a.cut == 0 then Commit(f, call + a.skip)
    else
      var c := t[(if a.cut < |t| then a.cut else |t|) - 1];
      c.(call := c.call + a.skip)
  }

  /** Those of `todo` are still to be looked at. */
  ghost predicate MarkedSoFar(f: Folder, present: seq<nat>, places: map<Slot, Placement>, todo: set<Slot>) {
    && todo <= f.places.Keys && places.Keys == f.places.Keys
    && forall s <- f.places :: places[s] == if s in Vanishing(f, present) && s !in todo then Vanish(f.places[s]) else f.places[s]
  }

  lemma MarkOne(f: Folder, present: seq<nat>, places: map<Slot, Placement>, todo: set<Slot>, s: Slot)
    requires MarkedSoFar(f, present, places, todo) && s in todo
    ensures s in places && places[s] == f.places[s]
    ensures var leaves := s.generation == f.row.generation && !places[s].gone && s.uid !in present;
            && MarkedSoFar(f, present, if leaves then places[s := Vanish(places[s])] else places, todo - {s})
            && |Vanishing(f, present) - (todo - {s})| == |Vanishing(f, present) - todo| + (if leaves then 1 else 0)
  {
    var all := Vanishing(f, present);
    assert all - (todo - {s}) == if s in all then (all - todo) + {s} else all - todo;
  }

  // ------------------------------------------------------------------ the cache as it is written

  /** The rows of one folder.  `log` is every state that was committed, in order: a crash goes back to its last. */
  class FolderCache {
    var row: Container
    var places: map<Slot, Placement>
    ghost var log: seq<Folder>

    function Rows(): Folder
      reads this
    {
      Folder(row, places)
    }

    method AbsorbOne(info: Info) returns (created: bool)
      modifies this`places
      ensures Rows() == Absorb(old(Rows()), info)
      ensures created <==> Here(old(Rows()), info.uid) !in old(places)
    {
      var slot := Slot(row.generation, info.uid);
      created := slot !in places;
      if created {
        places := places[slot := Placement(info.key, {}, None, false)];
      }
      places := places[slot := places[slot].(flags := info.flags, modseq := info.modseq, gone := false)];
    }

    /** `absorb`: fold a batch in and commit. */
    method AbsorbBatch(infos: seq<Info>)
      modifies this
      ensures Rows() == AbsorbAll(old(Rows()), infos)
      ensures log == old(log) + [Rows()]
    {
      for i := 0 to |infos|
        invariant AbsorbAll(old(Rows()), infos) == AbsorbAll(Rows(), infos[i..])
        invariant log == old(log)
      {
        assert infos[i..][0] == infos[i] && infos[i..][1..] == infos[i + 1..];
        var _ := AbsorbOne(infos[i]);
      }
      log := log + [Rows()];
    }

    method MarkAbsent(present: seq<nat>) returns (vanished: nat)
      modifies this`places
      ensures Rows() == MarkVanished(old(Rows()), present)
      ensures vanished == |Vanishing(old(Rows()), present)|
    {
      ghost var before := Rows();
      var todo := places.Keys;
      vanished := 0;
      while todo != {}
        invariant MarkedSoFar(before, present, places, todo)
        invariant vanished == |Vanishing(before, present) - todo|
      {
        var s :| s in todo;
        MarkOne(before, present, places, todo, s);
        todo := todo - {s};
        if s.generation == row.generation && !places[s].gone && s.uid !in present {
          places := places[s := places[s].(gone := true)];
          vanished := vanished + 1;
        }
      }
    }

    method Break(uidvalidity: nat)
      modifies this`row, this`places
      ensures Rows() == BreakIdentity(old(Rows()), uidvalidity)
    {
      places := map s | s in places :: if s.generation == row.generation then places[s].(gone := true) else places[s];
      row := row.(generation := row.generation + 1, uidvalidity := Some(uidvalidity), highest := None);
    }

    /** The end of `sync_container`, and the commit its caller makes after it. */
    method Close(present: seq<nat>, selected: Selected)
      modifies this
      ensures Rows() == Closed(old(Rows()), present, selected)
      ensures log == old(log) + [Rows()]
    {
      var _ := MarkAbsent(present);
      row := row.(uidvalidity := Some(selected.uidvalidity), highest := selected.highest, count := selected.count);
      log := log + [Rows()];
    }

    /** `sync_container`. */
    method SyncContainer(at: nat -> Box, call: nat, force: bool) returns (full: bool, broken: bool)
      requires Served(at)
      modifies this
      ensures log == old(log) + Folders(Trace(old(Rows()), at, call, force)[1..])
      ensures Rows() == Last(log)
      ensures broken == IdentityBroken(old(Rows()), Select(at(call)))
      ensures full == !UseCondstore(old(Rows()), Select(at(call)), force)
    {
      var selected := Select(at(call));
      broken := row.uidvalidity.Some? && selected.uidvalidity != row.uidvalidity.value;
      if broken {
        Break(selected.uidvalidity);
      }
      full := force || broken || row.highest.None? || selected.highest.None?;
      TraceStates(old(Rows()), at, call, force);
      if full {
        FullPass(at, call, selected);
      } else {
        IncrementalPass(at, call, selected);
      }
    }

    method IncrementalPass(at: nat -> Box, call: nat, selected: Selected)
      requires Valid(at(call + 1)) && Valid(at(call + 2)) && row.highest.Some?
      modifies this
      ensures log == old(log) + IncrementalStates(old(Rows()), at, call, selected)
      ensures Rows() == Last(log)
    {
      AbsorbBatch(Fetch(at(call + 1), ChangedSince(at(call + 1), row.highest.value)));
      Close(Uids(at(call + 2)), selected);
    }

    method FullPass(at: nat -> Box, call: nat, selected: Selected)
      requires Valid(at(call + 1))
      modifies this
      ensures log == old(log) + FullStates(old(Rows()), at, call, selected)
      ensures Rows() == Last(log)
    {
      var present := Uids(at(call + 1));
      AbsorbInBatches(at, call + 2, present);
      Close(present, selected);
    }

    method AbsorbInBatches(at: nat -> Box, call: nat, present: seq<nat>)
      modifies this
      ensures log == old(log) + Folders(Batches(old(Rows()), at, call, present))
      ensures Rows() == LastOf(Commit(old(Rows()), call), Batches(old(Rows()), at, call, present)).folder
    {
      var start, k := 0, call;
      ghost var done: seq<Commit> := [];
      ghost var first := Commit(Rows(), call);
      assert present[0..] == present;
      while start < |present|
        invariant start <= |present|
        invariant SoFar(first, at, call, present, done, Rows(), k, start)
        invariant log == old(log) + Folders(done)
      {
        var stop := if |present| - start < FETCH_BATCH then |present| else start + FETCH_BATCH;
        BatchStep(first, at, call, present, done, Rows(), k, start, stop);
        AbsorbBatch(Fetch(at(k), present[start..stop]));
        start, k := stop, k + 1;
        FoldersAppend(done, [Commit(Rows(), k)]);
        done := done + [Commit(Rows(), k)];
      }
    }
  }

  /** Part of the batches are done, the rest would start from here. */
  ghost predicate SoFar(first: Commit, at: nat -> Box, call: nat, present: seq<nat>, done: seq<Commit>, f: Folder, k: nat, start: nat)
    requires start <= |present|
  {
    && Batches(first.folder, at, call, present) == done + Batches(f, at, k, present[start..])
    && LastOf(first, done).folder == f
  }

  lemma BatchStep(first: Commit, at: nat -> Box, call: nat, present: seq<nat>, done: seq<Commit>, f: Folder, k: nat, start: nat, stop: nat)
    requires start < |present| && stop == if |present| - start < FETCH_BATCH then |present| else start + FETCH_BATCH
    requires SoFar(first, at, call, present, done, f, k, start)
    ensures var g := AbsorbAll(f, Fetch(at(k), present[start..stop]));
            SoFar(first, at, call, present, done + [Commit(g, k + 1)], g, k + 1, stop)
  {
    var todo := present[start..];
    assert todo[..stop - start] == present[start..stop] && todo[stop - start..] == present[stop..];
    var g := AbsorbAll(f, Fetch(at(k), present[start..stop]));
    assert done + ([Commit(g, k + 1)] + Batches(g, at, k + 1, present[stop..]))
        == (done + [Commit(g, k + 1)]) + Batches(g, at, k + 1, present[stop..]);
  }

  function Folders(commits: seq<Commit>): seq<Folder> {
    seq(|commits|, i requires 0 <= i < |commits| => commits[i].folder)
  }

  lemma FoldersAppend(a: seq<Commit>, b: seq<Commit>)
    ensures Folders(a + b) == Folders(a) + Folders(b)
  {}
}
