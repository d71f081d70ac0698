/** What a premise is worth. */
module Freshness {
  import opened Common
  import opened Mailbox
  import opened Sync
  import opened SyncSafety
  import opened SyncExact

  // `check` in `suggest/staleness.py` against the folder as the server has it, and which message a slot of the cache names.

  /** What a message item was computed against. */
  datatype Premise = Premise(generation: nat, uid: nat, modseq: Option<nat>, flags: Flags)

  datatype Verdict = Fresh | FolderRecreated | MessageLeft | MessageChanged | FlagsChanged

  /** `check`, for an item about a message. */
  function Check(f: Folder, p: Premise): Verdict {
    var slot := Slot(p.generation, p.uid);
    if f.row.generation != p.generation then FolderRecreated
    else if slot !in f.places || f.places[slot].gone then MessageLeft
    else if p.modseq.Some? then
      if f.places[slot].modseq != p.modseq then MessageChanged else Fresh
    else if f.places[slot].flags != p.flags then FlagsChanged
    else Fresh
  }

  /** The same question put to the server, for a folder whose generation is known. */
  function Truth(b: Box, generation: nat, p: Premise): Verdict {
    if generation != p.generation then FolderRecreated
    else if p.uid !in b.mail then MessageLeft
    else if p.modseq.Some? then
      if (if b.condstore then Some(b.mail[p.uid].modseq) else None) != p.modseq then MessageChanged else Fresh
    else if b.mail[p.uid].flags != p.flags then FlagsChanged
    else Fresh
  }

  /** Right after a sync of a quiet folder, every verdict is the server's own. */
  lemma VerdictsAreTrue(f: Folder, at: nat -> Box, call: nat, force: bool, b: Box, p: Premise)
    requires Served(at) && Quiet(at, call, b) && Synced(f, b)
    ensures var g := Ends(f, at, call, force); Check(g, p) == Truth(b, g.row.generation, p)
  {
    SyncIsExact(f, at, call, force, b);
    var g := Ends(f, at, call, force);
    var slot := Slot(p.generation, p.uid);
    if g.row.generation == p.generation {
      assert slot in View(g) <==> slot in ServerView(b, p.generation);
      assert slot in View(g) ==> View(g)[slot] == ServerView(b, p.generation)[slot];
    }
  }

  // ------------------------------------------------------------------ what a folder's rows keep

  /** `g` is what became of `f`: its slots still name the messages they named, and one generation knows one UIDVALIDITY. */
  ghost predicate Descends(f: Folder, g: Folder) {
    && f.row.generation <= g.row.generation
    && (f.row.uidvalidity.Some? ==> g.row.uidvalidity.Some?)
    && (f.row.generation == g.row.generation && f.row.uidvalidity.Some? ==> g.row.uidvalidity == f.row.uidvalidity)
    && forall s <- f.places :: s in g.places && g.places[s].message == f.places[s].message
  }

  lemma AbsorbDescends(f: Folder, b: Box, uids: seq<nat>)
    ensures Descends(f, AbsorbAll(f, Fetch(b, uids)))
  {
    AbsorbedExactly(f, b, uids, Slot(0, 0));
    forall s | s in f.places ensures AbsorbedAt(f, b, uids, AbsorbAll(f, Fetch(b, uids)), s) {
      AbsorbedExactly(f, b, uids, s);
    }
  }

  lemma ClosedDescends(f: Folder, present: seq<nat>, selected: Selected)
    requires !IdentityBroken(f, selected)
    ensures Descends(f, Closed(f, present, selected))
  {}

  ghost predicate AllDescend(f: Folder, t: seq<Commit>) { forall c <- t :: Descends(f, c.folder) }

  lemma {:induction false} BatchesDescend(c: Commit, at: nat -> Box, todo: seq<nat>)
    ensures var t := Batches(c.folder, at, c.call, todo);
            && AllDescend(c.folder, t)
            && LastOf(c, t).folder.row == c.folder.row && Descends(c.folder, LastOf(c, t).folder)
    decreases |todo|
  {
    if todo != [] {
      var cut := if |todo| < FETCH_BATCH then |todo| else FETCH_BATCH;
      var d := NextBatch(c, at, todo, cut);
      AbsorbDescends(c.folder, at(c.call), todo[..cut]);
      AbsorbedExactly(c.folder, at(c.call), todo[..cut], Slot(0, 0));
      BatchesDescend(d, at, todo[cut..]);
      LastOfMore(c, d, Batches(d.folder, at, d.call, todo[cut..]));
    }
  }

  lemma DescendsTrans(f: Folder, g: Folder, h: Folder)
    requires Descends(f, g) && Descends(g, h)
    ensures Descends(f, h)
  {}

  lemma IncrementalDescends(f: Folder, at: nat -> Box, call: nat)
    requires Served(at) && UseCondstore(f, Select(at(call)), false)
    ensures AllDescend(f, Trace(f, at, call, false))
  {
    var uids, g := ChangedSince(at(call + 1), f.row.highest.value), Changes(f, at(call + 1));
    AbsorbDescends(f, at(call + 1), uids);
    AbsorbedExactly(f, at(call + 1), uids, Slot(0, 0));
    ClosedDescends(g, Uids(at(call + 2)), Select(at(call)));
    DescendsTrans(f, g, Closed(g, Uids(at(call + 2)), Select(at(call))));
  }

  lemma BeginDescends(f: Folder, selected: Selected)
    ensures Descends(f, Begin(f, selected)) && !IdentityBroken(Begin(f, selected), selected)
  {}

  lemma AllDescendJoin(f: Folder, a: seq<Commit>, b: seq<Commit>)
    requires AllDescend(f, a) && AllDescend(f, b)
    ensures AllDescend(f, a + b)
  {}

  lemma FullDescends(f: Folder, at: nat -> Box, call: nat, force: bool)
    requires Served(at) && !UseCondstore(f, Select(at(call)), force)
    ensures AllDescend(f, Trace(f, at, call, force))
  {
    var selected, present := Select(at(call)), Uids(at(call + 1));
    var c := Commit(Begin(f, selected), call + 2);
    BeginDescends(f, selected);
    BatchesDescend(c, at, present);
    var batches := Batches(c.folder, at, c.call, present);
    var last := LastOf(c, batches).folder;
    var h := Closed(last, present, selected);
    ClosedDescends(last, present, selected);
    DescendsTrans(c.folder, last, h);
    DescendsTrans(f, c.folder, h);
    AllDescendJoin(f, batches, [Commit(h, LastOf(c, batches).call)]);
    FullTrace(f, at, call, force);
    var t := Trace(f, at, call, force);
    AllDescendJoin(f, [t[0]], t[1..]);
    assert t == [t[0]] + t[1..];
  }

  lemma TraceDescends(f: Folder, at: nat -> Box, call: nat, force: bool)
    requires Served(at)
    ensures AllDescend(f, Trace(f, at, call, force))
  {
    if UseCondstore(f, Select(at(call)), force) {
      IncrementalDescends(f, at, call);
    } else {
      FullDescends(f, at, call, force);
    }
  }

  /** Whatever the server does, and wherever the sync is cut off. */
  lemma AttemptDescends(f: Folder, at: nat -> Box, call: nat, a: Attempt)
    requires Served(at)
    ensures Descends(f, AfterAttempt(f, at, call, a).folder)
  {
    TraceDescends(f, at, call, a.force);
  }
}
