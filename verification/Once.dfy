/** How often a change that was accepted once can happen, when the runner can crash between the server's
    change and its own commit, and asks again. */
module Once {
  import opened Common
  import opened Mailbox
  import opened Freshness
  import opened Review
  import opened Client

  /** Where an attempt is cut off: before the command, after COPY and before the flag that hides the original,
      after the server's change and before the commit, or not at all. */
  datatype Cut = BeforeCommand | AfterCopy | BeforeCommit | Never

  /** Anybody may change the folder at any time, also while the runner is between two of its commands.
      `holds` is the verdict of the cache, whatever it is; `refuses` is the server answering NO, and `unmarked`
      its answering NO to the mark after a COPY it allowed. */
  datatype Act =
    | Elsewhere(event: Event)
    | Try(holds: bool, before: seq<Event>, within: seq<Event>, refuses: bool, unmarked: bool, counts: bool, cut: Cut)

  /** `effects` counts what was done to the mailbox for this item; `decided` is what is committed. */
  datatype Wire = Wire(box: Box, effects: nat, decided: bool)

  predicate KeepsIdentity(events: seq<Event>) { forall e <- events :: !e.Recreate? }

  /** The folder is not made again while this goes on. */
  predicate Allowed(act: Act) {
    if act.Elsewhere? then !act.event.Recreate? else KeepsIdentity(act.before) && KeepsIdentity(act.within)
  }

  /** The command itself: the folder after it, and whether something was done. */
  function Command(b: Box, operation: Operation, p: Premise, canMove: bool, refuses: bool, unmarked: bool,
                   counts: bool, cut: Cut): (Box, bool) {
    if refuses then (b, false)
    else if operation.AddFlag? || operation.RemoveFlag? then
      if StoreDeclined(b, p.uid, p.modseq) then (b, false)
      else (Stored(b, p.uid, operation, counts), Stored(b, p.uid, operation, counts) != b)
    else if canMove then (MovedOut(b, p.uid), p.uid in b.mail)
    else if cut == AfterCopy || unmarked then (b, p.uid in b.mail)
    else (MarkedDeleted(b, p.uid, counts), p.uid in b.mail)
  }

  predicate Moves(operation: Operation) { operation == Move || operation == Delete }

  function After(w: Wire, operation: Operation, p: Premise, canMove: bool, act: Act): Wire {
    match act
    case Elsewhere(event) => w.(box := Mailbox.Step(w.box, event))
    case Try(holds, before, within, refuses, unmarked, counts, cut) =>
      if w.decided || cut == BeforeCommand then w
      else if !holds || LooksChanged(w.box, p) then w.(decided := cut == Never)
      else
        var seen := Mailbox.Run(w.box, before);
        if Moves(operation) && MoveDeclined(seen, p.uid, p.modseq) then w.(box := seen, decided := cut == Never)
        else
          var (box, did) := Command(Mailbox.Run(seen, within), operation, p, canMove, refuses, unmarked, counts, cut);
          Wire(box, w.effects + (if did then 1 else 0), cut == Never)
  }

  function Through(w: Wire, operation: Operation, p: Premise, canMove: bool, acts: seq<Act>): Wire
    decreases acts
  {
    if acts == [] then w else Through(After(w, operation, p, canMove, acts[0]), operation, p, canMove, acts[1..])
  }

  /** A premise taken from this folder: the UID has been given out, and there is a mod-sequence if the server keeps them. */
  predicate Taken(b: Box, p: Premise) {
    && Valid(b) && p.uid < b.uidnext
    && (p.modseq.Some? <==> b.condstore)
    && (p.modseq.Some? ==> p.modseq.value <= b.highest)
  }

  // ------------------------------------------------------------------ what makes it safe

  /** A move is safe where there is MOVE, a change of flags where there is CONDSTORE. */
  predicate Safe(operation: Operation, canMove: bool, condstore: bool) {
    if Moves(operation) then canMove else condstore
  }

  /** What the folder shows once the change has happened, and for good. */
  predicate Spent(b: Box, operation: Operation, p: Premise) {
    if Moves(operation) then p.uid !in b.mail
    else p.modseq.Some? && (p.uid !in b.mail || b.mail[p.uid].modseq > p.modseq.value)
  }

  lemma {:induction false} SameIdentity(b: Box, events: seq<Event>)
    requires KeepsIdentity(events)
    ensures Mailbox.Run(b, events).uidvalidity == b.uidvalidity
    decreases events
  {
    if events != [] {
      assert events[0] in events;
      SameIdentity(Mailbox.Step(b, events[0]), events[1..]);
    }
  }

  ghost predicate Kept(w: Wire, operation: Operation, p: Premise) {
    Taken(w.box, p) && w.effects <= 1 && (w.effects == 1 ==> Spent(w.box, operation, p))
  }

  lemma KeptRun(w: Wire, events: seq<Event>, operation: Operation, p: Premise)
    requires Kept(w, operation, p) && KeepsIdentity(events)
    ensures Kept(w.(box := Mailbox.Run(w.box, events)), operation, p)
  {
    RunIsLater(w.box, events);
    SameIdentity(w.box, events);
  }

  lemma AfterKept(w: Wire, operation: Operation, p: Premise, canMove: bool, act: Act)
    requires Kept(w, operation, p) && Allowed(act) && operation != Discard && Safe(operation, canMove, w.box.condstore)
    ensures Kept(After(w, operation, p, canMove, act), operation, p)
    ensures After(w, operation, p, canMove, act).box.condstore == w.box.condstore
  {
    match act
    case Elsewhere(event) =>
      StepIsLater(w.box, event);
    case Try(holds, before, within, refuses, unmarked, counts, cut) =>
      var seen := w.(box := Mailbox.Run(w.box, before));
      KeptRun(w, before, operation, p);
      RunIsLater(w.box, before);
      var late := seen.(box := Mailbox.Run(seen.box, within));
      KeptRun(seen, within, operation, p);
      RunIsLater(seen.box, within);
      var box := Command(late.box, operation, p, canMove, refuses, unmarked, counts, cut).0;
  }

  lemma {:induction false} ThroughKept(w: Wire, operation: Operation, p: Premise, canMove: bool, acts: seq<Act>)
    requires Kept(w, operation, p) && (forall act <- acts :: Allowed(act))
    requires operation != Discard && Safe(operation, canMove, w.box.condstore)
    ensures Kept(Through(w, operation, p, canMove, acts), operation, p)
    decreases acts
  {
    if acts != [] {
      assert acts[0] in acts;
      AfterKept(w, operation, p, canMove, acts[0]);
      ThroughKept(After(w, operation, p, canMove, acts[0]), operation, p, canMove, acts[1..]);
    }
  }

  // ------------------------------------------------------------------ and what does not

  /** However often it is tried, cut off and tried again, while anything happens to the folder. */
  ghost predicate AtMostOnce(operation: Operation, canMove: bool, condstore: bool) {
    forall b: Box, p: Premise, acts: seq<Act> ::
      b.condstore == condstore && Taken(b, p) && (forall act <- acts :: Allowed(act))
      ==> Through(Wire(b, 0, false), operation, p, canMove, acts).effects <= 1
  }

  function OneMessage(flags: Flags, condstore: bool): Box {
    Box(1, 2, 1, condstore, map[1 := Mail(0, flags, 1)])
  }

  function ItsPremise(flags: Flags, condstore: bool): Premise {
    Premise(0, 1, if condstore then Some(1) else None, flags)
  }

  function Again(cut: Cut): Act { Try(true, [], [], false, false, true, cut) }

  /** Copied, and the runner gone before the original was marked: the retry finds nothing changed, and copies again. */
  lemma CopiedTwice(operation: Operation, condstore: bool)
    requires Moves(operation)
    ensures var w := Wire(OneMessage({}, condstore), 0, false);
            Through(w, operation, ItsPremise({}, condstore), false, [Again(AfterCopy), Again(Never)]).effects == 2
  {
    var w, p := Wire(OneMessage({}, condstore), 0, false), ItsPremise({}, condstore);
    var first := After(w, operation, p, false, Again(AfterCopy));
    assert first == w.(effects := 1);
    var second := After(first, operation, p, false, Again(Never));
    assert second.effects == 2;
    assert [Again(AfterCopy), Again(Never)][1..] == [Again(Never)];
    assert Through(second, operation, p, false, []) == second;
  }

  function FlagsFor(operation: Operation): Flags { if operation.RemoveFlag? then {operation.flag} else {} }

  /** Without mod-sequences, somebody undoing the change before the retry is not noticed. */
  lemma FlaggedTwice(operation: Operation, canMove: bool)
    requires operation.AddFlag? || operation.RemoveFlag?
    ensures var flags := FlagsFor(operation); var w := Wire(OneMessage(flags, false), 0, false);
            Through(w, operation, ItsPremise(flags, false), canMove,
                    [Again(BeforeCommit), Elsewhere(SetFlags(1, flags)), Again(BeforeCommit)]).effects == 2
  {
    var flags := FlagsFor(operation);
    var w, p := Wire(OneMessage(flags, false), 0, false), ItsPremise(flags, false);
    var undo := Elsewhere(SetFlags(1, flags));
    var acts := [Again(BeforeCommit), undo, Again(BeforeCommit)];
    var first := After(w, operation, p, canMove, acts[0]);
    assert first.effects == 1 && !first.decided && 1 in first.box.mail;
    var second := After(first, operation, p, canMove, undo);
    assert second.box.mail[1].flags == flags;
    var third := After(second, operation, p, canMove, acts[2]);
    assert third.effects == 2;
    assert acts[1..] == [undo, acts[2]] && acts[1..][1..] == [acts[2]] && [acts[2]][1..] == [];
    assert Through(second, operation, p, canMove, [acts[2]]) == Through(third, operation, p, canMove, []) == third;
    assert Through(first, operation, p, canMove, [undo, acts[2]]) == third;
  }

  /** An accepted change of a message happens at most once, on every run, exactly where the server can say
      so: with MOVE for a move, with CONDSTORE for a change of flags. */
  lemma AtMostOnceExactly(operation: Operation, canMove: bool, condstore: bool)
    requires operation != Discard
    ensures AtMostOnce(operation, canMove, condstore) <==> Safe(operation, canMove, condstore)
  {
    if Safe(operation, canMove, condstore) {
      forall b: Box, p: Premise, acts: seq<Act> | b.condstore == condstore && Taken(b, p) && (forall act <- acts :: Allowed(act))
        ensures Through(Wire(b, 0, false), operation, p, canMove, acts).effects <= 1
      {
        ThroughKept(Wire(b, 0, false), operation, p, canMove, acts);
      }
    } else if Moves(operation) {
      CopiedTwice(operation, condstore);
      assert Taken(OneMessage({}, condstore), ItsPremise({}, condstore));
    } else {
      FlaggedTwice(operation, canMove);
      assert Taken(OneMessage(FlagsFor(operation), false), ItsPremise(FlagsFor(operation), false));
    }
  }
}
