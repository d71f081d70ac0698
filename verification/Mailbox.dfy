/** One folder of a mail server, as the client can observe it. */
module Mailbox {
  import opened Common

  // What may happen to it between two commands: UIDs only rise under one UIDVALIDITY (section 2.3.1.1 of
  // RFC 3501); every change of a message gives it a mod-sequence above all before it (section 3.1 of RFC 7162).

  type Flags = set<string>

  /** `key` stands for the content of a message. */
  datatype Mail = Mail(key: nat, flags: Flags, modseq: nat)

  datatype Box = Box(uidvalidity: nat, uidnext: nat, highest: nat, condstore: bool, mail: map<nat, Mail>)

  datatype Event =
    | Deliver(key: nat, flags: Flags)
    | SetFlags(uid: nat, flags: Flags)
    | Expunge(uid: nat)
    | Recreate(box: Box)

  predicate Valid(b: Box) {
    forall u <- b.mail :: u < b.uidnext && b.mail[u].modseq <= b.highest
  }

  function Step(b: Box, e: Event): Box {
    match e
    case Deliver(key, flags) =>
      b.(uidnext := b.uidnext + 1, highest := b.highest + 1, mail := b.mail[b.uidnext := Mail(key, flags, b.highest + 1)])
    case SetFlags(uid, flags) =>
      if uid !in b.mail then b
      else b.(highest := b.highest + 1, mail := b.mail[uid := Mail(b.mail[uid].key, flags, b.highest + 1)])
    case Expunge(uid) => b.(highest := b.highest + 1, mail := b.mail - {uid})
    case Recreate(box) =>
      if Valid(box) && box.uidvalidity > b.uidvalidity && box.condstore == b.condstore then box else b
  }

  function Run(b: Box, events: seq<Event>): Box
    decreases events
  {
    if events == [] then b else Run(Step(b, events[0]), events[1..])
  }

  /** What `b` tells about `a` when `a` came first. */
  ghost predicate Later(a: Box, b: Box) {
    && Valid(a) && Valid(b)
    && a.condstore == b.condstore
    && a.uidvalidity <= b.uidvalidity
    && (a.uidvalidity == b.uidvalidity ==>
          && a.uidnext <= b.uidnext && a.highest <= b.highest
          && (forall u <- b.mail :: b.mail[u].modseq <= a.highest ==> u in a.mail && a.mail[u] == b.mail[u])
          && (forall u <- b.mail :: u < a.uidnext ==> u in a.mail && a.mail[u].key == b.mail[u].key))
  }

  lemma StepIsLater(b: Box, e: Event)
    requires Valid(b)
    ensures Later(b, Step(b, e))
  {}

  /** Whatever happens on the server, in whatever order. */
  lemma {:induction false} RunIsLater(b: Box, events: seq<Event>)
    requires Valid(b)
    ensures Later(b, Run(b, events))
    decreases events
  {
    if events != [] {
      StepIsLater(b, events[0]);
      RunIsLater(Step(b, events[0]), events[1..]);
    }
  }

  // ------------------------------------------------------------------ what the commands answer

  datatype Selected = Selected(uidvalidity: nat, highest: Option<nat>, count: nat)

  datatype Info = Info(uid: nat, key: nat, flags: Flags, modseq: Option<nat>)

  /** SELECT. */
  function Select(b: Box): Selected {
    Selected(b.uidvalidity, if b.condstore then Some(b.highest) else None, |b.mail|)
  }

  function InfoOf(b: Box, uid: nat): Info
    requires uid in b.mail
  {
    Info(uid, b.mail[uid].key, b.mail[uid].flags, if b.condstore then Some(b.mail[uid].modseq) else None)
  }

  predicate Since(b: Box, uid: nat, since: Option<nat>) {
    uid in b.mail && (since.Some? ==> b.mail[uid].modseq > since.value)
  }

  function UidsBelow(b: Box, since: Option<nat>, n: nat): (uids: seq<nat>)
    ensures forall u: nat :: u in uids <==> u < n && Since(b, u, since)
  {
    if n == 0 then [] else UidsBelow(b, since, n - 1) + (if Since(b, n - 1, since) then [n - 1] else [])
  }

  /** SEARCH ALL, in ascending order. */
  function Uids(b: Box): (uids: seq<nat>)
    requires Valid(b)
    ensures forall u: nat :: u in uids <==> u in b.mail
  {
    UidsBelow(b, None, b.uidnext)
  }

  /** FETCH of some UIDs: an answer for each that is still there. */
  function Fetch(b: Box, uids: seq<nat>): seq<Info> {
    if uids == [] then []
    else (if uids[0] in b.mail then [InfoOf(b, uids[0])] else []) + Fetch(b, uids[1..])
  }

  /** The UIDs CHANGEDSINCE answers for (section 3.1.4.1 of RFC 7162). */
  function ChangedSince(b: Box, since: nat): (uids: seq<nat>)
    requires Valid(b)
    ensures forall u: nat :: u in uids <==> u in b.mail && b.mail[u].modseq > since
  {
    UidsBelow(b, Some(since), b.uidnext)
  }
}
