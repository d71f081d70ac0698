/** What the writing commands of `imap/client.py` do to the folder a message is in, and how often a change
    that was asked for once can happen when the runner crashes and asks again. */
module Client {
  import opened Common
  import opened Mailbox
  import opened Freshness
  import opened Review

  const DELETED := "\\Deleted"

  /** Whether STORE may be asked with UNCHANGEDSINCE. */
  predicate Conditional(b: Box, since: Option<nat>) { since.Some? && b.condstore }

  /** `store_flags` where it is not declined.  A server need not count a change that changes nothing. */
  function Stored(b: Box, uid: nat, operation: Operation, counts: bool): Box {
    if uid !in b.mail then b
    else
      var flags := FlagsAfter(operation, b.mail[uid].flags);
      if flags == b.mail[uid].flags && !counts then b else Mailbox.Step(b, SetFlags(uid, flags))
  }

  /** A conditional STORE is declined when the message moved on. */
  predicate StoreDeclined(b: Box, uid: nat, since: Option<nat>) {
    Conditional(b, since) && (uid !in b.mail || b.mail[uid].modseq > since.value)
  }

  /** The look before a move, which is all the protection a move has. */
  predicate MoveDeclined(b: Box, uid: nat, since: Option<nat>) {
    since.Some? && (uid !in b.mail || InfoOf(b, uid).modseq != since)
  }

  /** MOVE, seen from where the message was. */
  function MovedOut(b: Box, uid: nat): Box { Mailbox.Step(b, Expunge(uid)) }

  /** The second half of a move by COPY, where it is not answered NO. */
  function MarkedDeleted(b: Box, uid: nat, counts: bool): Box { Stored(b, uid, AddFlag(DELETED), counts) }

  /** `_apply_one` without a mod-sequence to go by: the message is looked at, and has to be as it was. */
  predicate LooksChanged(b: Box, p: Premise) {
    p.modseq.None? && (p.uid !in b.mail || b.mail[p.uid].flags != p.flags)
  }
}
