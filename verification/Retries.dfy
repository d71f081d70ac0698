/** What an ask, an acceptance, a retry and a finished task lead to. */
module Retries {
  import opened Common
  import opened Tasks

  /** Some row for this ask is queued or running. */
  predicate Underway(tasks: seq<Task>, kind: Kind, account: nat, subject: nat) {
    exists i :: 0 <= i < |tasks| && tasks[i].kind == kind && tasks[i].account == account && tasks[i].subject == subject
                && (tasks[i].status == Queued || tasks[i].status == Running)
  }

  /** The ask is underway, by the one row more that it took if it was not before; nothing else in the queue changes. */
  ghost predicate AskedFor(before: seq<Task>, after: seq<Task>, kind: Kind, account: nat, subject: nat) {
    && Underway(after, kind, account, subject)
    && after == if Underway(before, kind, account, subject) then before else before + [Task(kind, account, subject, Queued, 0)]
  }

  lemma EnqueuedExactly(tasks: seq<Task>, kind: Kind, account: nat, subject: nat)
    ensures AskedFor(tasks, Enqueued(tasks, kind, account, subject), kind, account, subject)
  {
    var after := Enqueued(tasks, kind, account, subject);
    if Underway(tasks, kind, account, subject) {
      var i :| 0 <= i < |tasks| && tasks[i].kind == kind && tasks[i].account == account && tasks[i].subject == subject && Live(tasks[i]);
      assert Matches(tasks[i], kind, account, subject);
    } else {
      assert forall t <- tasks :: !Matches(t, kind, account, subject);
      assert after[|tasks|].status == Queued;
    }
  }

  lemma AskedExactly(s: State, kind: Kind, account: nat, subject: nat)
    requires kind != ApplyBundle
    ensures var after := After(s, Ask(kind, account, subject));
            after == s.(tasks := after.tasks) && AskedFor(s.tasks, after.tasks, kind, account, subject)
  {
    EnqueuedExactly(s.tasks, kind, account, subject);
  }

  /** A bundle is accepted if and only if it awaits review, and its apply is then underway. */
  lemma AcceptedIsUnderway(s: State, b: nat)
    ensures var after := After(s, Accept(b));
            if b < |s.bundles| && s.bundles[b].phase == Proposed then
              && after == s.(tasks := after.tasks, bundles := s.bundles[b := Bundle(s.bundles[b].account, Accepted)])
              && AskedFor(s.tasks, after.tasks, ApplyBundle, s.bundles[b].account, b)
            else after == s
  {
    if b < |s.bundles| {
      EnqueuedExactly(s.tasks, ApplyBundle, s.bundles[b].account, b);
    }
  }

  /** Only what failed is asked for again, and an apply only while its bundle is accepted. */
  predicate MayRetry(s: State, i: nat) {
    && i < |s.tasks| && s.tasks[i].status == Failed
    && (s.tasks[i].kind == ApplyBundle ==> s.tasks[i].subject < |s.bundles| && s.bundles[s.tasks[i].subject].phase == Accepted)
  }

  lemma RetriedExactly(s: State, i: nat)
    ensures var after := After(s, Retry(i));
            if MayRetry(s, i) then
              && after == s.(tasks := after.tasks)
              && AskedFor(s.tasks, after.tasks, s.tasks[i].kind, s.tasks[i].account, s.tasks[i].subject)
            else after == s
  {
    if i < |s.tasks| {
      EnqueuedExactly(s.tasks, s.tasks[i].kind, s.tasks[i].account, s.tasks[i].subject);
    }
  }

  /** What failed is tried again, however much waits before it: once retried, a row for the same work is running
      already, or is started within one round more than there are older ones of its account waiting. */
  lemma RetriedIsStarted(s: State, i: nat, rounds: seq<Round>) returns (u: nat)
    requires MayRetry(s, i) && !s.stopping
    requires forall u: nat :: IsFor(After(s, Retry(i)), u, s.tasks[i]) && Waits(After(s, Retry(i)), u) ==> EnoughFor(After(s, Retry(i)), rounds, u)
    ensures IsFor(After(s, Retry(i)), u, s.tasks[i])
    ensures After(s, Retry(i)).tasks[u].status == Running || Started(After(s, Retry(i)), Flat(rounds), u)
  {
    var t, after := s.tasks[i], After(s, Retry(i));
    RetriedExactly(s, i);
    u :| 0 <= u < |after.tasks| && after.tasks[u].kind == t.kind && after.tasks[u].account == t.account
         && after.tasks[u].subject == t.subject && (after.tasks[u].status == Queued || after.tasks[u].status == Running);
    assert IsFor(after, u, t);
    if after.tasks[u].status == Queued {
      assert EnoughFor(after, rounds, u);
      TurnArrives(after, rounds, u);
    }
  }

  predicate IsFor(s: State, u: nat, t: Task) {
    u < |s.tasks| && s.tasks[u].kind == t.kind && s.tasks[u].account == t.account && s.tasks[u].subject == t.subject
  }

  predicate EnoughFor(s: State, rounds: seq<Round>, u: nat) {
    Waits(s, u) && AllFair(s, rounds, u) && |rounds| > Waiting(s.tasks, s.tasks[u].account, u)
  }

  /** The lane's row says what became of it, and no other row does. */
  ghost predicate SaysOnly(s: State, after: State, i: nat, status: Status) {
    && after.lanes == s.lanes && after.stopping == s.stopping && |after.tasks| == |s.tasks| && i < |s.tasks|
    && after.tasks[i] == s.tasks[i].(status := status)
    && forall j :: 0 <= j < |s.tasks| && j != i ==> after.tasks[j] == s.tasks[j]
  }

  /** A task that ended says how; an apply that ended closes its bundle, and one that did not leaves it accepted.
      What was interrupted by a stop is queued again if it is a sync of an account or an apply still to be made. */
  lemma FinishedExactly(s: State, account: nat, outcome: Outcome)
    requires account in s.lanes && s.lanes[account] < |s.tasks| && s.tasks[s.lanes[account]].status == Running
    ensures var i, after := s.lanes[account], After(s, Finish(account, outcome));
            var t := s.tasks[i];
            var toApply := t.kind == ApplyBundle && t.subject < |s.bundles| && s.bundles[t.subject].phase == Accepted;
            && SaysOnly(s, after, i, match outcome
                                     case Completed => Done
                                     case Broke => Failed
                                     case Interrupted => if s.stopping && (t.kind == SyncAccount || toApply) then Queued else Running
                                     case Unwritten => Running)
            && |after.bundles| == |s.bundles|
            && forall b :: 0 <= b < |s.bundles| ==>
                 after.bundles[b] == if outcome == Completed && toApply && b == t.subject then Bundle(s.bundles[b].account, Closed) else s.bundles[b]
  {}

  /** An orderly stop loses nothing: what it interrupts waits its turn after the next startup, even if that one's
      recovery fails. */
  lemma InterruptedWaitsAgain(s: State, account: nat, recovered: bool)
    requires account in s.lanes && s.lanes[account] < |s.tasks| && s.tasks[s.lanes[account]].status == Running
    requires s.tasks[s.lanes[account]].kind == SyncAccount
             || (s.tasks[s.lanes[account]].kind == ApplyBundle && IsAccepted(s, s.tasks[s.lanes[account]].subject))
    ensures var i, later := s.lanes[account], Run(s, [Stop, Finish(account, Interrupted), LaneGone(account), Restart(recovered)]);
            !later.stopping && later.lanes == map[] && Waits(later, i) && later.tasks[i] == s.tasks[i].(status := Queued)
  {
    FourSteps(s, Stop, Finish(account, Interrupted), LaneGone(account), Restart(recovered));
    var mid := After(After(After(s, Stop), Finish(account, Interrupted)), LaneGone(account));
    FinishedExactly(After(s, Stop), account, Interrupted);
    RescuedGrows(Requeued(mid.tasks), s.bundles, |s.bundles|);
  }

  /** A startup leaves no lane, and if it recovers every row that ran waits again, each accepted bundle has a row that
      is queued, and no row is taken away. */
  lemma RestartedExactly(s: State, recovered: bool)
    ensures var after := After(s, Restart(recovered));
            && after.lanes == map[] && !after.stopping && after.bundles == s.bundles
            && (!recovered ==> after.tasks == s.tasks)
            && (recovered ==>
                  && |s.tasks| <= |after.tasks| && NoneRunning(after.tasks)
                  && forall i :: 0 <= i < |s.tasks| ==>
                       after.tasks[i] == if s.tasks[i].status == Running then s.tasks[i].(status := Queued) else s.tasks[i])
  {
    RescuedGrows(Requeued(s.tasks), s.bundles, |s.bundles|);
    RescuedNotRunning(Requeued(s.tasks), s.bundles, |s.bundles|);
  }

  /** No row for it is queued or running. */
  predicate IsStranded(tasks: seq<Task>, bundles: seq<Bundle>, b: nat) {
    && b < |bundles| && bundles[b].phase == Accepted
    && forall i :: 0 <= i < |tasks| && tasks[i].kind == ApplyBundle && tasks[i].subject == b ==> tasks[i].status in {Done, Failed}
  }

  /** What recovery reports is how many rows ran, and how many accepted bundles were stranded. */
  lemma {:induction false} ReportsInterruptions(tasks: seq<Task>, n: nat)
    requires n <= |tasks|
    ensures Interruptions(tasks, n) == |set i: nat | i < n && tasks[i].status == Running|
  {
    if n > 0 {
      ReportsInterruptions(tasks, n - 1);
      var before := set i: nat | i < n - 1 && tasks[i].status == Running;
      assert (set i: nat | i < n && tasks[i].status == Running) == if tasks[n - 1].status == Running then before + {n - 1} else before;
    }
  }

  lemma {:induction false} ReportsStranded(tasks: seq<Task>, bundles: seq<Bundle>, m: nat)
    requires m <= |bundles|
    ensures Stranded(tasks, bundles, m) == |set b: nat | b < m && IsStranded(tasks, bundles, b)|
  {
    if m > 0 {
      ReportsStranded(tasks, bundles, m - 1);
      StrandedExactly(tasks, bundles, m - 1);
      var last := IsStranded(tasks, bundles, m - 1);
      var before := set b: nat | b < m - 1 && IsStranded(tasks, bundles, b);
      assert (set b: nat | b < m && IsStranded(tasks, bundles, b)) == if last then before + {m - 1} else before;
    }
  }

  lemma StrandedExactly(tasks: seq<Task>, bundles: seq<Bundle>, b: nat)
    requires b < |bundles|
    ensures IsStranded(tasks, bundles, b) <==> bundles[b].phase == Accepted && !Applying(tasks, b)
  {
    if Applying(tasks, b) {
      var t :| t in tasks && t.kind == ApplyBundle && t.subject == b && Live(t);
      var i :| 0 <= i < |tasks| && tasks[i] == t;
      assert tasks[i].status !in {Done, Failed};
    } else {
      forall i | 0 <= i < |tasks| && tasks[i].kind == ApplyBundle && tasks[i].subject == b ensures tasks[i].status in {Done, Failed} {
        assert tasks[i] in tasks;
      }
    }
  }

  // ------------------------------------------------------------------ what nobody accepted

  /** No task, of whatever status, is to apply this bundle. */
  ghost predicate NeverApplied(s: State, b: nat) {
    b < |s.bundles| && forall i :: 0 <= i < |s.tasks| ==> !(s.tasks[i].kind == ApplyBundle && s.tasks[i].subject == b)
  }

  lemma {:induction false} RescuedSpares(tasks: seq<Task>, bundles: seq<Bundle>, n: nat, b: nat)
    requires n <= |bundles| && b < |bundles| && bundles[b].phase != Accepted
    requires forall i :: 0 <= i < |tasks| ==> !(tasks[i].kind == ApplyBundle && tasks[i].subject == b)
    ensures forall i :: 0 <= i < |Rescued(tasks, bundles, n)| ==>
              !(Rescued(tasks, bundles, n)[i].kind == ApplyBundle && Rescued(tasks, bundles, n)[i].subject == b)
  {
    if n > 0 {
      RescuedSpares(tasks, bundles, n - 1, b);
    }
  }

  lemma StepSpares(s: State, op: Op, b: nat)
    requires NeverApplied(s, b) && (s.bundles[b].phase == Closed || (s.bundles[b].phase == Proposed && op != Accept(b) && op != Decline(b)))
    ensures NeverApplied(After(s, op), b) && After(s, op).bundles[b] == s.bundles[b]
  {
    if op.Restart? {
      RescuedSpares(Requeued(s.tasks), s.bundles, |s.bundles|, b);
    }
  }

  /** A proposal stays one, of the account it was made for, until it is accepted or declined, and nothing is ever
      queued to apply it before. */
  lemma {:induction false} ProposedAwaits(s: State, account: nat, ops: seq<Op>)
    requires Kept(s) && forall op <- ops :: op != Accept(|s.bundles|) && op != Decline(|s.bundles|)
    ensures var later := Run(After(s, Propose(account)), ops);
            NeverApplied(later, |s.bundles|) && later.bundles[|s.bundles|] == Bundle(account, Proposed)
  {
    assert forall i :: 0 <= i < |s.tasks| ==> s.tasks[i] in s.tasks;
    SparedOnward(After(s, Propose(account)), ops, |s.bundles|);
  }

  lemma {:induction false} SparedOnward(s: State, ops: seq<Op>, b: nat)
    requires NeverApplied(s, b)
    requires s.bundles[b].phase == Closed || (s.bundles[b].phase == Proposed && forall op <- ops :: op != Accept(b) && op != Decline(b))
    ensures NeverApplied(Run(s, ops), b) && Run(s, ops).bundles[b] == s.bundles[b]
    decreases ops
  {
    if ops != [] {
      assert ops[0] in ops && forall op <- ops[1..] :: op in ops;
      StepSpares(s, ops[0], b);
      SparedOnward(After(s, ops[0]), ops[1..], b);
    }
  }

  /** What is declined is closed for good, and nothing is ever queued to apply it. */
  lemma DeclinedForGood(s: State, b: nat, ops: seq<Op>)
    requires Kept(s) && b < |s.bundles| && s.bundles[b].phase == Proposed
    ensures var later := Run(After(s, Decline(b)), ops);
            NeverApplied(later, b) && later.bundles[b] == Bundle(s.bundles[b].account, Closed)
  {
    assert forall i :: 0 <= i < |s.tasks| ==> s.tasks[i] in s.tasks;
    SparedOnward(After(s, Decline(b)), ops, b);
  }
}
