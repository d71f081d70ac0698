/** The work queue of `tasks.py` and the runner of `worker.py`. */
module Tasks {
  import opened Common

  // Rows are claimed in order, one lane per account.  They are only ever appended, so a task's id is its place in the
  // table, and an older task has a smaller one.  What an executor does inside a task is one of four outcomes here;
  // what it does to a bundle is to close it.

  datatype Kind = ApplyBundle | SyncAccount | SyncContainer | FetchBody

  datatype Status = Queued | Running | Done | Failed

  datatype Task = Task(kind: Kind, account: nat, subject: nat, status: Status, attempts: nat)

  datatype Phase = Proposed | Accepted | Closed

  datatype Bundle = Bundle(account: nat, phase: Phase)

  /** `lanes` holds the row each busy account's lane was given. */
  datatype State = State(tasks: seq<Task>, bundles: seq<Bundle>, lanes: map<nat, nat>, stopping: bool)

  /** What became of a lane's task: done, failed, put back because the service is stopping, or not even
      the failure could be written down. */
  datatype Outcome = Completed | Broke | Interrupted | Unwritten

  datatype Op =
    | Ask(kind: Kind, account: nat, subject: nat)
    | Propose(account: nat)
    | Accept(bundle: nat)
    | Decline(bundle: nat)
    | Retry(task: nat)
    | Claim
    | Finish(account: nat, outcome: Outcome)
    | LaneGone(account: nat)
    | Stop
    | Restart(recovered: bool)

  predicate Live(t: Task) { t.status == Queued || t.status == Running }

  predicate Matches(t: Task, kind: Kind, account: nat, subject: nat) {
    t.kind == kind && t.account == account && t.subject == subject && Live(t)
  }

  predicate AlreadyAsked(tasks: seq<Task>, kind: Kind, account: nat, subject: nat) {
    exists t <- tasks :: Matches(t, kind, account, subject)
  }

  /** `enqueue`: a new row, unless a live one is already the same ask. */
  function Enqueued(tasks: seq<Task>, kind: Kind, account: nat, subject: nat): seq<Task> {
    if AlreadyAsked(tasks, kind, account, subject) then tasks
    else tasks + [Task(kind, account, subject, Queued, 0)]
  }

  predicate Claimable(s: State, i: int) {
    0 <= i < |s.tasks| && s.tasks[i].status == Queued && s.tasks[i].account !in s.lanes
  }

  /** The first row at or after `from` that may be claimed, or the length of the table. */
  function NextFrom(s: State, from: nat): (i: nat)
    requires from <= |s.tasks|
    ensures from <= i <= |s.tasks| && (i < |s.tasks| ==> Claimable(s, i))
    ensures forall j :: from <= j < i ==> !Claimable(s, j)
    decreases |s.tasks| - from
  {
    if from == |s.tasks| || Claimable(s, from) then from else NextFrom(s, from + 1)
  }

  function WithStatus(tasks: seq<Task>, i: nat, status: Status): seq<Task>
    requires i < |tasks|
  {
    tasks[i := tasks[i].(status := status)]
  }

  /** `requeue_interrupted`. */
  function Requeued(tasks: seq<Task>): seq<Task> {
    seq(|tasks|, i requires 0 <= i < |tasks| => if tasks[i].status == Running then tasks[i].(status := Queued) else tasks[i])
  }

  /** How many of the first `n` rows are running. */
  function Interruptions(tasks: seq<Task>, n: nat): nat
    requires n <= |tasks|
  {
    if n == 0 then 0 else Interruptions(tasks, n - 1) + (if tasks[n - 1].status == Running then 1 else 0)
  }

  predicate Applying(tasks: seq<Task>, bundle: nat) {
    exists t <- tasks :: t.kind == ApplyBundle && t.subject == bundle && Live(t)
  }

  /** `rescue_accepted_bundles`, for the bundles up to `n`: which are stranded is asked before any of
      them is given a task. */
  function Rescued(before: seq<Task>, bundles: seq<Bundle>, n: nat): seq<Task>
    requires n <= |bundles|
  {
    if n == 0 then before
    else
      var tasks := Rescued(before, bundles, n - 1);
      if bundles[n - 1].phase == Accepted && !Applying(before, n - 1)
      then Enqueued(tasks, ApplyBundle, bundles[n - 1].account, n - 1)
      else tasks
  }

  /** How many of the first `n` bundles are accepted and without a live task. */
  function Stranded(tasks: seq<Task>, bundles: seq<Bundle>, n: nat): nat
    requires n <= |bundles|
  {
    if n == 0 then 0
    else Stranded(tasks, bundles, n - 1) + (if bundles[n - 1].phase == Accepted && !Applying(tasks, n - 1) then 1 else 0)
  }

  /** What the executor of a lane's task writes before its lane goes. */
  function Written(s: State, i: nat, outcome: Outcome): State
    requires i < |s.tasks|
  {
    var t := s.tasks[i];
    var closes := t.kind == ApplyBundle && t.subject < |s.bundles| && s.bundles[t.subject].phase == Accepted;
    match outcome
    case Completed =>
      s.(tasks := WithStatus(s.tasks, i, Done),
         bundles := if closes then s.bundles[t.subject := s.bundles[t.subject].(phase := Closed)] else s.bundles)
    case Broke => s.(tasks := WithStatus(s.tasks, i, Failed))
    case Interrupted =>
      if s.stopping && (t.kind == SyncAccount || closes) then s.(tasks := WithStatus(s.tasks, i, Queued)) else s
    case Unwritten => s
  }

  function After(s: State, op: Op): State {
    match op
    case Ask(kind, account, subject) =>
      if kind == ApplyBundle then s else s.(tasks := Enqueued(s.tasks, kind, account, subject))
    case Propose(account) => s.(bundles := s.bundles + [Bundle(account, Proposed)])
    case Accept(b) =>
      if b >= |s.bundles| || s.bundles[b].phase != Proposed then s
      else s.(bundles := s.bundles[b := s.bundles[b].(phase := Accepted)],
              tasks := Enqueued(s.tasks, ApplyBundle, s.bundles[b].account, b))
    case Decline(b) =>
      if b >= |s.bundles| || s.bundles[b].phase != Proposed then s
      else s.(bundles := s.bundles[b := s.bundles[b].(phase := Closed)])
    case Retry(i) =>
      if i >= |s.tasks| || s.tasks[i].status != Failed then s
      else
        var t := s.tasks[i];
        if t.kind == ApplyBundle && (t.subject >= |s.bundles| || s.bundles[t.subject].phase != Accepted) then s
        else s.(tasks := Enqueued(s.tasks, t.kind, t.account, t.subject))
    case Claim =>
      var i := NextFrom(s, 0);
      if s.stopping || i == |s.tasks| then s
      else
        var t := s.tasks[i];
        s.(tasks := s.tasks[i := t.(status := Running, attempts := t.attempts + 1)], lanes := s.lanes[t.account := i])
    case Finish(account, outcome) =>
      if account !in s.lanes || s.lanes[account] >= |s.tasks| || s.tasks[s.lanes[account]].status != Running then s
      else Written(s, s.lanes[account], outcome)
    case LaneGone(account) => s.(lanes := s.lanes - {account})
    case Stop => s.(stopping := true)
    case Restart(recovered) =>
      State(if recovered then Rescued(Requeued(s.tasks), s.bundles, |s.bundles|) else s.tasks, s.bundles, map[], false)
  }

  function Run(s: State, ops: seq<Op>): State
    decreases ops
  {
    if ops == [] then s else Run(After(s, ops[0]), ops[1..])
  }

  // ------------------------------------------------------------------ the queue as it runs

  class TaskRunner {
    var tasks: seq<Task>
    var bundles: seq<Bundle>
    var lanes: map<nat, nat>
    var stopping: bool

    function Snapshot(): State
      reads this
    {
      State(tasks, bundles, lanes, stopping)
    }

    method Enqueue(kind: Kind, account: nat, subject: nat) returns (created: bool)
      modifies this`tasks
      ensures tasks == Enqueued(old(tasks), kind, account, subject)
      ensures created == !AlreadyAsked(old(tasks), kind, account, subject)
    {
      for i := 0 to |tasks|
        invariant tasks == old(tasks)
        invariant forall t <- tasks[..i] :: !Matches(t, kind, account, subject)
      {
        if Matches(tasks[i], kind, account, subject) {
          return false;
        }
      }
      assert tasks[..|tasks|] == tasks;
      tasks := tasks + [Task(kind, account, subject, Queued, 0)];
      return true;
    }

    method AcceptBundle(b: nat)
      modifies this
      ensures Snapshot() == After(old(Snapshot()), Accept(b))
    {
      if b < |bundles| && bundles[b].phase == Proposed {
        bundles := bundles[b := bundles[b].(phase := Accepted)];
        var _ := Enqueue(ApplyBundle, bundles[b].account, b);
      }
    }

    /** `claim_next` and the lane it is given in `_one_pass`. */
    method OnePass() returns (claimed: bool)
      modifies this
      ensures Snapshot() == After(old(Snapshot()), Claim)
      ensures claimed <==> !old(stopping) && NextFrom(old(Snapshot()), 0) < |old(tasks)|
    {
      if stopping {
        return false;
      }
      ghost var was := Snapshot();
      var i := 0;
      while i < |tasks| && (tasks[i].status != Queued || tasks[i].account in lanes)
        invariant i <= |tasks| && forall j :: 0 <= j < i ==> !Claimable(was, j)
      {
        i := i + 1;
      }
      assert i < |tasks| ==> Claimable(was, i);
      assert NextFrom(was, 0) == i;
      if i == |tasks| {
        return false;
      }
      tasks := tasks[i := tasks[i].(status := Running, attempts := tasks[i].attempts + 1)];
      lanes := lanes[tasks[i].account := i];
      return true;
    }

    method RequeueInterrupted() returns (count: nat)
      modifies this`tasks
      ensures tasks == Requeued(old(tasks))
      ensures count == Interruptions(old(tasks), |old(tasks)|)
    {
      count := 0;
      for i := 0 to |tasks|
        invariant |tasks| == |old(tasks)|
        invariant tasks[..i] == Requeued(old(tasks))[..i] && tasks[i..] == old(tasks)[i..]
        invariant count == Interruptions(old(tasks), i)
      {
        assert tasks[i] == tasks[i..][0] == old(tasks)[i];
        if tasks[i].status == Running {
          tasks := tasks[i := tasks[i].(status := Queued)];
          count := count + 1;
        }
      }
    }

    method RescueAcceptedBundles() returns (count: nat)
      modifies this`tasks
      ensures tasks == Rescued(old(tasks), bundles, |bundles|)
      ensures count == Stranded(old(tasks), bundles, |bundles|)
    {
      var before := tasks;
      count := 0;
      for b := 0 to |bundles|
        invariant tasks == Rescued(before, bundles, b)
        invariant count == Stranded(before, bundles, b)
      {
        if bundles[b].phase == Accepted && !Applying(before, b) {
          var _ := Enqueue(ApplyBundle, bundles[b].account, b);
          count := count + 1;
        }
      }
    }

    /** `retry_task`: only a failed task, and an apply only while its bundle is still accepted. */
    method RetryTask(i: nat)
      modifies this`tasks
      ensures Snapshot() == After(old(Snapshot()), Retry(i))
    {
      if i < |tasks| && tasks[i].status == Failed {
        var t := tasks[i];
        if t.kind == ApplyBundle && (t.subject >= |bundles| || bundles[t.subject].phase != Accepted) {
          return;
        }
        var _ := Enqueue(t.kind, t.account, t.subject);
      }
    }

    /** `execute` and the end of `_run_one`: the row is written, if it can be, and the lane goes. */
    method RunOne(account: nat, outcome: Outcome)
      requires account in lanes && lanes[account] < |tasks|
      modifies this
      ensures Snapshot() == After(After(old(Snapshot()), Finish(account, outcome)), LaneGone(account))
    {
      var i := lanes[account];
      var t := tasks[i];
      if t.status == Running {
        var accepted := t.kind == ApplyBundle && t.subject < |bundles| && bundles[t.subject].phase == Accepted;
        match outcome {
          case Completed =>
            tasks := tasks[i := t.(status := Done)];
            if accepted {
              bundles := bundles[t.subject := bundles[t.subject].(phase := Closed)];
            }
          case Broke => tasks := tasks[i := t.(status := Failed)];
          case Interrupted =>
            if stopping && (t.kind == SyncAccount || accepted) {
              tasks := tasks[i := t.(status := Queued)];
            }
          case Unwritten =>
        }
      }
      lanes := lanes - {account};
    }

    /** A process that died comes back: no lanes, and both halves of recovery in one transaction, or neither. */
    method Start(recovers: bool)
      modifies this
      ensures Snapshot() == After(old(Snapshot()), Restart(recovers))
    {
      lanes, stopping := map[], false;
      if recovers {
        var _ := RequeueInterrupted();
        var _ := RescueAcceptedBundles();
      }
    }
  }

  // ------------------------------------------------------------------ no accepted bundle is lost

  /** No ask has two live rows. */
  ghost predicate LiveOnce(s: State) {
    forall i, j :: 0 <= i < j < |s.tasks| && Live(s.tasks[i]) ==>
      !Matches(s.tasks[j], s.tasks[i].kind, s.tasks[i].account, s.tasks[i].subject)
  }

  /** An apply task is for a bundle somebody accepted, in that bundle's account. */
  ghost predicate AppliesBelong(s: State) {
    forall t <- s.tasks :: t.kind == ApplyBundle ==>
      t.subject < |s.bundles| && s.bundles[t.subject].phase != Proposed && s.bundles[t.subject].account == t.account
  }

  ghost predicate OwedTo(s: State, b: nat) {
    exists i :: 0 <= i < |s.tasks| && s.tasks[i].kind == ApplyBundle && s.tasks[i].subject == b && s.tasks[i].status != Done
  }

  ghost predicate Owed(s: State) {
    forall b :: 0 <= b < |s.bundles| && s.bundles[b].phase == Accepted ==> OwedTo(s, b)
  }

  /** A lane's task is of its account, and no task of the account that waits is older. */
  ghost predicate LanesHold(s: State) {
    forall a <- s.lanes ::
      && s.lanes[a] < |s.tasks| && s.tasks[s.lanes[a]].account == a
      && forall i :: 0 <= i < |s.tasks| && s.tasks[i].account == a && s.tasks[i].status == Queued ==> s.lanes[a] <= i
  }

  lemma EnqueuedOnce(s: State, kind: Kind, account: nat, subject: nat)
    requires LiveOnce(s)
    ensures LiveOnce(s.(tasks := Enqueued(s.tasks, kind, account, subject)))
  {
    if !AlreadyAsked(s.tasks, kind, account, subject) {
      forall i | 0 <= i < |s.tasks| ensures !Matches(s.tasks[i], kind, account, subject) {
        assert s.tasks[i] in s.tasks;
      }
    }
  }

  lemma EnqueuedBelongs(s: State, kind: Kind, account: nat, subject: nat)
    requires AppliesBelong(s)
    requires kind == ApplyBundle ==>
               subject < |s.bundles| && s.bundles[subject].phase != Proposed && s.bundles[subject].account == account
    ensures AppliesBelong(s.(tasks := Enqueued(s.tasks, kind, account, subject)))
  {}

  /** Nothing new is live, and every row is still for the same work. */
  ghost predicate NothingRevived(s: State, after: State) {
    && |after.tasks| == |s.tasks|
    && forall i :: 0 <= i < |s.tasks| ==>
         && after.tasks[i].kind == s.tasks[i].kind && after.tasks[i].account == s.tasks[i].account
         && after.tasks[i].subject == s.tasks[i].subject && (Live(after.tasks[i]) ==> Live(s.tasks[i]))
  }

  lemma NothingRevivedKeeps(s: State, after: State)
    requires LiveOnce(s) && AppliesBelong(s) && NothingRevived(s, after)
    requires |after.bundles| >= |s.bundles|
    requires forall b :: 0 <= b < |s.bundles| ==>
               after.bundles[b].account == s.bundles[b].account && (after.bundles[b].phase == Proposed ==> s.bundles[b].phase == Proposed)
    ensures LiveOnce(after) && AppliesBelong(after)
  {
    forall t | t in after.tasks && t.kind == ApplyBundle
      ensures t.subject < |after.bundles| && after.bundles[t.subject].phase != Proposed && after.bundles[t.subject].account == t.account
    {
      var i :| 0 <= i < |after.tasks| && after.tasks[i] == t;
      assert s.tasks[i] in s.tasks;
    }
  }

  lemma EnqueuedOwes(s: State, account: nat, b: nat)
    ensures OwedTo(s.(tasks := Enqueued(s.tasks, ApplyBundle, account, b)), b)
  {
    if AlreadyAsked(s.tasks, ApplyBundle, account, b) {
      var t :| t in s.tasks && Matches(t, ApplyBundle, account, b);
      var i :| 0 <= i < |s.tasks| && s.tasks[i] == t;
    } else {
      var later := Enqueued(s.tasks, ApplyBundle, account, b);
      assert later[|s.tasks|].kind == ApplyBundle;
    }
  }

  lemma EnqueuedKeepsOwing(s: State, kind: Kind, account: nat, subject: nat, b: nat)
    requires OwedTo(s, b)
    ensures OwedTo(s.(tasks := Enqueued(s.tasks, kind, account, subject)), b)
  {
    var i :| 0 <= i < |s.tasks| && s.tasks[i].kind == ApplyBundle && s.tasks[i].subject == b && s.tasks[i].status != Done;
    assert Enqueued(s.tasks, kind, account, subject)[i] == s.tasks[i];
  }

  ghost predicate Kept(s: State) { LiveOnce(s) && AppliesBelong(s) }

  ghost predicate OwedBelow(s: State, n: nat)
    requires n <= |s.bundles|
  {
    forall b :: 0 <= b < n && s.bundles[b].phase == Accepted ==> OwedTo(s, b)
  }

  lemma RescuedGrows(tasks: seq<Task>, bundles: seq<Bundle>, n: nat)
    requires n <= |bundles|
    ensures tasks <= Rescued(tasks, bundles, n)
  {
    if n > 0 {
      RescuedGrows(tasks, bundles, n - 1);
    }
  }

  function Rescuing(s: State, n: nat): State
    requires n <= |s.bundles|
  {
    s.(tasks := Rescued(s.tasks, s.bundles, n))
  }

  lemma {:induction false} RescuedKeeps(s: State, n: nat)
    requires Kept(s) && n <= |s.bundles|
    ensures Kept(Rescuing(s, n))
  {
    if n > 0 {
      RescuedKeeps(s, n - 1);
      var mid, bundle := Rescuing(s, n - 1), s.bundles[n - 1];
      if bundle.phase == Accepted && !Applying(s.tasks, n - 1) {
        EnqueuedOnce(mid, ApplyBundle, bundle.account, n - 1);
        EnqueuedBelongs(mid, ApplyBundle, bundle.account, n - 1);
      }
    }
  }

  lemma {:induction false} RescuedOwes(s: State, n: nat)
    requires n <= |s.bundles|
    ensures OwedBelow(Rescuing(s, n), n)
  {
    if n > 0 {
      RescuedOwes(s, n - 1);
      var mid, bundle := Rescuing(s, n - 1), s.bundles[n - 1];
      if bundle.phase == Accepted && !Applying(s.tasks, n - 1) {
        assert Rescuing(s, n) == mid.(tasks := Enqueued(mid.tasks, ApplyBundle, bundle.account, n - 1));
        EnqueuedOwes(mid, bundle.account, n - 1);
        forall b | 0 <= b < n - 1 && s.bundles[b].phase == Accepted ensures OwedTo(Rescuing(s, n), b) {
          EnqueuedKeepsOwing(mid, ApplyBundle, bundle.account, n - 1, b);
        }
      } else if bundle.phase == Accepted {
        RescuedGrows(s.tasks, s.bundles, n - 1);
      }
    }
  }

  /** Both halves of recovery, from whatever a crash left. */
  lemma RestartOwes(s: State)
    requires Kept(s)
    ensures Kept(After(s, Restart(true))) && Owed(After(s, Restart(true)))
  {
    var mid := s.(tasks := Requeued(s.tasks));
    NothingRevivedKeeps(s, mid);
    RescuedKeeps(mid, |s.bundles|);
    RescuedOwes(mid, |s.bundles|);
  }

  lemma AskKeeps(s: State, kind: Kind, account: nat, subject: nat)
    requires Kept(s)
    ensures Kept(After(s, Ask(kind, account, subject)))
  {
    EnqueuedOnce(s, kind, account, subject);
    if kind != ApplyBundle {
      EnqueuedBelongs(s, kind, account, subject);
    }
  }

  lemma AcceptKeeps(s: State, b: nat)
    requires Kept(s)
    ensures Kept(After(s, Accept(b)))
  {
    if b < |s.bundles| && s.bundles[b].phase == Proposed {
      var mid := s.(bundles := s.bundles[b := s.bundles[b].(phase := Accepted)]);
      NothingRevivedKeeps(s, mid);
      EnqueuedOnce(mid, ApplyBundle, s.bundles[b].account, b);
      EnqueuedBelongs(mid, ApplyBundle, s.bundles[b].account, b);
    }
  }

  lemma RetryKeeps(s: State, i: nat)
    requires Kept(s)
    ensures Kept(After(s, Retry(i)))
  {
    if i < |s.tasks| && s.tasks[i].status == Failed {
      var t := s.tasks[i];
      assert t in s.tasks;
      EnqueuedOnce(s, t.kind, t.account, t.subject);
      EnqueuedBelongs(s, t.kind, t.account, t.subject);
    }
  }

  lemma StepKeeps(s: State, op: Op)
    requires Kept(s)
    ensures Kept(After(s, op))
  {
    match op
    case Ask(kind, account, subject) => AskKeeps(s, kind, account, subject);
    case Accept(b) => AcceptKeeps(s, b);
    case Retry(i) => RetryKeeps(s, i);
    case Restart(recovered) => RestartOwes(s);
    case _ => NothingRevivedKeeps(s, After(s, op));
  }

  lemma OwingStays(s: State, after: State, b: nat)
    requires OwedTo(s, b) && |after.tasks| >= |s.tasks|
    requires forall i :: 0 <= i < |s.tasks| && s.tasks[i].status != Done ==>
               after.tasks[i].kind == s.tasks[i].kind && after.tasks[i].subject == s.tasks[i].subject
               && (s.tasks[i].kind == ApplyBundle && s.tasks[i].subject == b ==> after.tasks[i].status != Done)
    ensures OwedTo(after, b)
  {
    var i :| 0 <= i < |s.tasks| && s.tasks[i].kind == ApplyBundle && s.tasks[i].subject == b && s.tasks[i].status != Done;
    assert after.tasks[i].kind == ApplyBundle && after.tasks[i].subject == b;
  }

  lemma AcceptOwes(s: State, b: nat)
    requires Kept(s) && Owed(s) && b < |s.bundles| && s.bundles[b].phase == Proposed
    ensures OwedTo(After(s, Accept(b)), b)
  {
    EnqueuedOwes(s, s.bundles[b].account, b);
    assert After(s, Accept(b)).tasks == s.(tasks := Enqueued(s.tasks, ApplyBundle, s.bundles[b].account, b)).tasks;
  }

  lemma StepOwes(s: State, op: Op)
    requires Kept(s) && Owed(s) && op != Restart(true)
    ensures Owed(After(s, op))
  {
    var after := After(s, op);
    forall b | 0 <= b < |after.bundles| && after.bundles[b].phase == Accepted ensures OwedTo(after, b) {
      if op == Accept(b) && s.bundles[b].phase == Proposed {
        AcceptOwes(s, b);
      } else {
        assert s.bundles[b].phase == Accepted;
        OwingStays(s, after, b);
      }
    }
  }

  /** After a startup that recovered, through claims, failures, stops and restarts, recovered or not, every accepted bundle has an apply task that is queued, running or failed, and no ask has two live rows. */
  lemma {:induction false} NoAcceptedBundleIsLost(s: State, ops: seq<Op>)
    requires Kept(s) && Owed(s)
    ensures Kept(Run(s, ops)) && Owed(Run(s, ops))
    decreases ops
  {
    if ops != [] {
      StepKeeps(s, ops[0]);
      if ops[0] == Restart(true) {
        RestartOwes(s);
      } else {
        StepOwes(s, ops[0]);
      }
      NoAcceptedBundleIsLost(After(s, ops[0]), ops[1..]);
    }
  }

  predicate NoRestart(ops: seq<Op>) { forall op <- ops :: !op.Restart? }

  // ------------------------------------------------------------------ what recovery is for

  predicate HasLane(s: State, i: nat) { exists a <- s.lanes :: s.lanes[a] == i }

  /** The row is one that somebody will act on: the dispatcher, the person it has failed before, or its lane. */
  predicate Attending(s: State, i: nat, b: nat) {
    && i < |s.tasks| && s.tasks[i].kind == ApplyBundle && s.tasks[i].subject == b
    && (s.tasks[i].status == Queued || s.tasks[i].status == Failed || (s.tasks[i].status == Running && HasLane(s, i)))
  }

  ghost predicate Attended(s: State, b: nat) { exists i: nat :: Attending(s, i, b) }

  predicate IsAccepted(s: State, b: nat) { b < |s.bundles| && s.bundles[b].phase == Accepted }

  ghost predicate AllAttended(s: State) { forall b: nat :: IsAccepted(s, b) ==> Attended(s, b) }

  /** Some accepted bundle depends on a row that was running; or has no row at all, as only builds without a queue leave one. */
  ghost predicate NeedsRecovery(s: State) {
    exists b: nat :: IsAccepted(s, b) && !Attended(s.(lanes := map[]), b)
  }

  /** A lane goes when its row says what became of it, and what is restarted recovers. */
  predicate Smooth(s: State, op: Op) {
    && (op.LaneGone? && op.account in s.lanes && s.lanes[op.account] < |s.tasks| ==> s.tasks[s.lanes[op.account]].status != Running)
    && op != Restart(false)
  }

  predicate Smoothly(s: State, ops: seq<Op>)
    decreases ops
  {
    ops == [] || (Smooth(s, ops[0]) && Smoothly(After(s, ops[0]), ops[1..]))
  }

  lemma AttendedAfterRestart(s: State)
    requires Kept(s)
    ensures AllAttended(After(s, Restart(true)))
  {
    var after := After(s, Restart(true));
    RestartOwes(s);
    RescuedNotRunning(Requeued(s.tasks), s.bundles, |s.bundles|);
    forall b: nat | IsAccepted(after, b) ensures Attended(after, b) {
      assert OwedTo(after, b);
      var i: nat :| i < |after.tasks| && after.tasks[i].kind == ApplyBundle && after.tasks[i].subject == b && after.tasks[i].status != Done;
      assert Attending(after, i, b);
    }
  }

  predicate NoneRunning(tasks: seq<Task>) { forall i :: 0 <= i < |tasks| ==> tasks[i].status != Running }

  lemma {:induction false} RescuedNotRunning(tasks: seq<Task>, bundles: seq<Bundle>, n: nat)
    requires n <= |bundles| && NoneRunning(tasks)
    ensures NoneRunning(Rescued(tasks, bundles, n))
  {
    if n > 0 {
      RescuedNotRunning(tasks, bundles, n - 1);
    }
  }

  /** What attends to a bundle does so still. */
  lemma AttendingStays(s: State, op: Op, i: nat, b: nat)
    requires Attending(s, i, b) && IsAccepted(s, b) && Smooth(s, op) && !op.Restart?
    ensures IsAccepted(After(s, op), b) ==> Attending(After(s, op), i, b)
  {
    var after := After(s, op);
    if s.tasks[i].status == Running {
      var a :| a in s.lanes && s.lanes[a] == i;
      if op.Claim? && !s.stopping && NextFrom(s, 0) < |s.tasks| {
        assert Claimable(s, NextFrom(s, 0));
      }
      assert a in after.lanes && after.lanes[a] == i;
    } else if op.Claim? && !s.stopping && NextFrom(s, 0) == i {
      assert Claimable(s, i);
      assert s.tasks[i].account in after.lanes && after.lanes[s.tasks[i].account] == i;
    }
  }

  lemma AcceptAttends(s: State, b: nat)
    requires Kept(s) && b < |s.bundles| && s.bundles[b].phase == Proposed
    ensures Attended(After(s, Accept(b)), b)
  {
    var after := After(s, Accept(b));
    assert !AlreadyAsked(s.tasks, ApplyBundle, s.bundles[b].account, b);
    assert Attending(after, |s.tasks|, b);
  }

  lemma StepAttends(s: State, op: Op)
    requires Kept(s) && AllAttended(s) && Smooth(s, op)
    ensures AllAttended(After(s, op))
  {
    var after := After(s, op);
    if op.Restart? {
      AttendedAfterRestart(s);
    } else {
      forall b: nat | IsAccepted(after, b) ensures Attended(after, b) {
        if op == Accept(b) && s.bundles[b].phase == Proposed {
          AcceptAttends(s, b);
        } else {
          assert IsAccepted(s, b);
          var i: nat :| Attending(s, i, b);
          AttendingStays(s, op, i, b);
        }
      }
    }
  }

  lemma {:induction false} StaysAttended(s: State, ops: seq<Op>)
    requires Kept(s) && AllAttended(s) && Smoothly(s, ops)
    ensures AllAttended(Run(s, ops))
    decreases ops
  {
    if ops != [] {
      StepKeeps(s, ops[0]);
      StepAttends(s, ops[0]);
      StaysAttended(After(s, ops[0]), ops[1..]);
    }
  }

  ghost predicate AttendedThrough(s: State, ops: seq<Op>) { Smoothly(s, ops) ==> AllAttended(Run(s, ops)) }

  /** From a startup on, while lanes write down what became of their rows, somebody attends to every accepted bundle,
      exactly if recovery succeeded or there was nothing to recover.  The dispatcher, whatever it claims, does not
      make good a recovery that failed: `start` says that it retries, and it does not. */
  lemma AttendedExactlyWhenRecovered(s: State, recovered: bool)
    requires Kept(s)
    ensures recovered || !NeedsRecovery(s) <==>
              forall ops :: AttendedThrough(After(s, Restart(recovered)), ops)
  {
    var start := After(s, Restart(recovered));
    if recovered || !NeedsRecovery(s) {
      if recovered {
        AttendedAfterRestart(s);
      } else {
        NothingToRecover(s);
      }
      StepKeeps(s, Restart(recovered));
      forall ops ensures AttendedThrough(start, ops) {
        if Smoothly(start, ops) {
          StaysAttended(start, ops);
        }
      }
    } else {
      var none: seq<Op> := [];
      var b: nat :| IsAccepted(s, b) && !Attended(s.(lanes := map[]), b);
      NotAttendedWithout(s, b);
      assert start == After(s, Restart(false)) && IsAccepted(start, b) && !Attended(start, b);
      assert !AllAttended(start) && Run(start, none) == start;
      assert !AttendedThrough(start, none);
    }
  }

  lemma NothingToRecover(s: State)
    requires !NeedsRecovery(s)
    ensures AllAttended(After(s, Restart(false)))
  {
    var start, bare := After(s, Restart(false)), s.(lanes := map[]);
    forall b: nat | IsAccepted(start, b) ensures Attended(start, b) {
      assert IsAccepted(s, b) && Attended(bare, b);
      var i: nat :| Attending(bare, i, b);
      assert Attending(start, i, b);
    }
  }

  lemma NotAttendedWithout(s: State, b: nat)
    requires !Attended(s.(lanes := map[]), b)
    ensures !Attended(After(s, Restart(false)), b)
  {
    var start, bare := After(s, Restart(false)), s.(lanes := map[]);
    forall i: nat ensures !Attending(start, i, b) {
      assert !Attending(bare, i, b);
    }
  }

  ghost predicate Unattended(s: State, b: nat) { IsAccepted(s, b) && !Attended(s, b) }

  lemma StaysUnattended(s: State, op: Op, b: nat)
    requires Unattended(s, b) && !op.Restart?
    ensures Unattended(After(s, op), b)
  {
    var after := After(s, op);
    assert op.Finish? && op.account in s.lanes ==> !Attending(s, s.lanes[op.account], b);
    assert op.Retry? ==> !Attending(s, op.task, b);
    assert !Attending(s, NextFrom(s, 0), b);
    forall i: nat ensures !Attending(after, i, b) {
      assert !Attending(s, i, b);
    }
  }

  /** A bundle that nobody attends to is attended to by nobody, through whatever the dispatcher does, until a restart. */
  lemma {:induction false} UnattendedStays(s: State, ops: seq<Op>, b: nat)
    requires Unattended(s, b) && NoRestart(ops)
    ensures Unattended(Run(s, ops), b)
    decreases ops
  {
    if ops != [] {
      assert !ops[0].Restart?;
      StaysUnattended(s, ops[0], b);
      UnattendedStays(After(s, ops[0]), ops[1..], b);
    }
  }

  lemma FourSteps(s: State, a: Op, b: Op, c: Op, d: Op)
    ensures Run(s, [a, b, c, d]) == After(After(After(After(s, a), b), c), d)
  {
    assert [a, b, c, d][1..] == [b, c, d] && [b, c, d][1..] == [c, d] && [c, d][1..] == [d] && [d][1..] == [];
    assert Run(After(After(After(s, a), b), c), [d]) == After(After(After(After(s, a), b), c), d);
    assert Run(After(After(s, a), b), [c, d]) == After(After(After(After(s, a), b), c), d);
  }

  lemma AcceptedAndClaimed()
    ensures After(After(After(State([], [], map[], false), Propose(0)), Accept(0)), Claim)
            == State([Task(ApplyBundle, 0, 0, Running, 1)], [Bundle(0, Accepted)], map[0 := 0], false)
  {
    var s := After(After(State([], [], map[], false), Propose(0)), Accept(0));
    assert s == State([Task(ApplyBundle, 0, 0, Queued, 0)], [Bundle(0, Accepted)], map[], false);
    assert Claimable(s, 0) && NextFrom(s, 0) == 0;
  }

  /** A bundle accepted and claimed, a crash, and a recovery that fails: the row is running for good, and says so. */
  lemma CrashedAndNotRecovered()
    ensures var s := Run(State([], [], map[], false), [Propose(0), Accept(0), Claim, Restart(false)]);
            Kept(s) && Owed(s) && Stuck(s, 0) && Unattended(s, 0)
  {
    FourSteps(State([], [], map[], false), Propose(0), Accept(0), Claim, Restart(false));
    AcceptedAndClaimed();
    var s := State([Task(ApplyBundle, 0, 0, Running, 1)], [Bundle(0, Accepted)], map[], false);
    assert s.tasks[0].status != Done && OwedTo(s, 0);
  }

  predicate Stuck(s: State, i: nat) {
    i < |s.tasks| && s.tasks[i].status == Running && forall a <- s.lanes :: s.lanes[a] != i
  }

  /** A row left `running` without a lane stays so until a restart recovers it, and every later ask for
      the same work joins it: no other row for that ask is ever live. */
  lemma {:induction false} StuckRowsStay(s: State, ops: seq<Op>, i: nat)
    requires Kept(s) && Stuck(s, i) && NoRestart(ops)
    ensures var later := Run(s, ops);
            && Stuck(later, i)
            && forall j :: 0 <= j < |later.tasks| && j != i ==>
                 !Matches(later.tasks[j], s.tasks[i].kind, s.tasks[i].account, s.tasks[i].subject)
    decreases ops
  {
    if ops == [] {
      assert forall j :: 0 <= j < i && Live(s.tasks[j]) ==> !Matches(s.tasks[i], s.tasks[j].kind, s.tasks[j].account, s.tasks[j].subject);
    } else {
      StepKeeps(s, ops[0]);
      var after := After(s, ops[0]);
      assert !ops[0].Restart? && after.tasks[i] == s.tasks[i];
      StuckRowsStay(after, ops[1..], i);
    }
  }

  // ------------------------------------------------------------------ lanes and waiting

  /** A claim starts the oldest waiting task of an account that has no lane, and gives it its lane. */
  lemma ClaimStartsTheOldest(s: State)
    requires !s.stopping
    ensures var i, after := NextFrom(s, 0), After(s, Claim);
            if i == |s.tasks| then after == s && forall t <- s.tasks :: t.status == Queued ==> t.account in s.lanes
            else
              && s.tasks[i].status == Queued && after.tasks[i] == s.tasks[i].(status := Running, attempts := s.tasks[i].attempts + 1)
              && s.tasks[i].account !in s.lanes && after.lanes == s.lanes[s.tasks[i].account := i]
              && (forall j :: 0 <= j < i && s.tasks[j].account == s.tasks[i].account ==> s.tasks[j].status != Queued)
              && (forall j :: 0 <= j < |s.tasks| && j != i ==> after.tasks[j] == s.tasks[j])
  {
    var i := NextFrom(s, 0);
    if i == |s.tasks| {
      forall t | t in s.tasks && t.status == Queued ensures t.account in s.lanes {
        var j :| 0 <= j < |s.tasks| && s.tasks[j] == t;
        assert !Claimable(s, j);
      }
    } else {
      assert Claimable(s, i);
      forall j | 0 <= j < i && s.tasks[j].account == s.tasks[i].account ensures s.tasks[j].status != Queued {
        assert !Claimable(s, j);
      }
    }
  }

  /** Lanes may go, rows may be added, and none may come to wait. */
  lemma LanesFrame(s: State, after: State)
    requires LanesHold(s) && |s.tasks| <= |after.tasks|
    requires forall a <- after.lanes :: a in s.lanes && after.lanes[a] == s.lanes[a]
    requires forall i :: 0 <= i < |s.tasks| ==>
               after.tasks[i].account == s.tasks[i].account && (after.tasks[i].status == Queued ==> s.tasks[i].status == Queued)
    ensures LanesHold(after)
  {}

  lemma WrittenKeepsLanes(s: State, account: nat, outcome: Outcome)
    requires LanesHold(s)
    ensures LanesHold(After(s, Finish(account, outcome)))
  {}

  lemma StepKeepsLanes(s: State, op: Op)
    requires LanesHold(s)
    ensures LanesHold(After(s, op))
  {
    match op
    case Claim =>
      if !s.stopping {
        ClaimStartsTheOldest(s);
      }
    case Finish(account, outcome) => WrittenKeepsLanes(s, account, outcome);
    case Restart(_) =>
    case _ => LanesFrame(s, After(s, op));
  }

  lemma {:induction false} LanesAlwaysHold(s: State, ops: seq<Op>)
    requires LanesHold(s)
    ensures LanesHold(Run(s, ops))
    decreases ops
  {
    if ops != [] {
      StepKeepsLanes(s, ops[0]);
      LanesAlwaysHold(After(s, ops[0]), ops[1..]);
    }
  }

  /** Tasks before place `n`, of one account, that still wait. */
  function Waiting(tasks: seq<Task>, account: nat, n: nat): nat
    requires n <= |tasks|
  {
    if n == 0 then 0
    else Waiting(tasks, account, n - 1)
         + (if tasks[n - 1].account == account && tasks[n - 1].status == Queued then 1 else 0)
  }

  /** Tasks before place `n`, of any account, that still wait. */
  function WaitingAnywhere(tasks: seq<Task>, n: nat): nat
    requires n <= |tasks|
  {
    if n == 0 then 0 else WaitingAnywhere(tasks, n - 1) + (if tasks[n - 1].status == Queued then 1 else 0)
  }

  lemma WaitingDrops(before: seq<Task>, after: seq<Task>, account: nat, n: nat, i: nat)
    requires n <= |before| <= |after|
    requires forall j :: 0 <= j < n && j != i ==> before[j].account == after[j].account && (after[j].status == Queued ==> before[j].status == Queued)
    requires i < n ==> before[i].account == after[i].account && before[i].status == Queued && after[i].status != Queued
    ensures Waiting(after, account, n) <= Waiting(before, account, n) - (if i < n && before[i].account == account then 1 else 0)
    ensures WaitingAnywhere(after, n) <= WaitingAnywhere(before, n) - (if i < n then 1 else 0)
  {
    if n > 0 {
      WaitingDrops(before, after, account, n - 1, i);
    }
  }

  predicate Waits(s: State, t: nat) { t < |s.tasks| && s.tasks[t].status == Queued }

  /** How many tasks of a waiting task's account are started while it waits. */
  function StartsBefore(s: State, ops: seq<Op>, t: nat): nat
    decreases ops
  {
    if ops == [] || !Waits(s, t) then 0
    else
      var i := NextFrom(s, 0);
      (if ops[0].Claim? && !s.stopping && i < |s.tasks| && i != t && s.tasks[i].account == s.tasks[t].account then 1 else 0)
      + StartsBefore(After(s, ops[0]), ops[1..], t)
  }

  predicate NoneComesToWait(before: seq<Task>, after: seq<Task>) {
    && |before| <= |after|
    && forall j :: 0 <= j < |before| ==>
         before[j].account == after[j].account && (after[j].status == Queued ==> before[j].status == Queued)
  }

  lemma NoneIsPutBack(s: State, op: Op)
    requires !op.Restart? && !s.stopping
    ensures NoneComesToWait(s.tasks, After(s, op).tasks)
  {}

  /** While nothing is put back, no step adds to the older tasks a task waits for, and a start of its account takes one away. */
  lemma NothingJumpsTheQueue(s: State, op: Op, t: nat)
    requires !op.Restart? && !s.stopping && Waits(s, t)
    ensures var after, account := After(s, op), s.tasks[t].account;
            && |after.tasks| >= |s.tasks| && after.tasks[t].account == account
            && Waiting(after.tasks, account, t) <= Waiting(s.tasks, account, t)
            && WaitingAnywhere(after.tasks, t) <= WaitingAnywhere(s.tasks, t)
            && (op.Claim? && NextFrom(s, 0) < |s.tasks| && NextFrom(s, 0) != t && s.tasks[NextFrom(s, 0)].account == account ==>
                  Waiting(after.tasks, account, t) < Waiting(s.tasks, account, t))
  {
    var after, i := After(s, op), NextFrom(s, 0);
    NoneIsPutBack(s, op);
    if op.Claim? {
      ClaimStartsTheOldest(s);
      WaitingDrops(s.tasks, after.tasks, s.tasks[t].account, t, i);
    } else {
      WaitingDrops(s.tasks, after.tasks, s.tasks[t].account, t, |s.tasks|);
    }
  }

  /** A task waits for no more starts of its own account than there were older tasks waiting there. */
  lemma {:induction false} WaitIsBounded(s: State, ops: seq<Op>, t: nat)
    requires NoRestart(ops) && Waits(s, t)
    ensures StartsBefore(s, ops, t) <= Waiting(s.tasks, s.tasks[t].account, t)
    decreases ops
  {
    if s.stopping {
      NoStartsOnceStopping(s, ops, t);
    } else if ops != [] {
      assert !ops[0].Restart?;
      NothingJumpsTheQueue(s, ops[0], t);
      if Waits(After(s, ops[0]), t) {
        WaitIsBounded(After(s, ops[0]), ops[1..], t);
      }
    }
  }

  lemma {:induction false} NoStartsOnceStopping(s: State, ops: seq<Op>, t: nat)
    requires NoRestart(ops) && s.stopping
    ensures StartsBefore(s, ops, t) == 0
    decreases ops
  {
    if ops != [] {
      assert !ops[0].Restart?;
      NoStartsOnceStopping(After(s, ops[0]), ops[1..], t);
    }
  }

  function Claims(ops: seq<Op>): nat { if ops == [] then 0 else (if ops[0].Claim? then 1 else 0) + Claims(ops[1..]) }

  /** It is this task's turn in its account: no lane there, and nothing older waiting there. */
  predicate Next(s: State, t: nat) {
    Waits(s, t) && s.tasks[t].account !in s.lanes
    && forall j :: 0 <= j < t && s.tasks[j].account == s.tasks[t].account ==> s.tasks[j].status != Queued
  }

  /** Once it is a task's turn in its account, every claim that is not it takes one of the finitely many
      older tasks waiting elsewhere: so many claims later it has started, unless the service is stopping. */
  lemma {:induction false} TurnComes(s: State, ops: seq<Op>, t: nat)
    requires NoRestart(ops) && Next(s, t) && Claims(ops) > WaitingAnywhere(s.tasks, t)
    ensures Run(s, ops).stopping || Started(s, ops, t)
    decreases ops
  {
    if s.stopping {
      StoppingStays(s, ops);
    } else if Claims(ops) > 0 {
      assert !ops[0].Restart?;
      NothingJumpsTheQueue(s, ops[0], t);
      var after, i := After(s, ops[0]), NextFrom(s, 0);
      if ops[0].Claim? {
        assert Claimable(s, t);
        assert i <= t;
        ClaimStartsTheOldest(s);
        if i != t {
          WaitingDrops(s.tasks, after.tasks, s.tasks[t].account, t, i);
          TurnComes(after, ops[1..], t);
        }
      } else {
        assert Next(after, t);
        TurnComes(after, ops[1..], t);
      }
    }
  }

  predicate Started(s: State, ops: seq<Op>, t: nat)
    decreases ops
  {
    ops != [] && ((Waits(s, t) && !Waits(After(s, ops[0]), t)) || Started(After(s, ops[0]), ops[1..], t))
  }

  lemma {:induction false} StoppingStays(s: State, ops: seq<Op>)
    requires NoRestart(ops) && s.stopping
    ensures Run(s, ops).stopping
    decreases ops
  {
    if ops != [] {
      assert !ops[0].Restart?;
      StoppingStays(After(s, ops[0]), ops[1..]);
    }
  }

  // ------------------------------------------------------------------ the turn comes

  /** One round: the lanes there are go, and then there are claims; anything else may happen all along. */
  datatype Round = Round(going: seq<Op>, claims: seq<Op>)

  predicate NeverStops(ops: seq<Op>) { forall op <- ops :: !op.Restart? && !op.Stop? }

  /** Every lane held at its start goes, and there are more claims than older tasks then waiting anywhere. */
  predicate Fair(s: State, r: Round, t: nat) {
    && NeverStops(r.going + r.claims) && (forall a <- s.lanes :: LaneGone(a) in r.going)
    && t <= |Run(s, r.going).tasks| && Claims(r.claims) > WaitingAnywhere(Run(s, r.going).tasks, t)
  }

  function Flat(rounds: seq<Round>): seq<Op> { if rounds == [] then [] else rounds[0].going + rounds[0].claims + Flat(rounds[1..]) }

  predicate AllFair(s: State, rounds: seq<Round>, t: nat)
    decreases rounds
  {
    rounds != [] ==> Fair(s, rounds[0], t) && AllFair(Run(s, rounds[0].going + rounds[0].claims), rounds[1..], t)
  }

  /** How many older tasks of its account a task waits for. */
  function Ahead(s: State, t: nat): nat
    requires t < |s.tasks|
  {
    Waiting(s.tasks, s.tasks[t].account, t)
  }

  /** The task has started, or it waits for no more than it did. */
  predicate NoFurther(s: State, ops: seq<Op>, t: nat)
    requires t < |s.tasks|
  {
    Started(s, ops, t) || (Waits(Run(s, ops), t) && !Run(s, ops).stopping && Run(s, ops).tasks[t].account == s.tasks[t].account
                           && Ahead(Run(s, ops), t) <= Ahead(s, t))
  }

  /** And for fewer. */
  predicate Closer(s: State, ops: seq<Op>, t: nat)
    requires t < |s.tasks|
  {
    Started(s, ops, t) || (NoFurther(s, ops, t) && Ahead(Run(s, ops), t) < Ahead(s, t))
  }

  lemma {:induction false} NeverFurther(s: State, ops: seq<Op>, t: nat)
    requires NeverStops(ops) && !s.stopping && Waits(s, t)
    ensures NoFurther(s, ops, t)
    decreases ops
  {
    if ops != [] {
      assert !ops[0].Restart? && !ops[0].Stop?;
      NothingJumpsTheQueue(s, ops[0], t);
      if Waits(After(s, ops[0]), t) {
        NeverFurther(After(s, ops[0]), ops[1..], t);
      }
    }
  }

  /** Once the account's lane has gone it stays free, or a task of the account is started. */
  lemma {:induction false} FreedOrCloser(s: State, ops: seq<Op>, t: nat)
    requires NeverStops(ops) && !s.stopping && Waits(s, t)
    requires s.tasks[t].account in s.lanes ==> LaneGone(s.tasks[t].account) in ops
    ensures Closer(s, ops, t) || s.tasks[t].account !in Run(s, ops).lanes
    decreases ops
  {
    if ops != [] {
      var account, after := s.tasks[t].account, After(s, ops[0]);
      assert !ops[0].Restart? && !ops[0].Stop?;
      NothingJumpsTheQueue(s, ops[0], t);
      if Waits(after, t) {
        NeverFurther(after, ops[1..], t);
        assert LaneGone(account) in ops ==> ops[0] == LaneGone(account) || LaneGone(account) in ops[1..];
        if account !in after.lanes || LaneGone(account) in ops[1..] {
          FreedOrCloser(after, ops[1..], t);
        } else {
          assert ops[0].Claim? && Ahead(after, t) < Ahead(s, t);
        }
      }
    }
  }

  /** Of two tasks of an account that wait, when the older is started the younger is closer. */
  lemma {:induction false} StartedIsCloser(s: State, ops: seq<Op>, u: nat, t: nat)
    requires NeverStops(ops) && !s.stopping && Waits(s, u) && Waits(s, t) && u <= t && s.tasks[u].account == s.tasks[t].account
    requires Started(s, ops, u)
    ensures Closer(s, ops, t)
    decreases ops
  {
    var after := After(s, ops[0]);
    assert ops[0] in ops && !ops[0].Restart? && !ops[0].Stop?;
    NothingJumpsTheQueue(s, ops[0], t);
    if Waits(after, t) {
      NeverFurther(after, ops[1..], t);
      NothingJumpsTheQueue(s, ops[0], u);
      if Waits(after, u) {
        StartedIsCloser(after, ops[1..], u, t);
      } else {
        OnlyClaimsStart(s, ops[0], u);
      }
    }
  }

  lemma OnlyClaimsStart(s: State, op: Op, u: nat)
    requires !op.Restart? && !s.stopping && Waits(s, u) && !Waits(After(s, op), u)
    ensures op.Claim? && NextFrom(s, 0) == u
  {}

  lemma {:induction false} OldestWaiting(s: State, t: nat) returns (u: nat)
    requires Waits(s, t) && s.tasks[t].account !in s.lanes
    ensures u <= t && s.tasks[u].account == s.tasks[t].account && Next(s, u)
  {
    if Next(s, t) {
      u := t;
    } else {
      var j: nat :| j < t && s.tasks[j].account == s.tasks[t].account && s.tasks[j].status == Queued;
      u := OldestWaiting(s, j);
    }
  }

  lemma {:induction false} FewerBefore(tasks: seq<Task>, u: nat, t: nat)
    requires u <= t <= |tasks|
    ensures WaitingAnywhere(tasks, u) <= WaitingAnywhere(tasks, t)
    decreases t
  {
    if u < t {
      FewerBefore(tasks, u, t - 1);
    }
  }

  lemma {:induction false} NeverStopping(s: State, ops: seq<Op>)
    requires NeverStops(ops) && !s.stopping
    ensures !Run(s, ops).stopping
    decreases ops
  {
    if ops != [] {
      assert !ops[0].Restart? && !ops[0].Stop?;
      NeverStopping(After(s, ops[0]), ops[1..]);
    }
  }

  lemma ClaimsHelp(s: State, ops: seq<Op>, t: nat)
    requires NeverStops(ops) && !s.stopping && Waits(s, t) && s.tasks[t].account !in s.lanes
    requires Claims(ops) > WaitingAnywhere(s.tasks, t)
    ensures Closer(s, ops, t)
  {
    var u := OldestWaiting(s, t);
    FewerBefore(s.tasks, u, t);
    TurnComes(s, ops, u);
    NeverStopping(s, ops);
    StartedIsCloser(s, ops, u, t);
  }

  lemma {:induction false} RunOn(s: State, a: seq<Op>, b: seq<Op>, t: nat)
    ensures Run(s, a + b) == Run(Run(s, a), b)
    ensures Started(s, a, t) || Started(Run(s, a), b, t) ==> Started(s, a + b, t)
    decreases a
  {
    if a == [] {
      assert a + b == b;
    } else {
      assert (a + b)[1..] == a[1..] + b;
      RunOn(After(s, a[0]), a[1..], b, t);
    }
  }

  lemma RoundHelps(s: State, r: Round, t: nat)
    requires !s.stopping && Waits(s, t) && Fair(s, r, t)
    ensures Closer(s, r.going + r.claims, t)
  {
    forall op | op in r.going || op in r.claims ensures !op.Restart? && !op.Stop? {
      assert op in r.going + r.claims;
    }
    RunOn(s, r.going, r.claims, t);
    NeverFurther(s, r.going, t);
    FreedOrCloser(s, r.going, t);
    if !Started(s, r.going, t) {
      var mid := Run(s, r.going);
      NeverFurther(mid, r.claims, t);
      if s.tasks[t].account !in mid.lanes {
        ClaimsHelp(mid, r.claims, t);
      }
    }
  }

  /** However busy its account is and however many tasks wait there, a task is started within one round more than
      there are older ones of its account waiting. */
  lemma {:induction false} TurnArrives(s: State, rounds: seq<Round>, t: nat)
    requires !s.stopping && Waits(s, t) && AllFair(s, rounds, t) && |rounds| > Waiting(s.tasks, s.tasks[t].account, t)
    ensures Started(s, Flat(rounds), t)
    decreases rounds
  {
    var r := rounds[0];
    RoundHelps(s, r, t);
    RunOn(s, r.going + r.claims, Flat(rounds[1..]), t);
    if !Started(s, r.going + r.claims, t) {
      TurnArrives(Run(s, r.going + r.claims), rounds[1..], t);
    }
  }
}
