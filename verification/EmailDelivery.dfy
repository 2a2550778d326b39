/** One call of processJob is a run of the step machine, and a job on its own is settled after at
    most five sends. */
module EmailDelivery {
  import opened EmailStore
  import opened EmailRetry
  import opened EmailQueue
  import M = EmailWorker

  function At(s: M.State, pc: M.PC, pid: nat): M.State {
    s.(workers := [M.Worker(pid, pc)])
  }

  function Ok(executeAt: int): M.Event {
    M.Command(0, M.Choice(M.Fine, Transient, 0, executeAt, []))
  }

  function Refused(c: Classification): M.Event {
    M.Command(0, M.Choice(M.FailsBefore, c, 0, 0, []))
  }

  /** A worker that popped `job`, acquired the lock and called the provider. */
  lemma RunToOutcome(s: M.State, pid: nat, job: Job)
    requires job.jobId !in s.locks
    ensures var locked := s.(locks := s.locks[job.jobId := M.Owner(pid, job.jobId, job.attempt)]);
            M.Leads(At(s, M.AcquireLock(job), pid), At(locked, M.Send(job), pid))
  {
    var locked := s.(locks := s.locks[job.jobId := M.Owner(pid, job.jobId, job.attempt)]);
    var start := At(s, M.AcquireLock(job), pid);
    M.LeadsHere(start);
    M.LeadsOn(start, start, Ok(0), At(locked, M.MarkProcessing(job), pid));
    M.LeadsOn(start, At(locked, M.MarkProcessing(job), pid), Ok(0), At(locked, M.Send(job), pid));
  }

  lemma RunReleases(start: M.State, s: M.State, pid: nat, job: Job)
    requires M.Leads(start, At(s, M.Release(job), pid))
    requires job.jobId in s.locks && s.locks[job.jobId] == M.Owner(pid, job.jobId, job.attempt)
    ensures M.Leads(start, At(s.(locks := s.locks - {job.jobId}), M.ReadDue, pid))
  {
    M.LeadsOn(start, At(s, M.Release(job), pid), Ok(0), At(s.(locks := s.locks - {job.jobId}), M.ReadDue, pid));
  }

  lemma RunAccepted(start: M.State, s: M.State, pid: nat, job: Job) returns (s1: M.State)
    requires M.Leads(start, At(s, M.Send(job), pid))
    ensures M.Leads(start, At(s1, M.Release(job), pid)) && s1.locks == s.locks
    ensures s1.lists == LRemProcessing(s.lists, Encoded(job))
  {
    var sent := M.CountSend(s.(accepted := s.accepted + {job.jobId}), M.Send(job));
    s1 := sent.(lists := LRemProcessing(s.lists, Encoded(job)));
    M.LeadsOn(start, At(s, M.Send(job), pid), Ok(0), At(sent, M.MarkSent(job), pid));
    M.LeadsOn(start, At(sent, M.MarkSent(job), pid), Ok(0), At(sent, M.AckSent(job), pid));
    M.LeadsOn(start, At(sent, M.AckSent(job), pid), Ok(0), At(s1, M.Release(job), pid));
  }

  lemma RunRetried(start: M.State, s: M.State, pid: nat, job: Job, c: Classification, executeAt: int) returns (s1: M.State)
    requires M.Leads(start, At(s, M.Send(job), pid)) && ShouldRetry(c, job.attempt + 1)
    ensures M.Leads(start, At(s1, M.RetryAck(job), pid)) && s1.locks == s.locks
    ensures s1.lists == ZAddDelayed(s.lists, Encoded(NextAttempt(job)), executeAt)
  {
    var sent := M.CountSend(s, M.Send(job));
    s1 := sent.(lists := ZAddDelayed(s.lists, Encoded(NextAttempt(job)), executeAt));
    M.LeadsOn(start, At(s, M.Send(job), pid), Refused(c), At(sent, M.RetryDelay(job), pid));
    M.LeadsOn(start, At(sent, M.RetryDelay(job), pid), Ok(executeAt), At(s1, M.RetryAck(job), pid));
  }

  lemma RunDeadLettered(start: M.State, s: M.State, pid: nat, job: Job, c: Classification) returns (s1: M.State)
    requires M.Leads(start, At(s, M.Send(job), pid)) && !ShouldRetry(c, job.attempt + 1)
    ensures M.Leads(start, At(s1, M.DlqAck(job, c), pid)) && s1.locks == s.locks
    ensures s1.lists == LPushDlq(s.lists, DlqEntry(job, c))
  {
    var sent := M.CountSend(s, M.Send(job));
    s1 := sent.(lists := LPushDlq(s.lists, DlqEntry(job, c)), deadLettered := sent.deadLettered + {job.jobId});
    M.LeadsOn(start, At(s, M.Send(job), pid), Refused(c), At(sent, M.DlqPush(job, c), pid));
    M.LeadsOn(start, At(sent, M.DlqPush(job, c), pid), Ok(0), At(s1, M.DlqAck(job, c), pid));
  }

  /** The acknowledgement and the row update that end both branches of the catch block. */
  lemma RunAcked(start: M.State, s: M.State, pid: nat, job: Job, ack: M.PC, mark: M.PC) returns (s1: M.State)
    requires M.Leads(start, At(s, ack, pid))
    requires (ack == M.RetryAck(job) && mark == M.RetryMark(job)) || (ack.DlqAck? && ack.job == job && mark == M.DlqMark(job))
    ensures M.Leads(start, At(s1, M.Release(job), pid)) && s1.locks == s.locks
    ensures s1.lists == LRemProcessing(s.lists, Encoded(job))
  {
    s1 := s.(lists := LRemProcessing(s.lists, Encoded(job)));
    M.LeadsOn(start, At(s, ack, pid), Ok(0), At(s1, mark, pid));
    M.LeadsOn(start, At(s1, mark, pid), Ok(0), At(s1, M.Release(job), pid));
  }

  lemma RunRejected(start: M.State, s: M.State, pid: nat, job: Job, c: Classification, executeAt: int) returns (s1: M.State)
    requires M.Leads(start, At(s, M.Send(job), pid))
    ensures M.Leads(start, At(s1, M.Release(job), pid)) && s1.locks == s.locks
    ensures s1.lists == if ShouldRetry(c, job.attempt + 1)
                        then LRemProcessing(ZAddDelayed(s.lists, Encoded(NextAttempt(job)), executeAt), Encoded(job))
                        else LRemProcessing(LPushDlq(s.lists, DlqEntry(job, c)), Encoded(job))
  {
    hide M.Leads, ShouldRetry;
    if ShouldRetry(c, job.attempt + 1) {
      var retried := RunRetried(start, s, pid, job, c, executeAt);
      s1 := RunAcked(start, retried, pid, job, M.RetryAck(job), M.RetryMark(job));
    } else {
      var dead := RunDeadLettered(start, s, pid, job, c);
      s1 := RunAcked(start, dead, pid, job, M.DlqAck(job, c), M.DlqMark(job));
    }
  }

  lemma RunCollided(s: M.State, pid: nat, job: Job, executeAt: int) returns (s1: M.State)
    requires job.jobId in s.locks
    ensures M.Leads(At(s, M.AcquireLock(job), pid), At(s1, M.ReadDue, pid)) && s1.locks == s.locks
    ensures s1.lists == LRemProcessing(ZAddDelayed(s.lists, Encoded(job), executeAt), Encoded(job))
  {
    var start := At(s, M.AcquireLock(job), pid);
    var parked := s.(lists := ZAddDelayed(s.lists, Encoded(job), executeAt));
    s1 := parked.(lists := LRemProcessing(parked.lists, Encoded(job)));
    M.LeadsHere(start);
    M.LeadsOn(start, start, Ok(0), At(s, M.CollisionDelay(job), pid));
    M.LeadsOn(start, At(s, M.CollisionDelay(job), pid), Ok(executeAt), At(parked, M.CollisionAck(job), pid));
    M.LeadsOn(start, At(parked, M.CollisionAck(job), pid), Ok(0), At(s1, M.ReadDue, pid));
  }

  /** The lists and locks after one call. */
  lemma ProcessedIs(s: Shared, pid: nat, job: Job, outcome: Outcome, executeAt: int)
    ensures var done, e := Processed(s, pid, job, outcome, executeAt), Encoded(job);
            && done.lists == (if job.jobId in s.locks then LRemProcessing(ZAddDelayed(s.lists, e, executeAt), e)
                              else match outcome
                                   case Accepted => LRemProcessing(s.lists, e)
                                   case Rejected(c) =>
                                     if ShouldRetry(c, job.attempt + 1)
                                     then LRemProcessing(ZAddDelayed(s.lists, Encoded(NextAttempt(job)), executeAt), e)
                                     else LRemProcessing(LPushDlq(s.lists, DlqEntry(job, c)), e))
            && done.locks == s.locks
  {
  }

  /** What processJob does in one call, the step machine does command by command. */
  lemma ProcessJobIsARun(s: M.State, rows: map<string, Row>, pid: nat, job: Job, outcome: Outcome, executeAt: int)
    ensures var done := Processed(Shared(s.lists, s.locks, rows), pid, job, outcome, executeAt);
            exists s' :: M.Leads(At(s, M.AcquireLock(job), pid), At(s', M.ReadDue, pid))
                         && s'.lists == done.lists && s'.locks == done.locks
  {
    hide M.Leads, Processed, ShouldRetry, LRemProcessing, ZAddDelayed, LPushDlq;
    ProcessedIs(Shared(s.lists, s.locks, rows), pid, job, outcome, executeAt);
    var start := At(s, M.AcquireLock(job), pid);
    if job.jobId in s.locks {
      var s1 := RunCollided(s, pid, job, executeAt);
    } else {
      RunToOutcome(s, pid, job);
      var locked := s.(locks := s.locks[job.jobId := M.Owner(pid, job.jobId, job.attempt)]);
      var s1;
      match outcome {
        case Accepted => s1 := RunAccepted(start, locked, pid, job);
        case Rejected(c) => s1 := RunRejected(start, locked, pid, job, c, executeAt);
      }
      RunReleases(start, s1, pid, job);
      assert locked.locks - {job.jobId} == s.locks;
    }
  }

  /** Total wait scheduled by the first `n` retries. */
  function TotalWait(draws: nat -> real, n: nat): int {
    if n == 0 then 0 else TotalWait(draws, n - 1) + RetryDelayMs(n, draws(n))
  }

  lemma DelayNotNegative(attempt: nat, draw: real)
    ensures RetryDelayMs(attempt, draw) >= 0
  {
  }

  /** processJob on the only job there is. */
  lemma ProcessedAlone(rows: map<string, Row>, pid: nat, job: Job, outcome: Outcome, executeAt: int)
    ensures Processed(Shared(EmptyLists.(processing := [Encoded(job)]), map[], rows), pid, job, outcome, executeAt).lists
            == match outcome
               case Accepted => EmptyLists
               case Rejected(c) =>
                 if ShouldRetry(c, job.attempt + 1) then EmptyLists.(delayed := map[Encoded(NextAttempt(job)) := executeAt])
                 else EmptyLists.(dlq := [DlqEntry(job, c)])
    ensures Processed(Shared(EmptyLists.(processing := [Encoded(job)]), map[], rows), pid, job, outcome, executeAt).locks == map[]
  {
  }

  /** One round of the worker loop on a job alone in the system: pop, process, and once the clock
      reaches `executeAt`, promote what was parked. */
  method OneRound(service: Service, job: Job, outcome: Outcome, executeAt: int) returns (parked: bool)
    requires service.locks == map[] && executeAt >= 0
    requires service.q.Value() == EmptyLists.(queue := [Encoded(job)])
    modifies service, service.q
    ensures service.locks == map[]
    ensures parked <==> outcome.Rejected? && ShouldRetry(outcome.classification, job.attempt + 1)
    ensures service.q.Value() == match outcome
                                 case Accepted => EmptyLists
                                 case Rejected(c) =>
                                   if parked then EmptyLists.(queue := [Encoded(NextAttempt(job))])
                                   else EmptyLists.(dlq := [DlqEntry(job, c)])
  {
    var q := service.q;
    var popped := q.PopBlocking();
    assert popped.value == job && q.Value() == EmptyLists.(processing := [Encoded(job)]);
    ProcessedAlone(service.rows, service.pid, job, outcome, executeAt);
    service.ProcessJob(job, outcome, executeAt);
    parked := outcome.Rejected? && ShouldRetry(outcome.classification, job.attempt + 1);
    if parked {
      var items := [Encoded(NextAttempt(job))];
      q.PromoteDelayed(executeAt, items);
      assert Reversed(items) == items && q.delayed == map[];
    }
  }

  /** A job that is alone in the system: `outcomes(a)` is what the provider answers to attempt `a`
      and `draws(a)` the random number behind the delay before it. */
  method DeliverAlone(id: string, fields: string, outcomes: nat -> Outcome, draws: nat -> real)
      returns (q: Queue, sends: nat, waited: int)
    ensures 1 <= sends <= 5
    ensures forall a :: 0 <= a < sends - 1 ==> outcomes(a) == Rejected(Transient)
    ensures sends < 5 ==> outcomes(sends - 1) != Rejected(Transient)
    ensures q.Value() == match outcomes(sends - 1)
                         case Accepted => EmptyLists
                         case Rejected(c) => EmptyLists.(dlq := [DlqEntry(Job(id, fields, sends - 1), c)])
    ensures waited == TotalWait(draws, sends - 1)
    ensures sends == 5 && (forall a :: 0.0 <= draws(a) < 1.0) ==> 360_000 <= waited <= 540_000
  {
    hide RetryDelayMs;
    q := new Queue();
    var service := new Service(q, 1);
    q.Enqueue(Job(id, fields, 0));
    sends, waited := 0, 0;
    var parked := true;
    while parked
      invariant fresh(q) && fresh(service) && service.q == q && service.locks == map[]
      invariant sends <= 5 && (parked ==> sends < 5)
      invariant parked ==>
          && q.Value() == EmptyLists.(queue := [Encoded(Job(id, fields, sends))])
          && (forall a :: 0 <= a < sends ==> outcomes(a) == Rejected(Transient))
          && waited == TotalWait(draws, sends) && waited >= 0
      invariant !parked ==>
          && sends >= 1
          && q.Value() == (match outcomes(sends - 1)
                           case Accepted => EmptyLists
                           case Rejected(c) => EmptyLists.(dlq := [DlqEntry(Job(id, fields, sends - 1), c)]))
          && (forall a :: 0 <= a < sends - 1 ==> outcomes(a) == Rejected(Transient))
          && (sends < 5 ==> outcomes(sends - 1) != Rejected(Transient))
          && waited == TotalWait(draws, sends - 1)
      decreases parked, 5 - sends
    {
      var delay := RetryDelayMs(sends + 1, draws(sends + 1));
      DelayNotNegative(sends + 1, draws(sends + 1));
      parked := OneRound(service, Job(id, fields, sends), outcomes(sends), waited + delay);
      sends := sends + 1;
      if parked { waited := waited + delay; }
    }
    if sends == 5 && forall a :: 0.0 <= draws(a) < 1.0 {
      FourRetriesWait(draws(1), draws(2), draws(3), draws(4));
      assert TotalWait(draws, 4) == TotalWait(draws, 3) + RetryDelayMs(4, draws(4));
      assert TotalWait(draws, 2) == RetryDelayMs(1, draws(1)) + RetryDelayMs(2, draws(2));
    }
  }
}
