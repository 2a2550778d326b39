/** The retry budget over whole runs in which nothing crashes: no job is sent more than five times,
    however many jobs are in flight, and a job no longer in flight has been settled. */
module EmailBudget {
  import opened EmailStore
  import opened EmailWorker
  import opened EmailNoLoss

  /** Job ids are fresh, the worker never crashes, there is no replay, and no command fails except
      the call to the provider, which may fail in any way. */
  predicate CalmEvent(s: State, e: Event) {
    match e
    case Enqueue(job) => job.attempt == 0 && job.jobId !in s.enqueued
    case LockExpires(_) => true
    case Restart(_, _) => true
    case Command(i, c) => i < |s.workers| && (c.fault == Fine || s.workers[i].pc.Send?)
    case _ => false
  }

  predicate CalmRun(s: State, events: seq<Event>)
    decreases |events|
  {
    events == [] || (CalmEvent(s, events[0]) && CalmRun(Step(s, events[0]), events[1..]))
  }

  function Id(raw: Raw): string {
    if raw.Encoded? then raw.job.jobId else raw.text
  }

  /** The worker still has the entry of the job it holds on the processing list. */
  predicate Holding(pc: PC) {
    Held(pc) != [] && !pc.RetryMark? && !pc.DlqMark? && !pc.Release?
  }

  predicate NotSentYet(pc: PC) {
    pc.AcquireLock? || pc.MarkProcessing? || pc.Send?
  }

  ghost predicate ListsCalm(s: State, pc: PC) {
    && !pc.DropMalformed? && !pc.CollisionDelay? && !pc.CollisionAck?
    && s.lists.processing == (if Holding(pc) then [Encoded(pc.job)] else [])
    && (forall r :: r in s.lists.queue || r in s.lists.delayed ==> r.Encoded? && r.job.jobId in s.enqueued)
    && (forall i, j :: 0 <= i < j < |s.lists.queue| ==> Id(s.lists.queue[i]) != Id(s.lists.queue[j]))
    && (forall a, b :: a in s.lists.delayed && b in s.lists.delayed && Id(a) == Id(b) ==> a == b)
  }

  /** A promoted batch is still in the delayed set; only its head may be on the queue as well. */
  ghost predicate BatchCalm(s: State, pc: PC) {
    && (pc.PromotePush? || pc.PromoteRemove? ==>
          && (forall r :: r in pc.todo ==> r in s.lists.delayed)
          && (forall i, j :: 0 <= i < j < |pc.todo| ==> pc.todo[i] != pc.todo[j]))
    && (forall r, d :: r in s.lists.queue && d in s.lists.delayed && Id(r) == Id(d) ==>
          pc.PromoteRemove? && pc.todo != [] && r == d == pc.todo[0])
  }

  ghost predicate HeldCalm(s: State, w: Worker) {
    var pc := w.pc;
    && (Held(pc) != [] ==>
          && pc.job.jobId in s.enqueued
          && (forall r :: r in s.lists.queue ==> Id(r) != pc.job.jobId))
    && (Holding(pc) ==>
          forall d :: d in s.lists.delayed && Id(d) == pc.job.jobId ==> pc.RetryAck? && d == Encoded(NextAttempt(pc.job)))
    && (forall id :: id in s.locks ==>
          Held(pc) != [] && !pc.AcquireLock? && id == pc.job.jobId && s.locks[id] == Owner(w.pid, id, pc.job.attempt))
  }

  ghost predicate SendsCalm(s: State, pc: PC) {
    && (forall r :: (r in s.lists.queue || r in s.lists.delayed) && r.Encoded? ==>
          SendCount(s, r.job.jobId) == r.job.attempt)
    && (Holding(pc) ==>
          SendCount(s, pc.job.jobId) == pc.job.attempt + (if NotSentYet(pc) then 0 else 1))
    && (forall id :: id in s.sends ==> s.sends[id] <= MAX_ATTEMPTS && id in s.enqueued)
  }

  ghost predicate AllCalm(s: State)
    requires |s.workers| == 1
  {
    && ListsCalm(s, s.workers[0].pc)
    && BatchCalm(s, s.workers[0].pc)
    && HeldCalm(s, s.workers[0])
    && SendsCalm(s, s.workers[0].pc)
  }

  ghost predicate Calm(s: State) {
    Inv(s) && AllCalm(s)
  }

  lemma FreshId(s: State, job: Job)
    requires Calm(s) && CalmEvent(s, Enqueue(job))
    ensures forall r :: r in s.lists.queue || r in s.lists.delayed ==> Id(r) != job.jobId
    ensures SendCount(s, job.jobId) == 0
    ensures Held(s.workers[0].pc) != [] ==> s.workers[0].pc.job.jobId != job.jobId
  {
  }

  lemma CalmEnqueueLists(s: State, job: Job)
    requires Calm(s) && CalmEvent(s, Enqueue(job))
    ensures var s' := Step(s, Enqueue(job));
            s'.workers == s.workers && ListsCalm(s', s.workers[0].pc) && BatchCalm(s', s.workers[0].pc)
  {
    FreshId(s, job);
    hide Inv;
    var s' := Step(s, Enqueue(job));
    assert s'.lists.queue == [Encoded(job)] + s.lists.queue;
    assert forall r :: r in s'.lists.queue ==> r == Encoded(job) || r in s.lists.queue;
  }

  lemma CalmEnqueue(s: State, job: Job)
    requires Calm(s) && CalmEvent(s, Enqueue(job))
    ensures AllCalm(Step(s, Enqueue(job)))
  {
    FreshId(s, job);
    CalmEnqueueLists(s, job);
    hide Inv, ListsCalm, BatchCalm;
    var s' := Step(s, Enqueue(job));
    assert s'.lists.queue == [Encoded(job)] + s.lists.queue;
    assert forall r :: r in s'.lists.queue ==> r == Encoded(job) || r in s.lists.queue;
    assert HeldCalm(s', s.workers[0]);
    assert SendsCalm(s', s.workers[0].pc);
  }

  lemma CalmOther(s: State, e: Event)
    requires Calm(s) && (e.LockExpires? || e.Restart?)
    ensures |Step(s, e).workers| == 1 && AllCalm(Step(s, e))
  {
  }

  lemma CalmPromote(s: State, c: Choice)
    requires Calm(s) && c.fault == Fine
    requires s.workers[0].pc.PromotePush? || s.workers[0].pc.PromoteRemove? || s.workers[0].pc.ReadDue?
    ensures AllCalm(RunCommand(s, 0, c))
  {
    var pc := s.workers[0].pc;
    var s' := RunCommand(s, 0, c);
    if pc.PromotePush? {
      assert s'.lists.queue == [pc.todo[0]] + s.lists.queue;
    } else if pc.PromoteRemove? && |pc.todo| > 1 {
      assert forall i :: 0 <= i < |pc.todo| - 1 ==> s'.workers[0].pc.todo[i] == pc.todo[i + 1];
    }
  }

  /** The popped entry was the only one of its job. */
  lemma LastIsAlone(s: State)
    requires Calm(s) && s.lists.queue != []
    ensures var last := |s.lists.queue| - 1;
            && s.lists.queue[last] in s.lists.queue
            && (forall r :: r in s.lists.queue[..last] ==> r in s.lists.queue && Id(r) != Id(s.lists.queue[last]))
  {
    var last := |s.lists.queue| - 1;
    assert forall r :: r in s.lists.queue[..last] ==> exists i :: 0 <= i < last && s.lists.queue[i] == r;
  }

  /** Popping the last entry of the queue. */
  lemma PopEffect(s: State, c: Choice)
    requires Calm(s) && c.fault == Fine && s.workers[0].pc.Pop? && s.lists.queue != []
    ensures var s', raw := RunCommand(s, 0, c), s.lists.queue[|s.lists.queue| - 1];
            && raw.Encoded? && raw.job.jobId in s.enqueued
            && s'.lists == TakeNext(s.lists) && s'.workers == [Worker(s.workers[0].pid, AcquireLock(raw.job))]
            && s'.enqueued == s.enqueued && s'.sends == s.sends && s'.locks == s.locks
  {
    LastIsAlone(s);
  }

  lemma PopLists(s: State, c: Choice)
    requires Calm(s) && c.fault == Fine && s.workers[0].pc.Pop? && s.lists.queue != []
    ensures var s' := RunCommand(s, 0, c); ListsCalm(s', s'.workers[0].pc) && BatchCalm(s', s'.workers[0].pc)
  {
    PopEffect(s, c);
    LastIsAlone(s);
    hide RunCommand, Inv, HeldCalm, SendsCalm;
  }

  lemma PopHeld(s: State, c: Choice)
    requires Calm(s) && c.fault == Fine && s.workers[0].pc.Pop? && s.lists.queue != []
    ensures var s' := RunCommand(s, 0, c); HeldCalm(s', s'.workers[0]) && SendsCalm(s', s'.workers[0].pc)
  {
    PopEffect(s, c);
    LastIsAlone(s);
    assert forall r :: r in s.lists.delayed ==> Id(r) != Id(s.lists.queue[|s.lists.queue| - 1]);
    hide RunCommand, Inv, ListsCalm, BatchCalm;
  }

  lemma CalmPop(s: State, c: Choice)
    requires Calm(s) && c.fault == Fine && s.workers[0].pc.Pop?
    ensures AllCalm(RunCommand(s, 0, c))
  {
    if s.lists.queue != [] {
      PopEffect(s, c);
      PopLists(s, c);
      PopHeld(s, c);
      hide RunCommand, Calm, ListsCalm, BatchCalm, HeldCalm, SendsCalm;
    } else {
      hide Inv;
    }
  }

  /** Sending leaves the lists alone and counts one call. */
  lemma Sending(s: State, c: Choice)
    requires Calm(s) && s.workers[0].pc.Send?
    ensures var s', id := RunCommand(s, 0, c), s.workers[0].pc.job.jobId;
            && |s'.workers| == 1 && s'.workers[0].pid == s.workers[0].pid
            && s'.lists == s.lists && s'.locks == s.locks && s'.enqueued == s.enqueued
            && s'.sends == s.sends[id := SendCount(s, id) + 1]
            && var pc := s'.workers[0].pc;
            && Held(pc) != [] && pc.job == s.workers[0].pc.job && Holding(pc) && !NotSentYet(pc)
            && !pc.RetryAck? && !pc.AcquireLock? && !pc.DropMalformed? && !pc.CollisionDelay? && !pc.CollisionAck?
            && !pc.PromotePush? && !pc.PromoteRemove?
  {
  }

  lemma CalmSending(s: State, c: Choice)
    requires Calm(s) && s.workers[0].pc.Send?
    ensures AllCalm(RunCommand(s, 0, c))
  {
    Sending(s, c);
    hide Inv, RunCommand;
  }

  lemma RetryDelayLists(s: State, c: Choice)
    requires Calm(s) && c.fault == Fine && s.workers[0].pc.RetryDelay?
    ensures var s' := RunCommand(s, 0, c);
            && ListsCalm(s', s'.workers[0].pc) && BatchCalm(s', s'.workers[0].pc)
  {
    var job := s.workers[0].pc.job;
    var s' := RunCommand(s, 0, c);
    assert s'.lists == s.lists.(delayed := s.lists.delayed[Encoded(NextAttempt(job)) := c.executeAt]);
    assert s'.workers[0].pc == RetryAck(job);
    assert forall d :: d in s'.lists.delayed ==> d in s.lists.delayed || d == Encoded(NextAttempt(job));
  }

  lemma RetryDelayHeld(s: State, c: Choice)
    requires Calm(s) && c.fault == Fine && s.workers[0].pc.RetryDelay?
    ensures var s' := RunCommand(s, 0, c); HeldCalm(s', s'.workers[0]) && SendsCalm(s', s'.workers[0].pc)
  {
    var job := s.workers[0].pc.job;
    var s' := RunCommand(s, 0, c);
    assert s'.lists == s.lists.(delayed := s.lists.delayed[Encoded(NextAttempt(job)) := c.executeAt]);
    assert s'.workers[0].pc == RetryAck(job);
    assert forall d :: d in s'.lists.delayed ==> d in s.lists.delayed || d == Encoded(NextAttempt(job));
  }

  /** The three acknowledgements empty the processing list. */
  lemma CalmAck(s: State, c: Choice)
    requires Calm(s) && c.fault == Fine
    requires s.workers[0].pc.AckSent? || s.workers[0].pc.RetryAck? || s.workers[0].pc.DlqAck?
    ensures AllCalm(RunCommand(s, 0, c))
  {
    var s' := RunCommand(s, 0, c);
    assert s'.lists == s.lists.(processing := []);
    assert ListsCalm(s', s'.workers[0].pc);
    assert SendsCalm(s', s'.workers[0].pc);
  }

  predicate LeavesLists(pc: PC) {
    pc.AcquireLock? || pc.MarkProcessing? || pc.MarkSent? || pc.RetryMark? || pc.DlqPush? || pc.DlqMark? || pc.Release?
  }

  lemma CalmLists(s: State, c: Choice)
    requires Calm(s) && c.fault == Fine && LeavesLists(s.workers[0].pc)
    ensures AllCalm(RunCommand(s, 0, c))
  {
    var s' := RunCommand(s, 0, c);
    assert s'.lists == s.lists.(dlq := s'.lists.dlq);
    assert ListsCalm(s', s'.workers[0].pc);
    assert SendsCalm(s', s'.workers[0].pc);
  }

  lemma CalmIdle(s: State, c: Choice)
    requires Calm(s) && c.fault == Fine && (s.workers[0].pc.Down? || s.workers[0].pc.Restoring?)
    ensures AllCalm(RunCommand(s, 0, c))
  {
  }

  lemma CalmStep(s: State, e: Event)
    requires Calm(s) && CalmEvent(s, e)
    ensures Calm(Step(s, e))
  {
    StepKeepsInv(s, e);
    match e {
      case Enqueue(job) => CalmEnqueue(s, job);
      case Command(_, c) => CalmCommand(s, c);
      case _ => CalmOther(s, e);
    }
  }

  lemma CalmCommand(s: State, c: Choice)
    requires Calm(s) && CalmEvent(s, Command(0, c))
    ensures AllCalm(RunCommand(s, 0, c))
  {
    var pc := s.workers[0].pc;
    if pc.PromotePush? || pc.PromoteRemove? || pc.ReadDue? { CalmPromote(s, c); }
    else if pc.Pop? { CalmPop(s, c); }
    else if pc.Send? { CalmSending(s, c); }
    else if pc.RetryDelay? { RetryDelayLists(s, c); RetryDelayHeld(s, c); }
    else if pc.AckSent? || pc.RetryAck? || pc.DlqAck? { CalmAck(s, c); }
    else if LeavesLists(pc) { CalmLists(s, c); }
    else { CalmIdle(s, c); }
  }

  lemma {:induction false} CalmExec(s: State, events: seq<Event>)
    requires Calm(s) && CalmRun(s, events)
    ensures Calm(Exec(s, events))
    decreases |events|
  {
    if events != [] {
      CalmStep(s, events[0]);
      CalmExec(Step(s, events[0]), events[1..]);
    }
  }

  /** In every calm run the provider is called at most five times for each job, and a job that is
      on no list has been accepted or dead-lettered. */
  lemma AtMostFiveSends(events: seq<Event>, id: string)
    requires CalmRun(Init(1), events)
    ensures var s := Exec(Init(1), events);
            && SendCount(s, id) <= 5
            && (id in s.enqueued && !InFlight(s.lists, id) ==> Settled(s, id))
  {
    assert Calm(Init(1));
    CalmExec(Init(1), events);
    var s := Exec(Init(1), events);
    if id in s.enqueued {
      assert Covered(s, id);
    }
  }
}
