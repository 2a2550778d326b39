/** The no-loss theorem: what every step of one worker and its environment keeps. */
module EmailNoLoss {
  import opened EmailStore
  import opened EmailWorker

  ghost predicate Settled(s: State, id: string) {
    id in s.accepted || id in s.deadLettered
  }

  ghost predicate Covered(s: State, id: string) {
    Settled(s, id) || InFlight(s.lists, id)
  }

  ghost predicate NoJobLost(s: State) {
    forall id :: id in s.enqueued ==> Covered(s, id)
  }

  predicate BoundedAttempt(job: Job) {
    0 <= job.attempt < MAX_ATTEMPTS
  }

  /** The job a worker holds while it processes it. */
  function Held(pc: PC): seq<Job> {
    if pc.Down? || pc.Restoring? || pc.ReadDue? || pc.PromotePush? || pc.PromoteRemove? || pc.Pop? || pc.DropMalformed?
    then [] else [pc.job]
  }

  /** What a worker relies on at each command it may issue. */
  ghost predicate PcInv(s: State, pc: PC) {
    && (pc.PromotePush? ==> pc.todo != [])
    && (pc.PromoteRemove? ==> pc.todo != [] && pc.todo[0] in s.lists.queue)
    && ((pc.PromotePush? || pc.PromoteRemove?) ==>
          forall r :: r in pc.todo && r.Encoded? ==> BoundedAttempt(r.job))
    && (pc.DropMalformed? ==> pc.raw.Malformed?)
    && (pc.CollisionAck? ==> Encoded(pc.job) in s.lists.delayed)
    && (pc.RetryAck? ==> Encoded(NextAttempt(pc.job)) in s.lists.delayed)
    && (pc.MarkSent? || pc.AckSent? ==> pc.job.jobId in s.accepted)
    && (pc.DlqAck? ==> pc.job.jobId in s.deadLettered)
    && (pc.RetryDelay? ==> pc.job.attempt + 1 < MAX_ATTEMPTS)
    && (Held(pc) != [] ==> BoundedAttempt(pc.job))
  }

  ghost predicate AttemptsBounded(s: State) {
    forall r :: r in LiveEntries(s.lists) && r.Encoded? ==> BoundedAttempt(r.job)
  }

  ghost predicate Inv(s: State) {
    && |s.workers| == 1
    && NoJobLost(s)
    && AttemptsBounded(s)
    && PcInv(s, s.workers[0].pc)
  }

  /** A live entry that is still live, or whose job is settled or has another live entry, stays covered. */
  lemma StillCovered(s: State, s': State)
    requires NoJobLost(s)
    requires s'.enqueued == s.enqueued && s.accepted <= s'.accepted && s.deadLettered <= s'.deadLettered
    requires forall r :: r in LiveEntries(s.lists) && r.Encoded? ==>
                r in LiveEntries(s'.lists) || Covered(s', r.job.jobId)
    ensures NoJobLost(s')
  {
    forall id | id in s'.enqueued
      ensures Covered(s', id)
    {
      assert Covered(s, id);
      if !Settled(s, id) {
        var r :| r in LiveEntries(s.lists) && r.Encoded? && r.job.jobId == id;
        if r in LiveEntries(s'.lists) {
          assert InFlight(s'.lists, id);
        }
      }
    }
  }

  /** What each list command does to the set of live entries. */
  lemma LiveAfterPush(l: Lists, raw: Raw, score: int)
    ensures LiveEntries(LPushQueue(l, raw)) == LiveEntries(l) + {raw}
    ensures LiveEntries(ZAddDelayed(l, raw, score)) == LiveEntries(l) + {raw}
  {
    assert LPushQueue(l, raw).queue == [raw] + l.queue;
  }

  lemma LiveAfterMove(l: Lists)
    ensures l.queue != [] ==> LiveEntries(TakeNext(l)) == LiveEntries(l)
    ensures l.processing != [] ==> LiveEntries(ReturnOldest(l)) == LiveEntries(l)
  {
    if l.queue != [] {
      assert l.queue == l.queue[..|l.queue| - 1] + [l.queue[|l.queue| - 1]];
    }
    if l.processing != [] {
      assert l.processing == l.processing[..|l.processing| - 1] + [l.processing[|l.processing| - 1]];
    }
  }

  lemma LiveAfterRemove(l: Lists, raw: Raw)
    ensures LiveEntries(l) - {raw} <= LiveEntries(LRemProcessing(l, raw)) <= LiveEntries(l)
    ensures raw in l.queue ==> LiveEntries(ZRemDelayed(l, raw)) == LiveEntries(l)
    ensures raw in l.queue || raw in l.delayed ==> LiveEntries(LRemProcessing(l, raw)) == LiveEntries(l)
  {
  }

  /** Dropping at most one entry keeps every job covered when that entry's job is covered anyway. */
  lemma DropOne(s: State, s': State, raw: Raw)
    requires NoJobLost(s) && AttemptsBounded(s)
    requires s'.enqueued == s.enqueued && s.accepted <= s'.accepted && s.deadLettered <= s'.deadLettered
    requires LiveEntries(s.lists) - {raw} <= LiveEntries(s'.lists) <= LiveEntries(s.lists)
    requires raw.Encoded? ==> Covered(s', raw.job.jobId)
    ensures NoJobLost(s') && AttemptsBounded(s')
  {
    StillCovered(s, s');
  }

  /** Adding an entry with a bounded attempt keeps every job covered. */
  lemma AddOne(s: State, s': State, raw: Raw)
    requires NoJobLost(s) && AttemptsBounded(s)
    requires s'.enqueued == s.enqueued && s.accepted <= s'.accepted && s.deadLettered <= s'.deadLettered
    requires LiveEntries(s'.lists) == LiveEntries(s.lists) + {raw}
    requires raw.Encoded? ==> BoundedAttempt(raw.job)
    ensures NoJobLost(s') && AttemptsBounded(s')
  {
    StillCovered(s, s');
  }

  lemma AckKeeps(s: State, s': State, job: Job)
    requires NoJobLost(s) && AttemptsBounded(s)
    requires s' == s.(lists := LRemProcessing(s.lists, Encoded(job)))
    requires Settled(s, job.jobId) || exists r :: r in s.lists.delayed && r.Encoded? && r.job.jobId == job.jobId
    ensures NoJobLost(s') && AttemptsBounded(s')
  {
    LiveAfterRemove(s.lists, Encoded(job));
    if !Settled(s, job.jobId) {
      var r :| r in s.lists.delayed && r.Encoded? && r.job.jobId == job.jobId;
      assert r in LiveEntries(s'.lists);
      assert InFlight(s'.lists, job.jobId);
    }
    DropOne(s, s', Encoded(job));
  }

  lemma AckEffectKeeps(s: State, c: Choice)
    requires Inv(s)
    requires var pc := s.workers[0].pc; pc.CollisionAck? || pc.RetryAck? || pc.AckSent? || pc.DlqAck?
    ensures var s' := Effect(s, s.workers[0], c); NoJobLost(s') && AttemptsBounded(s')
  {
    var pc := s.workers[0].pc;
    var s' := Effect(s, s.workers[0], c);
    assert s' == s.(lists := LRemProcessing(s.lists, Encoded(pc.job)));
    assert pc.CollisionAck? ==> Encoded(pc.job) in s.lists.delayed;
    assert pc.RetryAck? ==> Encoded(NextAttempt(pc.job)) in s.lists.delayed;
    hide NoJobLost, AttemptsBounded, LRemProcessing;
    AckKeeps(s, s', pc.job);
  }

  lemma EffectKeeps(s: State, c: Choice)
    requires Inv(s)
    ensures var s' := Effect(s, s.workers[0], c); NoJobLost(s') && AttemptsBounded(s')
  {
    var w := s.workers[0];
    var s' := Effect(s, w, c);
    if w.pc.CollisionAck? || w.pc.RetryAck? || w.pc.AckSent? || w.pc.DlqAck? {
      AckEffectKeeps(s, c);
      return;
    }
    match w.pc {
      case Restoring(_) => LiveAfterMove(s.lists); StillCovered(s, s');
      case Pop => LiveAfterMove(s.lists); StillCovered(s, s');
      case PromotePush(todo) => LiveAfterPush(s.lists, todo[0], 0); AddOne(s, s', todo[0]);
      case PromoteRemove(todo) => LiveAfterRemove(s.lists, todo[0]); StillCovered(s, s');
      case DropMalformed(raw) => LiveAfterRemove(s.lists, raw); DropOne(s, s', raw);
      case CollisionDelay(job) => LiveAfterPush(s.lists, Encoded(job), c.executeAt); AddOne(s, s', Encoded(job));
      case RetryDelay(job) =>
        LiveAfterPush(s.lists, Encoded(NextAttempt(job)), c.executeAt);
        AddOne(s, s', Encoded(NextAttempt(job)));
      case _ => StillCovered(s, s');
    }
  }

  lemma PopKeepsPcInv(s: State, c: Choice)
    requires Inv(s) && c.fault == Fine && s.workers[0].pc.Pop?
    ensures var s' := RunCommand(s, 0, c); PcInv(s', s'.workers[0].pc)
  {
    if s.lists.queue != [] {
      assert s.lists.queue[|s.lists.queue| - 1] in LiveEntries(s.lists);
    }
  }

  lemma DueBatchIsBounded(s: State, c: Choice)
    requires Inv(s) && IsDueBatch(s.lists, c.now, c.due)
    ensures forall r :: r in c.due && r.Encoded? ==> BoundedAttempt(r.job)
  {
    forall r | r in c.due && r.Encoded? ensures BoundedAttempt(r.job) {
      assert r in LiveEntries(s.lists);
    }
  }

  predicate Promotes(pc: PC) {
    pc.Restoring? || pc.ReadDue? || pc.PromotePush? || pc.PromoteRemove?
  }

  lemma PromoteKeepsPcInv(s: State, c: Choice)
    requires Inv(s) && c.fault == Fine && Promotes(s.workers[0].pc)
    ensures var s' := RunCommand(s, 0, c); PcInv(s', s'.workers[0].pc)
  {
    if s.workers[0].pc.ReadDue? && IsDueBatch(s.lists, c.now, c.due) { DueBatchIsBounded(s, c); }
    hide LiveEntries, NoJobLost, AttemptsBounded, Covered, Settled;
  }

  lemma ProcessKeepsPcInv(s: State, c: Choice)
    requires Inv(s) && c.fault == Fine && !s.workers[0].pc.Pop? && !Promotes(s.workers[0].pc)
    ensures var s' := RunCommand(s, 0, c); PcInv(s', s'.workers[0].pc)
  {
    hide LiveEntries, NoJobLost, AttemptsBounded, Covered, Settled;
  }

  lemma OkKeepsPcInv(s: State, c: Choice)
    requires Inv(s) && c.fault == Fine && !s.workers[0].pc.Pop?
    ensures var s' := RunCommand(s, 0, c); PcInv(s', s'.workers[0].pc)
  {
    if Promotes(s.workers[0].pc) { PromoteKeepsPcInv(s, c); } else { ProcessKeepsPcInv(s, c); }
    hide RunCommand, PcInv, NoJobLost, AttemptsBounded;
  }

  lemma ErrKeepsPcInv(s: State, c: Choice)
    requires Inv(s) && c.fault != Fine
    ensures var s' := RunCommand(s, 0, c); PcInv(s', s'.workers[0].pc)
  {
  }

  lemma CommandKeepsInv(s: State, c: Choice)
    requires Inv(s)
    ensures Inv(RunCommand(s, 0, c))
  {
    EffectKeeps(s, c);
    if c.fault != Fine { ErrKeepsPcInv(s, c); }
    else if s.workers[0].pc.Pop? { PopKeepsPcInv(s, c); }
    else { OkKeepsPcInv(s, c); }
    var s' := RunCommand(s, 0, c);
    var shared := if c.fault == FailsBefore then s else Effect(s, s.workers[0], c);
    assert s'.lists == shared.lists && s'.enqueued == shared.enqueued;
    assert NoJobLost(s') by {
      forall id | id in s'.enqueued ensures Covered(s', id) { assert Covered(shared, id); }
    }
  }

  lemma EnvironmentKeepsInv(s: State, e: Event)
    requires Inv(s) && !e.Command?
    ensures Inv(Step(s, e))
  {
  }

  lemma StepKeepsInv(s: State, e: Event)
    requires Inv(s)
    ensures Inv(Step(s, e))
  {
    if !e.Command? {
      EnvironmentKeepsInv(s, e);
    } else if e.worker == 0 {
      CommandKeepsInv(s, e.choice);
      assert Step(s, e) == RunCommand(s, 0, e.choice);
    } else {
      assert Step(s, e) == s;
    }
  }

  lemma {:induction false} ExecKeepsInv(s: State, events: seq<Event>)
    requires Inv(s)
    ensures Inv(Exec(s, events))
    decreases |events|
  {
    if events != [] {
      StepKeepsInv(s, events[0]);
      ExecKeepsInv(Step(s, events[0]), events[1..]);
    }
  }

  /** However enqueues, crashes, restarts, failing commands, lock expiry, replays and the commands
      of one worker interleave: every job ever pushed is on a list or in the delayed set, or was
      accepted by the provider, or reached the dead-letter list; and no live job is past its
      attempts. */
  lemma OneWorkerLosesNothing(events: seq<Event>)
    ensures var s := Exec(Init(1), events);
            && (forall id :: id in s.enqueued ==> Settled(s, id) || InFlight(s.lists, id))
            && (forall r :: r in LiveEntries(s.lists) && r.Encoded? ==> 0 <= r.job.attempt <= 4)
  {
    assert Inv(Init(1));
    ExecKeepsInv(Init(1), events);
    var s := Exec(Init(1), events);
    forall id | id in s.enqueued
      ensures Settled(s, id) || InFlight(s.lists, id)
    {
      assert Covered(s, id);
    }
  }
}
