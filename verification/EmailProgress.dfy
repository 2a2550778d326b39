/** Every job of a calm run ends: a measure that each command of the worker lowers, and the number of
    commands after which all lists are empty. */
module EmailProgress {
  import opened EmailStore
  import opened EmailWorker
  import opened EmailNoLoss
  import opened EmailBudget

  /** What an entry still costs: twenty for each attempt it has left. */
  function Cost(r: Raw): nat {
    if r.Encoded? && BoundedAttempt(r.job) then 20 * (MAX_ATTEMPTS - r.job.attempt) else 0
  }

  ghost function Total(rs: set<Raw>): nat
    decreases |rs|
  {
    if rs == {} then 0
    else
      var r :| r in rs;
      Cost(r) + Total(rs - {r})
  }

  lemma {:induction false} TotalRemove(rs: set<Raw>, x: Raw)
    requires x in rs
    ensures Total(rs) == Cost(x) + Total(rs - {x})
    decreases |rs|
  {
    var r :| r in rs && Total(rs) == Cost(r) + Total(rs - {r});
    if r != x {
      TotalRemove(rs - {r}, x);
      TotalRemove(rs - {x}, r);
      assert rs - {r} - {x} == rs - {x} - {r};
    }
  }

  lemma {:induction false} TotalBound(rs: set<Raw>)
    ensures Total(rs) <= 100 * |rs|
    decreases |rs|
  {
    if rs != {} {
      var r :| r in rs;
      TotalRemove(rs, r);
      TotalBound(rs - {r});
    }
  }

  ghost function Queued(l: Lists): set<Raw> {
    set r | r in l.queue
  }

  /** Entries in the queue or the delayed set, and those in the delayed set only. */
  ghost function Waiting(l: Lists): set<Raw> { Queued(l) + l.delayed.Keys }

  ghost function Parked(l: Lists): set<Raw> { l.delayed.Keys - Queued(l) }

  /** What the attempts after this one may cost. */
  function Later(job: Job): nat {
    if BoundedAttempt(job) then 20 * (MAX_ATTEMPTS - 1 - job.attempt) else 0
  }

  /** How far the worker is from its next read of the delayed set, with the held job's later attempts. */
  function Rank(l: Lists, pc: PC): nat {
    match pc
    case Restoring(_) => 4
    case ReadDue => 3
    case PromotePush(_) => 1
    case PromoteRemove(_) => 2
    case Pop => if l.queue == [] then 4 else 0
    case AcquireLock(job) => Later(job) + 13
    case MarkProcessing(job) => Later(job) + 12
    case Send(job) => Later(job) + 11
    case RetryDelay(job) => Later(job) + 10
    case DlqPush(_, _) => 7
    case MarkSent(_) => 6
    case RetryAck(_) => 6
    case DlqAck(_, _) => 6
    case AckSent(_) => 5
    case RetryMark(_) => 5
    case DlqMark(_) => 5
    case Release(_) => 4
    case _ => 0
  }

  ghost function Work(l: Lists): nat {
    Total(Waiting(l)) + 3 * |Parked(l)|
  }

  ghost function Measure(s: State): nat
    requires |s.workers| == 1
  {
    Work(s.lists) + Rank(s.lists, s.workers[0].pc)
  }

  predicate Drained(l: Lists) {
    l.queue == [] && l.processing == [] && l.delayed == map[]
  }

  /** When the delayed set is read and not empty, some member of it is due. */
  predicate Prompt(s: State, c: Choice)
    requires |s.workers| == 1
  {
    s.workers[0].pc.ReadDue? && s.lists.delayed != map[] ==> IsDueBatch(s.lists, c.now, c.due) && c.due != []
  }

  // ---- What each command does to the work left ----

  lemma PushKeepsWork(l: Lists, r: Raw)
    requires r in l.delayed && r !in l.queue
    ensures Work(LPushQueue(l, r)) + 3 == Work(l)
  {
    var m := LPushQueue(l, r);
    assert Queued(m) == Queued(l) + {r};
    assert Waiting(m) == Waiting(l);
    assert Parked(m) == Parked(l) - {r} && r in Parked(l);
  }

  lemma RemoveKeepsQueue(l: Lists, r: Raw)
    requires r in l.queue
    ensures ZRemDelayed(l, r).queue != []
  {
  }

  lemma RemoveKeepsWork(l: Lists, r: Raw)
    requires r in l.queue
    ensures Work(ZRemDelayed(l, r)) == Work(l)
  {
    var m := ZRemDelayed(l, r);
    assert Queued(m) == Queued(l);
    assert Waiting(m) == Waiting(l) && Parked(m) == Parked(l);
  }

  lemma TakeSets(l: Lists)
    requires l.queue != []
    requires var last := |l.queue| - 1; l.queue[last] !in l.queue[..last] && l.queue[last] !in l.delayed
    ensures var r, m := l.queue[|l.queue| - 1], TakeNext(l);
            r in Waiting(l) && Waiting(m) == Waiting(l) - {r} && Parked(m) == Parked(l)
  {
    var last, m := |l.queue| - 1, TakeNext(l);
    var r := l.queue[last];
    assert l.queue == l.queue[..last] + [r];
    assert Queued(l) == Queued(m) + {r};
    assert r !in Queued(m) && m.delayed == l.delayed;
    hide TakeNext, Queued;
  }

  lemma TakeLowersWork(l: Lists)
    requires l.queue != []
    requires var last := |l.queue| - 1; l.queue[last] !in l.queue[..last] && l.queue[last] !in l.delayed
    ensures Work(TakeNext(l)) + Cost(l.queue[|l.queue| - 1]) == Work(l)
  {
    TakeSets(l);
    hide TakeNext, Waiting, Parked, Total, Cost;
    TotalRemove(Waiting(l), l.queue[|l.queue| - 1]);
  }

  lemma ParkSets(l: Lists, r: Raw, score: int)
    requires r !in l.queue && r !in l.delayed
    ensures var m := ZAddDelayed(l, r, score);
            && r in Waiting(m) && Waiting(m) - {r} == Waiting(l)
            && r in Parked(m) && Parked(m) - {r} == Parked(l)
  {
    var m := ZAddDelayed(l, r, score);
    assert Queued(m) == Queued(l);
    assert m.delayed.Keys == l.delayed.Keys + {r};
    assert r !in Queued(l);
    hide ZAddDelayed, Queued;
  }

  lemma ParkRaisesWork(l: Lists, r: Raw, score: int)
    requires r !in l.queue && r !in l.delayed
    ensures Work(ZAddDelayed(l, r, score)) == Work(l) + Cost(r) + 3
  {
    ParkSets(l, r, score);
    hide ZAddDelayed, Waiting, Parked, Total, Cost;
    TotalRemove(Waiting(ZAddDelayed(l, r, score)), r);
  }

  lemma SameWork(l: Lists, m: Lists)
    requires m.queue == l.queue && m.delayed == l.delayed
    ensures Work(m) == Work(l)
  {
    assert Queued(m) == Queued(l);
    assert Waiting(m) == Waiting(l) && Parked(m) == Parked(l);
  }

  /** A command lowers the measure, unless nothing is left. */
  ghost predicate Lowers(s: State, c: Choice)
    requires |s.workers| == 1
  {
    var s' := RunCommand(s, 0, c);
    Drained(s'.lists) || Measure(s') < Measure(s)
  }

  /** The worker's next command and the lists after this one. */
  ghost predicate Goes(s: State, c: Choice, l: Lists, pc: PC)
    requires |s.workers| == 1
  {
    var s' := RunCommand(s, 0, c);
    s'.lists == l && s'.workers[0].pc == pc
  }

  lemma LowersWhen(s: State, c: Choice, l: Lists, pc: PC)
    requires |s.workers| == 1 && Goes(s, c, l, pc)
    requires Drained(l) || Work(l) + Rank(l, pc) < Work(s.lists) + Rank(s.lists, s.workers[0].pc)
    ensures Lowers(s, c)
  {
    hide Work, Rank, Drained;
  }

  /** The rank on the paths the lists change on. */
  lemma Ranks(l: Lists, m: Lists, pc: PC, next: PC)
    ensures pc.PromotePush? && next.PromoteRemove? ==> Rank(m, next) == Rank(l, pc) + 1
    ensures pc.PromoteRemove? && (next.PromotePush? || (next.Pop? && m.queue != [])) ==> Rank(m, next) < Rank(l, pc)
    ensures pc.Pop? && l.queue == [] && next.ReadDue? ==> Rank(m, next) < Rank(l, pc)
    ensures pc.Pop? && l.queue != [] && next.AcquireLock? ==> Rank(l, pc) == 0 && Rank(m, next) == Later(next.job) + 13
    ensures pc.RetryDelay? && next.RetryAck? ==> Rank(l, pc) == Later(pc.job) + 10 && Rank(m, next) == 6
  {
  }

  lemma CostOfTry(job: Job)
    requires BoundedAttempt(job)
    ensures Cost(Encoded(job)) == Later(job) + 20
  {
  }

  lemma CostOfNext(job: Job)
    requires BoundedAttempt(job) && BoundedAttempt(NextAttempt(job))
    ensures Cost(Encoded(NextAttempt(job))) == Later(job)
  {
  }

  lemma PushGoes(s: State, c: Choice)
    requires Calm(s) && c.fault == Fine && s.workers[0].pc.PromotePush?
    ensures var todo := s.workers[0].pc.todo;
            && todo != [] && Goes(s, c, LPushQueue(s.lists, todo[0]), PromoteRemove(todo))
            && todo[0] in s.lists.delayed && todo[0] !in s.lists.queue
  {
    var r := s.workers[0].pc.todo[0];
    assert r in s.workers[0].pc.todo;
    assert Id(r) == Id(r);
  }

  lemma PushLowers(s: State, c: Choice)
    requires Calm(s) && c.fault == Fine && s.workers[0].pc.PromotePush?
    ensures Lowers(s, c)
  {
    PushGoes(s, c);
    var l, todo := s.lists, s.workers[0].pc.todo;
    Ranks(l, LPushQueue(l, todo[0]), s.workers[0].pc, PromoteRemove(todo));
    hide *;
    PushKeepsWork(l, todo[0]);
    LowersWhen(s, c, LPushQueue(l, todo[0]), PromoteRemove(todo));
  }

  lemma RemoveGoes(s: State, c: Choice)
    requires Calm(s) && c.fault == Fine && s.workers[0].pc.PromoteRemove?
    ensures var todo := s.workers[0].pc.todo;
            && todo != [] && todo[0] in s.lists.queue
            && Goes(s, c, ZRemDelayed(s.lists, todo[0]), if |todo| <= 1 then Pop else PromotePush(todo[1..]))
  {
  }

  lemma RemoveLowers(s: State, c: Choice)
    requires Calm(s) && c.fault == Fine && s.workers[0].pc.PromoteRemove?
    ensures Lowers(s, c)
  {
    RemoveGoes(s, c);
    var l, todo := s.lists, s.workers[0].pc.todo;
    var next := if |todo| <= 1 then Pop else PromotePush(todo[1..]);
    RemoveKeepsQueue(l, todo[0]);
    Ranks(l, ZRemDelayed(l, todo[0]), s.workers[0].pc, next);
    hide *;
    RemoveKeepsWork(l, todo[0]);
    LowersWhen(s, c, ZRemDelayed(l, todo[0]), next);
  }

  lemma PopGoes(s: State, c: Choice)
    requires Calm(s) && c.fault == Fine && s.workers[0].pc.Pop?
    ensures s.lists.queue == [] ==> Goes(s, c, s.lists, ReadDue)
    ensures s.lists.queue != [] ==>
              var last := |s.lists.queue| - 1;
              var r := s.lists.queue[last];
              && r.Encoded? && BoundedAttempt(r.job) && Goes(s, c, TakeNext(s.lists), AcquireLock(r.job))
              && r !in s.lists.queue[..last] && r !in s.lists.delayed
  {
    if s.lists.queue != [] {
      LastIsAlone(s);
      var r := s.lists.queue[|s.lists.queue| - 1];
      assert r in LiveEntries(s.lists);
      assert Id(r) == Id(r);
    }
  }

  lemma PopLowers(s: State, c: Choice)
    requires Calm(s) && c.fault == Fine && s.workers[0].pc.Pop?
    ensures Lowers(s, c)
  {
    PopGoes(s, c);
    var l := s.lists;
    if l.queue == [] {
      Ranks(l, l, Pop, ReadDue);
      hide *;
      LowersWhen(s, c, l, ReadDue);
    } else {
      var job := l.queue[|l.queue| - 1].job;
      Ranks(l, TakeNext(l), Pop, AcquireLock(job));
      CostOfTry(job);
      hide *;
      TakeLowersWork(l);
      LowersWhen(s, c, TakeNext(l), AcquireLock(job));
    }
  }

  lemma RetryDelayGoes(s: State, c: Choice)
    requires Calm(s) && c.fault == Fine && s.workers[0].pc.RetryDelay?
    ensures var job := s.workers[0].pc.job;
            var next := Encoded(NextAttempt(job));
            && Goes(s, c, ZAddDelayed(s.lists, next, c.executeAt), RetryAck(job))
            && next !in s.lists.queue && next !in s.lists.delayed
            && BoundedAttempt(job) && BoundedAttempt(NextAttempt(job))
  {
    assert Id(Encoded(NextAttempt(s.workers[0].pc.job))) == s.workers[0].pc.job.jobId;
  }

  lemma RetryDelayLowers(s: State, c: Choice)
    requires Calm(s) && c.fault == Fine && s.workers[0].pc.RetryDelay?
    ensures Lowers(s, c)
  {
    RetryDelayGoes(s, c);
    var l, job := s.lists, s.workers[0].pc.job;
    var next := Encoded(NextAttempt(job));
    Ranks(l, ZAddDelayed(l, next, c.executeAt), s.workers[0].pc, RetryAck(job));
    CostOfNext(job);
    hide *;
    ParkRaisesWork(l, next, c.executeAt);
    LowersWhen(s, c, ZAddDelayed(l, next, c.executeAt), RetryAck(job));
  }

  lemma ReadDueGoes(s: State, c: Choice)
    requires Calm(s) && c.fault == Fine && s.workers[0].pc.ReadDue? && Prompt(s, c)
    ensures Goes(s, c, s.lists, PromotePush(c.due))
            || (Goes(s, c, s.lists, Pop) && (s.lists.queue != [] || Drained(s.lists)))
  {
  }

  lemma ReadDueLowers(s: State, c: Choice)
    requires Calm(s) && c.fault == Fine && s.workers[0].pc.ReadDue? && Prompt(s, c)
    ensures Lowers(s, c)
  {
    ReadDueGoes(s, c);
    var l := s.lists;
    var next := if Goes(s, c, l, PromotePush(c.due)) then PromotePush(c.due) else Pop;
    assert next.PromotePush? || l.queue != [] || Drained(l);
    assert Rank(l, ReadDue) == 3 && Rank(l, PromotePush(c.due)) == 1 && (l.queue != [] ==> Rank(l, Pop) == 0);
    hide *;
    LowersWhen(s, c, l, next);
  }

  /** The commands that leave queue and delayed set alone. */
  predicate OnlyAdvances(pc: PC) {
    LeavesLists(pc) || pc.AckSent? || pc.RetryAck? || pc.DlqAck? || pc.Restoring? || pc.Send?
  }

  /** The worker comes nearer to its next read and queue and delayed set stay as they are. */
  ghost predicate Advances(s: State, c: Choice)
    requires |s.workers| == 1
  {
    var s' := RunCommand(s, 0, c);
    && s'.lists.queue == s.lists.queue && s'.lists.delayed == s.lists.delayed
    && Rank(s'.lists, s'.workers[0].pc) < Rank(s.lists, s.workers[0].pc)
  }

  lemma SendAdvances(s: State, c: Choice)
    requires Calm(s) && s.workers[0].pc.Send?
    ensures Advances(s, c)
  {
    assert BoundedAttempt(s.workers[0].pc.job);
    hide Calm;
  }

  lemma AckAdvances(s: State, c: Choice)
    requires Calm(s) && c.fault == Fine
    requires var pc := s.workers[0].pc; pc.AckSent? || pc.RetryAck? || pc.DlqAck? || pc.Restoring?
    ensures Advances(s, c)
  {
    assert s.workers[0].pc.Restoring? ==> s.lists.processing == [];
    hide Calm;
  }

  lemma LeaveAdvances(s: State, c: Choice)
    requires Calm(s) && c.fault == Fine && LeavesLists(s.workers[0].pc)
    ensures Advances(s, c)
  {
    assert s.workers[0].pc.AcquireLock? ==> s.workers[0].pc.job.jobId !in s.locks;
    hide Calm;
  }

  lemma AdvanceGoes(s: State, c: Choice)
    requires Calm(s) && CalmEvent(s, Command(0, c)) && OnlyAdvances(s.workers[0].pc)
    ensures Advances(s, c)
  {
    hide Calm, Advances;
    if s.workers[0].pc.Send? { SendAdvances(s, c); }
    else if LeavesLists(s.workers[0].pc) { LeaveAdvances(s, c); }
    else { AckAdvances(s, c); }
  }

  lemma AdvanceLowers(s: State, c: Choice)
    requires Calm(s) && CalmEvent(s, Command(0, c)) && OnlyAdvances(s.workers[0].pc)
    ensures Lowers(s, c)
  {
    AdvanceGoes(s, c);
    var s' := RunCommand(s, 0, c);
    hide RunCommand, Calm, Rank, Work;
    SameWork(s.lists, s'.lists);
    LowersWhen(s, c, s'.lists, s'.workers[0].pc);
  }

  lemma StaysUp(s: State, c: Choice)
    requires |s.workers| == 1 && !s.workers[0].pc.Down?
    ensures |RunCommand(s, 0, c).workers| == 1 && !RunCommand(s, 0, c).workers[0].pc.Down?
  {
  }

  lemma NoOtherPc(s: State)
    requires Calm(s) && !s.workers[0].pc.Down?
    ensures var pc := s.workers[0].pc;
            pc.PromotePush? || pc.PromoteRemove? || pc.Pop? || pc.ReadDue? || pc.RetryDelay? || OnlyAdvances(pc)
  {
  }

  lemma CommandLowers(s: State, c: Choice)
    requires Calm(s) && CalmEvent(s, Command(0, c)) && !s.workers[0].pc.Down? && Prompt(s, c)
    ensures Lowers(s, c)
  {
    NoOtherPc(s);
    hide Calm, Lowers, Prompt, OnlyAdvances;
    var pc := s.workers[0].pc;
    if pc.PromotePush? { PushLowers(s, c); }
    else if pc.PromoteRemove? { RemoveLowers(s, c); }
    else if pc.Pop? { PopLowers(s, c); }
    else if pc.ReadDue? { ReadDueLowers(s, c); }
    else if pc.RetryDelay? { RetryDelayLowers(s, c); }
    else { AdvanceLowers(s, c); }
  }

  lemma DrainedStays(s: State, c: Choice)
    requires Calm(s) && CalmEvent(s, Command(0, c)) && Drained(s.lists)
    ensures Drained(RunCommand(s, 0, c).lists)
  {
  }

  // ---- Whole runs ----

  /** A calm run in which nothing more is enqueued and reads of the delayed set are prompt. */
  predicate QuietRun(s: State, events: seq<Event>)
    decreases |events|
  {
    events == [] ||
    (var e := events[0];
     && |s.workers| == 1 && CalmEvent(s, e) && !e.Enqueue?
     && (e.Command? ==> Prompt(s, e.choice))
     && QuietRun(Step(s, e), events[1..]))
  }

  function Commands(events: seq<Event>): nat {
    if events == [] then 0 else Commands(events[1..]) + (if events[0].Command? then 1 else 0)
  }

  /** Until the lists are empty every command is paid for by the measure. */
  lemma {:induction false} RunLowers(s: State, events: seq<Event>)
    requires Calm(s) && !s.workers[0].pc.Down? && QuietRun(s, events)
    ensures var t := Exec(s, events);
            Calm(t) && (Drained(t.lists) || (!Drained(s.lists) && Measure(t) + Commands(events) <= Measure(s)))
    decreases |events|
  {
    if events != [] {
      var e := events[0];
      var t := Step(s, e);
      CalmStep(s, e);
      if e.Command? {
        assert t == RunCommand(s, 0, e.choice);
        CommandLowers(s, e.choice);
        StaysUp(s, e.choice);
        if Drained(s.lists) { DrainedStays(s, e.choice); }
      } else {
        assert t.lists == s.lists && t.workers == s.workers;
      }
      RunLowers(t, events[1..]);
    }
  }

  /** Jobs on the lists. */
  function Live(l: Lists): nat {
    |l.queue| + |l.processing| + |l.delayed|
  }

  lemma {:induction false} QueuedSize(q: seq<Raw>)
    ensures |(set r | r in q)| <= |q|
  {
    if q != [] {
      var last := |q| - 1;
      QueuedSize(q[..last]);
      assert q == q[..last] + [q[last]];
      assert (set r | r in q) == (set r | r in q[..last]) + {q[last]};
    }
  }

  lemma WorkBound(l: Lists)
    ensures Work(l) <= 100 * |l.queue| + 103 * |l.delayed|
  {
    var queued, delayed := Queued(l), l.delayed.Keys;
    QueuedSize(l.queue);
    TotalBound(queued + delayed);
    SetSizes(queued, delayed);
  }

  lemma SetSizes(a: set<Raw>, b: set<Raw>)
    ensures |a + b| <= |a| + |b| && |b - a| <= |b|
  {
  }

  lemma RankBound(s: State)
    requires Calm(s)
    ensures Rank(s.lists, s.workers[0].pc) <= 100 * |s.lists.processing| + 6
  {
    var pc := s.workers[0].pc;
    assert ListsCalm(s, pc);
    hide Calm, AllCalm, Inv;
    if Holding(pc) { assert |s.lists.processing| == 1; }
  }

  lemma MeasureBound(s: State)
    requires Calm(s)
    ensures Measure(s) <= 103 * Live(s.lists) + 6
  {
    WorkBound(s.lists);
    RankBound(s);
    hide Calm, Work, Rank;
  }

  /** From any calm state, after 103 commands for each job on the lists and 7 more, whatever the
      provider answers and whenever locks expire, every job ever enqueued has been accepted or
      dead-lettered and no list holds one. */
  lemma EveryJobSettles(s: State, events: seq<Event>)
    requires Calm(s) && !s.workers[0].pc.Down? && QuietRun(s, events)
    requires Commands(events) >= 103 * Live(s.lists) + 7
    ensures var t := Exec(s, events);
            Drained(t.lists) && (forall id :: id in t.enqueued ==> Settled(t, id)) && t.enqueued == s.enqueued
  {
    RunLowers(s, events);
    MeasureBound(s);
    EnqueuedStays(s, events);
    var t := Exec(s, events);
    assert LiveEntries(t.lists) == {};
    forall id | id in t.enqueued ensures Settled(t, id) {
      assert Covered(t, id);
    }
  }

  lemma {:induction false} EnqueuedStays(s: State, events: seq<Event>)
    requires QuietRun(s, events)
    ensures Exec(s, events).enqueued == s.enqueued
    decreases |events|
  {
    if events != [] { EnqueuedStays(Step(s, events[0]), events[1..]); }
  }

  /** Any calm run of a started worker, however many jobs it enqueues, is brought to an end that way. */
  lemma EveryEnqueueEnds(before: seq<Event>, after: seq<Event>)
    requires CalmRun(Init(1), before)
    requires var s := Exec(Init(1), before);
             |s.workers| == 1 && !s.workers[0].pc.Down? && QuietRun(s, after) && Commands(after) >= 103 * Live(s.lists) + 7
    ensures var s, t := Exec(Init(1), before), Exec(Exec(Init(1), before), after);
            Drained(t.lists) && forall id :: id in s.enqueued ==> Settled(t, id)
  {
    assert Calm(Init(1));
    CalmExec(Init(1), before);
    EveryJobSettles(Exec(Init(1), before), after);
  }

  /** A prompt read is always possible while the scores are not negative: the clock has only to pass one. */
  lemma PromptReadExists(s: State) returns (c: Choice)
    requires Calm(s) && forall r :: r in s.lists.delayed ==> s.lists.delayed[r] >= 0
    ensures Prompt(s, c) && CalmEvent(s, Command(0, c))
  {
    c := Choice(Fine, Transient, 0, 0, []);
    if s.lists.delayed != map[] {
      var r :| r in s.lists.delayed;
      c := Choice(Fine, Transient, s.lists.delayed[r], 0, [r]);
    }
  }
}
