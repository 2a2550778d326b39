/** The email worker as a step machine: every step is one Redis, Mongo or provider command.
    Any command may fail, with or without having taken effect, and a worker may crash between
    any two commands. */
module EmailWorker {
  import opened EmailStore

  datatype Owner = Owner(pid: nat, jobId: string, attempt: int)

  /** The command a worker is about to issue. `todo` is the rest of a promoted batch. */
  datatype PC =
    | Down
    | Restoring(moved: nat)
    | ReadDue
    | PromotePush(todo: seq<Raw>)
    | PromoteRemove(todo: seq<Raw>)
    | Pop
    | DropMalformed(raw: Raw)
    | AcquireLock(job: Job)
    | CollisionDelay(job: Job)
    | CollisionAck(job: Job)
    | MarkProcessing(job: Job)
    | Send(job: Job)
    | MarkSent(job: Job)
    | AckSent(job: Job)
    | RetryDelay(job: Job)
    | RetryAck(job: Job)
    | RetryMark(job: Job)
    | DlqPush(job: Job, reason: Classification)
    | DlqAck(job: Job, reason: Classification)
    | DlqMark(job: Job)
    | Release(job: Job)

  datatype Worker = Worker(pid: nat, pc: PC)

  /** `replaying` is the job an operator's replay has taken off the dead-letter list and not yet
      pushed. The last four fields are history: what was ever pushed by an enqueue, accepted by
      the provider or dead-lettered, and how often the provider was called for a job. */
  datatype State = State(
    lists: Lists,
    locks: map<string, Owner>,
    workers: seq<Worker>,
    replaying: seq<Job>,
    enqueued: set<string>,
    accepted: set<string>,
    deadLettered: set<string>,
    sends: map<string, nat>)

  datatype Fault = Fine | FailsBefore | FailsAfter

  /** What the environment decides about one command. */
  datatype Choice = Choice(fault: Fault, classification: Classification, now: int, executeAt: int, due: seq<Raw>)

  /** ForeignPush puts text on the queue that is not JSON; Replay* are the operator's replay. */
  datatype Event =
    | Enqueue(job: Job)
    | ForeignPush(text: string)
    | LockExpires(id: string)
    | ReplayTake(entry: DlqEntry)
    | ReplayPush(fields: string)
    | ReplayCrash
    | Crash(worker: nat)
    | Restart(worker: nat, pid: nat)
    | Command(worker: nat, choice: Choice)

  const RESTORE_LIMIT := 200
  const PROMOTE_LIMIT := 100

  function Init(workerCount: nat): State {
    State(EmptyLists, map[], seq(workerCount, _ => Worker(0, Down)), [], {}, {}, {}, map[])
  }

  /** ZRANGEBYSCORE delayed 0 now LIMIT 0 100 may return `due`. */
  predicate IsDueBatch(l: Lists, now: int, due: seq<Raw>) {
    && |due| <= PROMOTE_LIMIT
    && (forall i :: 0 <= i < |due| ==> due[i] in l.delayed && 0 <= l.delayed[due[i]] <= now)
    && (forall i, j :: 0 <= i < j < |due| ==> due[i] != due[j])
  }

  function SendCount(s: State, id: string): nat {
    if id in s.sends then s.sends[id] else 0
  }

  /** What the pending command of a worker does to the shared state when it takes effect. */
  function Effect(s: State, w: Worker, c: Choice): State {
    var l := s.lists;
    match w.pc
    case Restoring(_) => if l.processing == [] then s else s.(lists := ReturnOldest(l))
    case PromotePush(todo) => if todo == [] then s else s.(lists := LPushQueue(l, todo[0]))
    case PromoteRemove(todo) => if todo == [] then s else s.(lists := ZRemDelayed(l, todo[0]))
    case Pop => if l.queue == [] then s else s.(lists := TakeNext(l))
    case DropMalformed(raw) => s.(lists := LRemProcessing(l, raw))
    case AcquireLock(job) =>
      if job.jobId in s.locks then s
      else s.(locks := s.locks[job.jobId := Owner(w.pid, job.jobId, job.attempt)])
    case CollisionDelay(job) => s.(lists := ZAddDelayed(l, Encoded(job), c.executeAt))
    case CollisionAck(job) => s.(lists := LRemProcessing(l, Encoded(job)))
    case Send(job) => s.(accepted := s.accepted + {job.jobId})
    case AckSent(job) => s.(lists := LRemProcessing(l, Encoded(job)))
    case RetryDelay(job) => s.(lists := ZAddDelayed(l, Encoded(NextAttempt(job)), c.executeAt))
    case RetryAck(job) => s.(lists := LRemProcessing(l, Encoded(job)))
    case DlqPush(job, reason) =>
      s.(lists := LPushDlq(l, DlqEntry(job, reason)), deadLettered := s.deadLettered + {job.jobId})
    case DlqAck(job, _) => s.(lists := LRemProcessing(l, Encoded(job)))
    case Release(job) =>
      if job.jobId in s.locks && s.locks[job.jobId] == Owner(w.pid, job.jobId, job.attempt)
      then s.(locks := s.locks - {job.jobId}) else s
    case _ => s
  }

  function AfterPop(raw: Raw): PC {
    if raw.Malformed? then DropMalformed(raw) else AcquireLock(raw.job)
  }

  /** Next command after the pending one succeeds; `s` is the state it ran in. */
  function OkPC(s: State, w: Worker, c: Choice): PC {
    match w.pc
    case Down => Down
    case Restoring(moved) =>
      if s.lists.processing == [] || moved + 1 >= RESTORE_LIMIT then ReadDue else Restoring(moved + 1)
    case ReadDue => if IsDueBatch(s.lists, c.now, c.due) && c.due != [] then PromotePush(c.due) else Pop
    case PromotePush(todo) => PromoteRemove(todo)
    case PromoteRemove(todo) => if |todo| <= 1 then Pop else PromotePush(todo[1..])
    case Pop => if s.lists.queue == [] then ReadDue else AfterPop(s.lists.queue[|s.lists.queue| - 1])
    case DropMalformed(_) => ReadDue
    case AcquireLock(job) => if job.jobId in s.locks then CollisionDelay(job) else MarkProcessing(job)
    case CollisionDelay(job) => CollisionAck(job)
    case CollisionAck(_) => ReadDue
    case MarkProcessing(job) => Send(job)
    case Send(job) => MarkSent(job)
    case MarkSent(job) => AckSent(job)
    case AckSent(job) => Release(job)
    case RetryDelay(job) => RetryAck(job)
    case RetryAck(job) => RetryMark(job)
    case RetryMark(job) => Release(job)
    case DlqPush(job, reason) => DlqAck(job, reason)
    case DlqAck(job, _) => DlqMark(job)
    case DlqMark(job) => Release(job)
    case Release(_) => ReadDue
  }

  /** The catch block of processJob. */
  function CatchPC(job: Job, c: Classification): PC {
    if ShouldRetry(c, job.attempt + 1) then RetryDelay(job) else DlqPush(job, c)
  }

  /** Next command after the pending one throws: inside the try block the catch block decides,
      inside the catch block only the finally clause runs, elsewhere the worker loop starts over. */
  function ErrPC(w: Worker, c: Choice): PC {
    match w.pc
    case Down => Down
    case Restoring(_) => Restoring(0)
    case Send(job) => CatchPC(job, c.classification)
    case MarkSent(job) => CatchPC(job, c.classification)
    case AckSent(job) => CatchPC(job, c.classification)
    case RetryDelay(job) => Release(job)
    case RetryAck(job) => Release(job)
    case RetryMark(job) => Release(job)
    case DlqPush(job, _) => Release(job)
    case DlqAck(job, _) => Release(job)
    case DlqMark(job) => Release(job)
    case _ => ReadDue
  }

  function CountSend(s: State, pc: PC): State {
    if pc.Send? then s.(sends := s.sends[pc.job.jobId := SendCount(s, pc.job.jobId) + 1]) else s
  }

  function RunCommand(s: State, i: nat, c: Choice): State
    requires i < |s.workers|
  {
    var w := s.workers[i];
    var pc' := if c.fault == Fine then OkPC(s, w, c) else ErrPC(w, c);
    var s' := CountSend(if c.fault == FailsBefore then s else Effect(s, w, c), w.pc);
    s'.(workers := s.workers[i := w.(pc := pc')])
  }

  /** One step. An event that cannot happen in `s` leaves it as it is. */
  function Step(s: State, e: Event): State {
    match e
    case Enqueue(job) =>
      if job.attempt == 0
      then s.(lists := LPushQueue(s.lists, Encoded(job)), enqueued := s.enqueued + {job.jobId}) else s
    case ForeignPush(text) => s.(lists := LPushQueue(s.lists, Malformed(text)))
    case LockExpires(id) => s.(locks := s.locks - {id})
    case ReplayTake(entry) =>
      if entry in s.lists.dlq && s.replaying == []
      then s.(lists := LRemDlq(s.lists, entry), replaying := [entry.job]) else s
    case ReplayPush(fields) =>
      if s.replaying == [] then s
      else s.(lists := LPushQueue(s.lists, Encoded(s.replaying[0].(attempt := 0, fields := fields))), replaying := [])
    case ReplayCrash => s.(replaying := [])
    case Crash(i) =>
      if i < |s.workers| then s.(workers := s.workers[i := s.workers[i].(pc := Down)]) else s
    case Restart(i, pid) =>
      if i < |s.workers| && s.workers[i].pc.Down? then s.(workers := s.workers[i := Worker(pid, Restoring(0))]) else s
    case Command(i, c) => if i < |s.workers| then RunCommand(s, i, c) else s
  }

  function Exec(s: State, events: seq<Event>): State
    decreases |events|
  {
    if events == [] then s else Exec(Step(s, events[0]), events[1..])
  }

  /** Some run leads from `s` to `s'`. */
  ghost predicate Leads(s: State, s': State) {
    exists events :: Exec(s, events) == s'
  }

  lemma {:induction false} ExecAppend(s: State, events: seq<Event>, e: Event)
    ensures Exec(s, events + [e]) == Step(Exec(s, events), e)
    decreases |events|
  {
    if events == [] {
      assert (events + [e])[1..] == [];
    } else {
      assert (events + [e])[1..] == events[1..] + [e];
      ExecAppend(Step(s, events[0]), events[1..], e);
    }
  }

  lemma LeadsHere(s: State)
    ensures Leads(s, s)
  {
    assert Exec(s, []) == s;
  }

  lemma LeadsOn(start: State, s: State, e: Event, s': State)
    requires Leads(start, s) && Step(s, e) == s'
    ensures Leads(start, s')
  {
    var events :| Exec(start, events) == s;
    ExecAppend(start, events, e);
  }
}
