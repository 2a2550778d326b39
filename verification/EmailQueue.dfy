/** The queue object over the Redis lists, and the service that processes one popped job. */
module EmailQueue {
  import opened Basics
  import opened EmailStore
  import opened EmailRetry
  import EmailWorker

  const PEEK_LIMIT := 500

  function Reversed<T>(s: seq<T>): seq<T> {
    seq(|s|, i requires 0 <= i < |s| => s[|s| - 1 - i])
  }

  /** Index of the first dead-letter entry for a job among the first 500. */
  predicate IsFirstFor(dlq: seq<DlqEntry>, id: string, i: nat) {
    i < |dlq| && i < PEEK_LIMIT && dlq[i].job.jobId == id && forall j :: 0 <= j < i ==> dlq[j].job.jobId != id
  }

  class Queue {
    var queue: seq<Raw>
    var processing: seq<Raw>
    var delayed: map<Raw, int>
    var dlq: seq<DlqEntry>

    function Value(): Lists
      reads this
    {
      Lists(queue, processing, delayed, dlq)
    }

    constructor ()
      ensures Value() == EmptyLists
    {
      queue, processing, delayed, dlq := [], [], map[], [];
    }

    method Enqueue(job: Job)
      modifies this
      ensures Value() == LPushQueue(old(Value()), Encoded(job))
    {
      queue := [Encoded(job)] + queue;
    }

    method EnqueueDelayed(job: Job, executeAt: int)
      modifies this
      ensures Value() == ZAddDelayed(old(Value()), Encoded(job), executeAt)
    {
      delayed := delayed[Encoded(job) := executeAt];
    }

    /** Takes the oldest queued entry; text that is not JSON is dropped. */
    method PopBlocking() returns (popped: Option<Job>)
      modifies this
      ensures old(queue) == [] ==> popped == None && Value() == old(Value())
      ensures old(queue) != [] ==>
                var raw := old(queue)[|old(queue)| - 1];
                var taken := TakeNext(old(Value()));
                if raw.Encoded? then popped == Some(raw.job) && Value() == taken
                else popped == None && Value() == old(Value()).(queue := taken.queue)
    {
      if queue == [] { return None; }
      var raw := queue[|queue| - 1];
      queue := queue[..|queue| - 1];
      processing := [raw] + processing;
      match raw {
        case Encoded(job) => popped := Some(job);
        case Malformed(_) =>
          processing := RemoveFirst(processing, raw);
          assert processing == old(processing);
          popped := None;
      }
    }

    method Ack(raw: Raw)
      modifies this
      ensures Value() == LRemProcessing(old(Value()), raw)
    {
      processing := RemoveFirst(processing, raw);
    }

    method PushToDlq(job: Job, reason: Classification)
      modifies this
      ensures Value() == LPushDlq(old(Value()), DlqEntry(job, reason))
    {
      dlq := [DlqEntry(job, reason)] + dlq;
    }

    /** `items` is what the range query returned: exactly those members move to the queue. */
    method PromoteDelayed(now: int, items: seq<Raw>)
      requires EmailWorker.IsDueBatch(Value(), now, items)
      modifies this
      ensures queue == Reversed(items) + old(queue)
      ensures delayed == old(delayed) - (set r | r in items)
      ensures processing == old(processing) && dlq == old(dlq)
      ensures |items| <= 100
    {
      for i := 0 to |items|
        invariant queue == Reversed(items[..i]) + old(queue)
        invariant delayed == old(delayed) - (set r | r in items[..i])
        invariant processing == old(processing) && dlq == old(dlq)
      {
        queue := [items[i]] + queue;
        delayed := delayed - {items[i]};
        assert items[..i + 1] == items[..i] + [items[i]];
        assert Reversed(items[..i + 1]) == [items[i]] + Reversed(items[..i]);
      }
      assert items[..|items|] == items;
    }

    /** The last `moved` processing entries go back to the queue's head in the order they had. */
    method RequeueStuckProcessing(limit: nat) returns (moved: nat)
      modifies this
      ensures moved == if |old(processing)| < limit then |old(processing)| else limit
      ensures queue == old(processing)[|old(processing)| - moved..] + old(queue)
      ensures processing == old(processing)[..|old(processing)| - moved]
      ensures delayed == old(delayed) && dlq == old(dlq)
    {
      moved := 0;
      ghost var was := processing;
      while moved < limit
        invariant moved <= limit && moved <= |was|
        invariant queue == was[|was| - moved..] + old(queue)
        invariant processing == was[..|was| - moved]
        invariant delayed == old(delayed) && dlq == old(dlq)
      {
        if processing == [] { break; }
        var last := |processing| - 1;
        var raw := processing[last];
        processing := processing[..last];
        queue := [raw] + queue;
        assert was[|was| - moved - 1..] == [raw] + was[|was| - moved..];
        moved := moved + 1;
      }
    }

    /** Puts the newest matching dead-letter entry back on the queue with a fresh attempt count. */
    method RequeueDlqJobById(jobId: string, fields: string) returns (found: bool)
      modifies this
      ensures found <==> exists i: nat :: IsFirstFor(old(dlq), jobId, i)
      ensures !found ==> Value() == old(Value())
      ensures forall i: nat :: IsFirstFor(old(dlq), jobId, i) ==>
                dlq == old(dlq)[..i] + old(dlq)[i + 1..]
                && queue == [Encoded(Job(jobId, fields, 0))] + old(queue)
                && processing == old(processing) && delayed == old(delayed)
    {
      var items := dlq[..Min(|dlq|, PEEK_LIMIT)];
      for k := 0 to |items|
        invariant Value() == old(Value())
        invariant forall j :: 0 <= j < k ==> items[j].job.jobId != jobId
      {
        if items[k].job.jobId == jobId {
          assert dlq[k] == items[k];
          assert IsFirstFor(dlq, jobId, k);
          RemoveFirstAt(dlq, k);
          dlq := RemoveFirst(dlq, items[k]);
          queue := [Encoded(items[k].job.(attempt := 0, fields := fields))] + queue;
          return true;
        }
      }
      found := false;
    }
  }

  /** Removing an element whose first occurrence is at `k` takes out exactly position `k`. */
  lemma {:induction false} RemoveFirstAt<T>(s: seq<T>, k: nat)
    requires k < |s| && forall j :: 0 <= j < k ==> s[j] != s[k]
    ensures RemoveFirst(s, s[k]) == s[..k] + s[k + 1..]
  {
    if k > 0 {
      assert s[1..][k - 1] == s[k];
      RemoveFirstAt(s[1..], k - 1);
      assert RemoveFirst(s, s[k]) == [s[0]] + RemoveFirst(s[1..], s[k]);
      assert s[1..][..k - 1] == s[1..k] && s[1..][k..] == s[k + 1..];
      assert s[..k] == [s[0]] + s[1..k];
    }
  }

  datatype Status = Pending | Processing | Sent | Retrying | Failed | Dead
  datatype Row = Row(status: Status, attemptCount: nat)
  datatype Outcome = Accepted | Rejected(classification: Classification)

  /** The parts of the system processJob changes. */
  datatype Shared = Shared(lists: Lists, locks: map<string, EmailWorker.Owner>, rows: map<string, Row>)

  function SetRow(rows: map<string, Row>, id: string, status: Status, sent: nat): map<string, Row> {
    if id in rows then rows[id := Row(status, rows[id].attemptCount + sent)] else rows
  }

  function Acked(s: Shared, job: Job): Shared {
    s.(lists := LRemProcessing(s.lists, Encoded(job)))
  }

  function Settle(s: Shared, job: Job, outcome: Outcome, executeAt: int): Shared {
    match outcome
    case Accepted => Acked(s, job).(rows := SetRow(s.rows, job.jobId, Sent, 1))
    case Rejected(c) =>
      if ShouldRetry(c, job.attempt + 1) then
        Acked(s.(lists := ZAddDelayed(s.lists, Encoded(NextAttempt(job)), executeAt)), job)
        .(rows := SetRow(s.rows, job.jobId, Retrying, 1))
      else
        Acked(s.(lists := LPushDlq(s.lists, DlqEntry(job, c))), job)
        .(rows := SetRow(s.rows, job.jobId, if c == Permanent then Failed else Dead, 1))
  }

  /** What one call of processJob does when no Redis or Mongo command fails. */
  function Processed(s: Shared, pid: nat, job: Job, outcome: Outcome, executeAt: int): Shared {
    if job.jobId in s.locks then
      Acked(s.(lists := ZAddDelayed(s.lists, Encoded(job), executeAt)), job)
    else
      Settle(s.(rows := SetRow(s.rows, job.jobId, Processing, 0)), job, outcome, executeAt)
  }

  /** The status an attempt ends in. */
  function FinalStatus(job: Job, outcome: Outcome): Status {
    match outcome
    case Accepted => Sent
    case Rejected(Transient) => if job.attempt < 4 then Retrying else Dead
    case Rejected(Permanent) => Failed
    case Rejected(Poison) => Dead
  }

  /** The job's row, if there is one, has this status and one attempt more; other rows are as before. */
  predicate RowSettled(before: map<string, Row>, after: map<string, Row>, id: string, status: Status) {
    && after.Keys == before.Keys
    && (forall other :: other in before && other != id ==> after[other] == before[other])
    && (id in before ==> after[id].status == status && after[id].attemptCount == before[id].attemptCount + 1)
  }

  /** What one call leaves, in terms of what it found. */
  lemma ProcessedMeans(s: Shared, pid: nat, job: Job, outcome: Outcome, executeAt: int)
    ensures var t, status := Processed(s, pid, job, outcome, executeAt), FinalStatus(job, outcome);
            && t.locks == s.locks && t.lists.queue == s.lists.queue
            && t.lists.processing == RemoveFirst(s.lists.processing, Encoded(job))
            && (job.jobId in s.locks ==>
                  t.rows == s.rows && t.lists.dlq == s.lists.dlq && t.lists.delayed == s.lists.delayed[Encoded(job) := executeAt])
            && (job.jobId !in s.locks ==>
                  && RowSettled(s.rows, t.rows, job.jobId, status)
                  && t.lists.delayed == (if status == Retrying then s.lists.delayed[Encoded(Job(job.jobId, job.fields, job.attempt + 1)) := executeAt]
                                         else s.lists.delayed)
                  && t.lists.dlq == (if outcome.Rejected? && status != Retrying then [DlqEntry(job, outcome.classification)] + s.lists.dlq
                                     else s.lists.dlq))
  {
    hide RemoveFirst;
  }

  class Service {
    const q: Queue
    const pid: nat
    var locks: map<string, EmailWorker.Owner>
    var rows: map<string, Row>
    /** Every status written to a job's row so far. */
    ghost var written: seq<(string, Status)>

    constructor (q: Queue, pid: nat)
      ensures this.q == q && this.pid == pid && locks == map[] && rows == map[] && written == []
    {
      this.q, this.pid := q, pid;
      locks, rows, written := map[], map[], [];
    }

    function Value(): Shared
      reads this, q
    {
      Shared(q.Value(), locks, rows)
    }

    method AcquireLock(job: Job) returns (owner: EmailWorker.Owner, acquired: bool)
      modifies this
      ensures owner == EmailWorker.Owner(pid, job.jobId, job.attempt)
      ensures acquired <==> job.jobId !in old(locks)
      ensures locks == if acquired then old(locks)[job.jobId := owner] else old(locks)
      ensures rows == old(rows) && written == old(written)
    {
      owner := EmailWorker.Owner(pid, job.jobId, job.attempt);
      acquired := job.jobId !in locks;
      if acquired {
        locks := locks[job.jobId := owner];
      }
    }

    /** Deletes the lock only when it still belongs to `owner`. */
    method ReleaseLock(jobId: string, owner: EmailWorker.Owner)
      modifies this
      ensures locks == if jobId in old(locks) && old(locks)[jobId] == owner then old(locks) - {jobId} else old(locks)
      ensures rows == old(rows) && written == old(written)
    {
      if jobId in locks && locks[jobId] == owner {
        locks := locks - {jobId};
      }
    }

    /** Writes a status to the job's row, if it has one, and counts an attempt when one was made. */
    method UpdateRow(jobId: string, status: Status, sent: nat)
      modifies this`rows, this`written
      ensures rows == SetRow(old(rows), jobId, status, sent)
      ensures written == old(written) + [(jobId, status)]
    {
      rows := SetRow(rows, jobId, status, sent);
      written := written + [(jobId, status)];
    }

    /** `outcome` is what the provider answers, `executeAt` when a parked job falls due. Under a lock the
        job is parked as it is and no row is touched. Otherwise the row is marked as being processed and
        then with what became of the job: accepted; parked with one attempt more, after a transient
        rejection of one of the first four attempts; or dead-lettered. */
    method ProcessJob(job: Job, outcome: Outcome, executeAt: int)
      modifies this, q
      ensures Value() == Processed(old(Value()), pid, job, outcome, executeAt)
      ensures q.queue == old(q.queue) && q.processing == RemoveFirst(old(q.processing), Encoded(job)) && locks == old(locks)
      ensures job.jobId in old(locks) ==>
                && rows == old(rows) && written == old(written) && q.dlq == old(q.dlq)
                && q.delayed == old(q.delayed)[Encoded(job) := executeAt]
      ensures job.jobId !in old(locks) ==>
                && RowSettled(old(rows), rows, job.jobId, FinalStatus(job, outcome))
                && written == old(written) + [(job.jobId, Processing), (job.jobId, FinalStatus(job, outcome))]
                && q.delayed == (if FinalStatus(job, outcome) == Retrying
                                 then old(q.delayed)[Encoded(Job(job.jobId, job.fields, job.attempt + 1)) := executeAt]
                                 else old(q.delayed))
                && q.dlq == (if outcome.Rejected? && FinalStatus(job, outcome) != Retrying
                             then [DlqEntry(job, outcome.classification)] + old(q.dlq)
                             else old(q.dlq))
    {
      ProcessedMeans(Value(), pid, job, outcome, executeAt);
      AttemptJob(job, outcome, executeAt);
      hide Processed, RowSettled, FinalStatus;
    }

    method AttemptJob(job: Job, outcome: Outcome, executeAt: int)
      modifies this, q
      ensures Value() == Processed(old(Value()), pid, job, outcome, executeAt)
      ensures written == old(written) + if job.jobId in old(locks) then []
                                        else [(job.jobId, Processing), (job.jobId, FinalStatus(job, outcome))]
    {
      var owner, acquired := AcquireLock(job);
      if !acquired {
        q.EnqueueDelayed(job, executeAt);
        q.Ack(Encoded(job));
        return;
      }
      UpdateRow(job.jobId, Processing, 0);
      match outcome {
        case Accepted =>
          UpdateRow(job.jobId, Sent, 1);
          q.Ack(Encoded(job));
        case Rejected(c) =>
          if ShouldRetry(c, job.attempt + 1) {
            q.EnqueueDelayed(NextAttempt(job), executeAt);
            q.Ack(Encoded(job));
            UpdateRow(job.jobId, Retrying, 1);
          } else {
            q.PushToDlq(job, c);
            q.Ack(Encoded(job));
            UpdateRow(job.jobId, if c == Permanent then Failed else Dead, 1);
          }
      }
      ReleaseLock(job.jobId, owner);
      assert locks == old(locks);
    }
  }
}
