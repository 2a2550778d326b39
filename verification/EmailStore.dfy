/** The Redis side of the email pipeline: the values the lists hold, and what each single
    Redis command does to them. Both the queue class and the crash machine use these. */
module EmailStore {

  /** `fields` stands for the payload fields no queue operation looks at. */
  datatype Job = Job(jobId: string, fields: string, attempt: int)

  /** A list entry: the JSON text of a job, or text that is not JSON. */
  datatype Raw = Encoded(job: Job) | Malformed(text: string)

  datatype Classification = Transient | Permanent | Poison

  datatype DlqEntry = DlqEntry(job: Job, reason: Classification)

  /** Lists have their head at index 0. The delayed set maps a member to its score. */
  datatype Lists = Lists(queue: seq<Raw>, processing: seq<Raw>, delayed: map<Raw, int>, dlq: seq<DlqEntry>)

  const EmptyLists := Lists([], [], map[], [])

  const MAX_ATTEMPTS := 5

  /** LREM key 1 x: drops the occurrence nearest the head, if there is one. */
  function RemoveFirst<T(==)>(s: seq<T>, x: T): (r: seq<T>)
    ensures x !in s ==> r == s
    ensures forall y :: y in s && y != x ==> y in r
    ensures forall y :: y in r ==> y in s
  {
    if s == [] then []
    else if s[0] == x then s[1..]
    else [s[0]] + RemoveFirst(s[1..], x)
  }

  function LPushQueue(l: Lists, raw: Raw): Lists {
    l.(queue := [raw] + l.queue)
  }

  function ZAddDelayed(l: Lists, raw: Raw, score: int): Lists {
    l.(delayed := l.delayed[raw := score])
  }

  function ZRemDelayed(l: Lists, raw: Raw): Lists {
    l.(delayed := l.delayed - {raw})
  }

  function LRemProcessing(l: Lists, raw: Raw): Lists {
    l.(processing := RemoveFirst(l.processing, raw))
  }

  function LPushDlq(l: Lists, entry: DlqEntry): Lists {
    l.(dlq := [entry] + l.dlq)
  }

  function LRemDlq(l: Lists, entry: DlqEntry): Lists {
    l.(dlq := RemoveFirst(l.dlq, entry))
  }

  /** BRPOPLPUSH queue -> processing on a non-empty queue. */
  function TakeNext(l: Lists): Lists
    requires l.queue != []
  {
    var last := |l.queue| - 1;
    l.(queue := l.queue[..last], processing := [l.queue[last]] + l.processing)
  }

  /** RPOPLPUSH processing -> queue on a non-empty processing list. */
  function ReturnOldest(l: Lists): Lists
    requires l.processing != []
  {
    var last := |l.processing| - 1;
    l.(processing := l.processing[..last], queue := [l.processing[last]] + l.queue)
  }

  /** Every entry of the three live places. */
  ghost function LiveEntries(l: Lists): set<Raw> {
    (set r | r in l.queue) + (set r | r in l.processing) + l.delayed.Keys
  }

  ghost predicate InFlight(l: Lists, id: string) {
    exists r :: r in LiveEntries(l) && r.Encoded? && r.job.jobId == id
  }

  predicate ShouldRetry(c: Classification, nextAttempt: int) {
    c == Transient && nextAttempt < MAX_ATTEMPTS
  }

  function NextAttempt(job: Job): Job {
    job.(attempt := job.attempt + 1)
  }
}
