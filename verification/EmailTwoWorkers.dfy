/** Why the no-loss theorem speaks of one worker: two can lose a job. */
module EmailTwoWorkers {
  import opened EmailStore
  import opened EmailWorker
  import opened EmailNoLoss

  ghost predicate Reached(s: State) {
    Leads(Init(2), s)
  }

  lemma Next(s: State, e: Event, s': State)
    requires Reached(s) && Step(s, e) == s'
    ensures Reached(s')
  {
    LeadsOn(Init(2), s, e, s');
  }

  /** Worker `i` issues its command, which succeeds; the clock is late and `due` is what it reads. */
  function Go(i: nat, due: seq<Raw>): Event {
    Command(i, Choice(Fine, Transient, 5000, 5000, due))
  }

  const J := Job("j", "", 0)
  const RAW := Encoded(J)

  /** Both workers' commands and the lists; the job was pushed and nothing has settled it. */
  function At(l: Lists, locked: bool, pc0: PC, w1: Worker): State {
    State(l, if locked then map["j" := Owner(1, "j", 0)] else map[], [Worker(1, pc0), w1], [], {"j"}, {}, {}, map[])
  }

  const IDLE := Worker(0, Down)
  const QUEUED := Lists([RAW], [], map[], [])
  const PROCESSING := Lists([], [RAW], map[], [])
  const PARKED := Lists([], [], map[RAW := 5000], [])
  const PROMOTED := Lists([RAW], [], map[RAW := 5000], [])
  const BOTH := Lists([], [RAW], map[RAW := 5000], [])

  lemma Pushed()
    ensures Reached(At(QUEUED, false, Restoring(0), IDLE))
  {
    var s := Init(2);
    LeadsHere(s);
    var s1 := Step(s, Restart(0, 1));
    Next(s, Restart(0, 1), s1);
    assert s1.workers == [Worker(1, Restoring(0)), IDLE];
    Next(s1, Enqueue(J), At(QUEUED, false, Restoring(0), IDLE));
  }

  lemma PoppedOnce()
    ensures Reached(At(PROCESSING, false, AcquireLock(J), IDLE))
  {
    Pushed();
    Next(At(QUEUED, false, Restoring(0), IDLE), Go(0, []), At(QUEUED, false, ReadDue, IDLE));
    Next(At(QUEUED, false, ReadDue, IDLE), Go(0, []), At(QUEUED, false, Pop, IDLE));
    Next(At(QUEUED, false, Pop, IDLE), Go(0, []), At(PROCESSING, false, AcquireLock(J), IDLE));
  }

  /** Worker 0 crashes while it holds the lock; the restart requeues the job, the lock stays. */
  lemma CrashedWithLock()
    ensures Reached(At(QUEUED, true, Restoring(1), IDLE))
  {
    PoppedOnce();
    Next(At(PROCESSING, false, AcquireLock(J), IDLE), Go(0, []), At(PROCESSING, true, MarkProcessing(J), IDLE));
    Next(At(PROCESSING, true, MarkProcessing(J), IDLE), Crash(0), At(PROCESSING, true, Down, IDLE));
    Next(At(PROCESSING, true, Down, IDLE), Restart(0, 1), At(PROCESSING, true, Restoring(0), IDLE));
    Next(At(PROCESSING, true, Restoring(0), IDLE), Go(0, []), At(QUEUED, true, Restoring(1), IDLE));
  }

  lemma PoppedAgain()
    ensures Reached(At(PROCESSING, true, CollisionDelay(J), IDLE))
  {
    CrashedWithLock();
    Next(At(QUEUED, true, Restoring(1), IDLE), Go(0, []), At(QUEUED, true, ReadDue, IDLE));
    Next(At(QUEUED, true, ReadDue, IDLE), Go(0, []), At(QUEUED, true, Pop, IDLE));
    Next(At(QUEUED, true, Pop, IDLE), Go(0, []), At(PROCESSING, true, AcquireLock(J), IDLE));
    Next(At(PROCESSING, true, AcquireLock(J), IDLE), Go(0, []), At(PROCESSING, true, CollisionDelay(J), IDLE));
  }

  /** The collision parks the job, and worker 0 later starts to promote it. */
  lemma HalfPromoted()
    ensures Reached(At(PROMOTED, true, PromoteRemove([RAW]), IDLE))
  {
    PoppedAgain();
    Next(At(PROCESSING, true, CollisionDelay(J), IDLE), Go(0, []), At(BOTH, true, CollisionAck(J), IDLE));
    Next(At(BOTH, true, CollisionAck(J), IDLE), Go(0, []), At(PARKED, true, ReadDue, IDLE));
    assert IsDueBatch(PARKED, 5000, [RAW]);
    Next(At(PARKED, true, ReadDue, IDLE), Go(0, [RAW]), At(PARKED, true, PromotePush([RAW]), IDLE));
    Next(At(PARKED, true, PromotePush([RAW]), IDLE), Go(0, []), At(PROMOTED, true, PromoteRemove([RAW]), IDLE));
  }

  lemma TakenByOther()
    ensures Reached(At(BOTH, true, PromoteRemove([RAW]), Worker(2, AcquireLock(J))))
  {
    HalfPromoted();
    var pc := PromoteRemove([RAW]);
    Next(At(PROMOTED, true, pc, IDLE), Restart(1, 2), At(PROMOTED, true, pc, Worker(2, Restoring(0))));
    Next(At(PROMOTED, true, pc, Worker(2, Restoring(0))), Go(1, []), At(PROMOTED, true, pc, Worker(2, ReadDue)));
    Next(At(PROMOTED, true, pc, Worker(2, ReadDue)), Go(1, []), At(PROMOTED, true, pc, Worker(2, Pop)));
    Next(At(PROMOTED, true, pc, Worker(2, Pop)), Go(1, []), At(BOTH, true, pc, Worker(2, AcquireLock(J))));
  }

  /** Between worker 0's LPUSH and its ZREM of a promoted job, worker 1 pops the job, collides with
      the lock and adds the same member again; the pending ZREM then erases the only copy. */
  lemma TwoWorkersCanLoseAJob()
    ensures exists s :: Reached(s) && "j" in s.enqueued && !Settled(s, "j") && !InFlight(s.lists, "j")
                        && (forall w :: w in s.workers ==> Held(w.pc) == [])
  {
    TakenByOther();
    var pc := PromoteRemove([RAW]);
    Next(At(BOTH, true, pc, Worker(2, AcquireLock(J))), Go(1, []), At(BOTH, true, pc, Worker(2, CollisionDelay(J))));
    Next(At(BOTH, true, pc, Worker(2, CollisionDelay(J))), Go(1, []), At(BOTH, true, pc, Worker(2, CollisionAck(J))));
    Next(At(BOTH, true, pc, Worker(2, CollisionAck(J))), Go(1, []), At(PARKED, true, pc, Worker(2, ReadDue)));
    var s := At(EmptyLists, true, Pop, Worker(2, ReadDue));
    Next(At(PARKED, true, pc, Worker(2, ReadDue)), Go(0, []), s);
    assert LiveEntries(s.lists) == {};
  }
}
