/** What the queue object does in one call, the step machine does command by command: promotion, the
    restoring of stuck jobs at start-up, and the replay of a dead letter. */
module EmailLoops {
  import opened EmailStore
  import opened EmailQueue
  import opened EmailDelivery
  import M = EmailWorker

  function Promoted(l: Lists, todo: seq<Raw>): Lists {
    l.(queue := Reversed(todo) + l.queue, delayed := l.delayed - (set r | r in todo))
  }

  lemma PromotedMore(l: Lists, todo: seq<Raw>)
    requires todo != []
    ensures Promoted(ZRemDelayed(LPushQueue(l, todo[0]), todo[0]), todo[1..]) == Promoted(l, todo)
  {
    assert Reversed(todo) == Reversed(todo[1..]) + [todo[0]];
    assert (set r | r in todo) == {todo[0]} + (set r | r in todo[1..]);
  }

  /** A batch read is pushed and removed member by member, and then the worker pops. */
  lemma {:induction false} PromoteIsARun(start: M.State, s: M.State, todo: seq<Raw>, pid: nat)
    requires todo != [] && M.Leads(start, At(s, M.PromotePush(todo), pid))
    ensures M.Leads(start, At(s.(lists := Promoted(s.lists, todo)), M.Pop, pid))
    decreases |todo|
  {
    var pushed := s.(lists := LPushQueue(s.lists, todo[0]));
    var moved := s.(lists := ZRemDelayed(pushed.lists, todo[0]));
    M.LeadsOn(start, At(s, M.PromotePush(todo), pid), Ok(0), At(pushed, M.PromoteRemove(todo), pid));
    PromotedMore(s.lists, todo);
    if |todo| == 1 {
      M.LeadsOn(start, At(pushed, M.PromoteRemove(todo), pid), Ok(0), At(moved, M.Pop, pid));
      assert Promoted(moved.lists, []) == moved.lists;
    } else {
      M.LeadsOn(start, At(pushed, M.PromoteRemove(todo), pid), Ok(0), At(moved, M.PromotePush(todo[1..]), pid));
      PromoteIsARun(start, moved, todo[1..], pid);
    }
  }

  /** The last `n` processing entries are back at the head of the queue, in the order they had. */
  function Restored(l: Lists, n: nat): Lists
    requires n <= |l.processing|
  {
    var keep := |l.processing| - n;
    l.(queue := l.processing[keep..] + l.queue, processing := l.processing[..keep])
  }

  lemma RestoredMore(l: Lists, n: nat)
    requires n < |l.processing|
    ensures Restored(ReturnOldest(l), n) == Restored(l, n + 1)
  {
    var p := l.processing;
    var last := |p| - 1;
    assert p[..last][last - n..] + [p[last]] == p[last - n..];
    assert p[..last][..last - n] == p[..last - n];
  }

  lemma NoneRestored(l: Lists)
    ensures Restored(l, 0) == l
  {
    assert l.processing[|l.processing|..] + l.queue == l.queue;
  }

  /** One more entry is put back, unless the list is empty; after the last the worker reads the delayed set. */
  lemma RestoreStep(start: M.State, s: M.State, moved: nat, pid: nat)
    requires M.Leads(start, At(s, M.Restoring(moved), pid))
    ensures s.lists.processing == [] ==> M.Leads(start, At(s, M.ReadDue, pid))
    ensures s.lists.processing != [] ==>
              M.Leads(start, At(With(s, ReturnOldest(s.lists)), if moved + 1 >= 200 then M.ReadDue else M.Restoring(moved + 1), pid))
  {
    if s.lists.processing == [] {
      M.LeadsOn(start, At(s, M.Restoring(moved), pid), Ok(0), At(s, M.ReadDue, pid));
    } else {
      var pc := if moved + 1 >= 200 then M.ReadDue else M.Restoring(moved + 1);
      M.LeadsOn(start, At(s, M.Restoring(moved), pid), Ok(0), At(s.(lists := ReturnOldest(s.lists)), pc, pid));
    }
  }

  /** How many of the `p` entries are still put back when `moved` are back already: 200 in all. */
  function ToRestore(moved: nat, p: nat): (n: nat)
    requires moved < 200
    ensures n <= p
  {
    if moved + p <= 200 then p else 200 - moved
  }

  /** A started worker puts back the oldest 200 entries of the processing list, or all when it has no
      more, before it first reads the delayed set; `moved` are back already. */
  lemma {:induction false} RestoreIsARun(start: M.State, s: M.State, moved: nat, pid: nat)
    requires moved < 200 && M.Leads(start, At(s, M.Restoring(moved), pid))
    ensures M.Leads(start, At(With(s, Restored(s.lists, ToRestore(moved, |s.lists.processing|))), M.ReadDue, pid))
    decreases |s.lists.processing|
  {
    hide *;
    var l, p := s.lists, |s.lists.processing|;
    RestoreStep(start, s, moved, pid);
    NoneRestored(l);
    ToRestoreStep(moved, p);
    WithLists(s, l);
    if p > 0 {
      var next := With(s, ReturnOldest(l));
      ReturnedOne(l);
      WithLists(s, ReturnOldest(l));
      NoneRestored(next.lists);
      RestoredMore(l, ToRestore(moved, p) - 1);
      if moved + 1 < 200 {
        RestoreIsARun(start, next, moved + 1, pid);
        WithTwice(s, ReturnOldest(l), Restored(next.lists, ToRestore(moved + 1, p - 1)));
      }
    }
  }

  lemma ReturnedOne(l: Lists)
    requires l.processing != []
    ensures |ReturnOldest(l).processing| == |l.processing| - 1
  {
  }

  /** The state with these lists. */
  function With(s: M.State, l: Lists): M.State {
    s.(lists := l)
  }

  lemma WithLists(s: M.State, l: Lists)
    ensures With(s, l).lists == l && With(s, s.lists) == s
  {
  }

  lemma WithTwice(s: M.State, a: Lists, b: Lists)
    ensures With(With(s, a), b) == With(s, b)
  {
  }

  lemma ToRestoreStep(moved: nat, p: nat)
    requires moved < 200
    ensures p == 0 ==> ToRestore(moved, p) == 0
    ensures p > 0 ==> ToRestore(moved, p) == 1 + if moved + 1 < 200 then ToRestore(moved + 1, p - 1) else 0
  {
  }

  /** A replay that is not cut off puts the newest matching dead letter back on the queue with no attempt
      made, and takes that entry and no other off the dead-letter list. */
  lemma ReplayIsARun(s: M.State, id: string, i: nat, fields: string)
    requires IsFirstFor(s.lists.dlq, id, i) && s.replaying == []
    ensures var t := M.Step(M.Step(s, M.ReplayTake(s.lists.dlq[i])), M.ReplayPush(fields));
            t == s.(lists := s.lists.(dlq := s.lists.dlq[..i] + s.lists.dlq[i + 1..],
                                      queue := [Encoded(Job(id, fields, 0))] + s.lists.queue))
  {
    var entry := s.lists.dlq[i];
    assert entry in s.lists.dlq;
    RemoveFirstAt(s.lists.dlq, i);
  }

  /** Only an entry that is on the dead-letter list can be taken, and one at a time. */
  lemma ReplayNeedsDeadLetter(s: M.State, entry: DlqEntry)
    ensures M.Step(s, M.ReplayTake(entry)) != s ==> (exists i :: 0 <= i < |s.lists.dlq| && s.lists.dlq[i] == entry) && s.replaying == []
  {
  }

  /** A worker never pops twice without reading the delayed set in between, whatever fails: it comes to a
      pop only from a read that found nothing due or from the last removal of a promoted batch. */
  lemma PopOnlyAfterRead(s: M.State, i: nat, c: M.Choice)
    requires i < |s.workers| && M.RunCommand(s, i, c).workers[i].pc.Pop?
    ensures var pc := s.workers[i].pc;
            c.fault == M.Fine && (pc.ReadDue? || (pc.PromoteRemove? && |pc.todo| <= 1))
  {
  }
}
