/** Comments, their replies and the comment counter of an article, over serial calls. */
module CommentForest {
  import opened Basics

  /** Articles and users are numbered. */
  type NewsId = nat
  type UserId = nat

  datatype Comment = Comment(newsId: NewsId, userId: UserId, body: string, parent: Option<nat>, replyCount: int)

  /** Comments are numbered in the order they are created. `soft` records the article of every call
      that kept a deleted comment because of its replies, `tombs` the comments these calls blanked. */
  datatype Store = Store(comments: map<nat, Comment>, counts: map<NewsId, int>, next: nat, soft: multiset<NewsId>,
                         tombs: set<nat>)

  datatype Error = BodyRequired | BodyTooLong | UserNotFound | ParentNotFound | CommentNotFound | NotAuthorized | WrongArticle
  datatype Reply = Count(count: int) | Refused(error: Error)

  datatype Call =
    | Add(newsId: NewsId, userId: UserId, userKnown: bool, body: string, parent: Option<nat>)
    | Delete(newsId: NewsId, comment: nat, userId: UserId)

  function Bump(counts: map<NewsId, int>, newsId: NewsId, amount: int): map<NewsId, int> {
    if newsId in counts then counts[newsId := counts[newsId] + amount] else counts
  }

  function BumpReplies(comments: map<nat, Comment>, id: nat, amount: int): map<nat, Comment> {
    if id in comments then comments[id := comments[id].(replyCount := comments[id].replyCount + amount)] else comments
  }

  /** `body` is the trimmed body. */
  function AddError(s: Store, c: Call): Option<Error>
    requires c.Add?
  {
    if c.body == "" then Some(BodyRequired)
    else if |c.body| > 500 then Some(BodyTooLong)
    else if !c.userKnown then Some(UserNotFound)
    else if c.parent.Some? && (c.parent.value !in s.comments || s.comments[c.parent.value].newsId != c.newsId) then Some(ParentNotFound)
    else None
  }

  function DeleteError(s: Store, c: Call): Option<Error>
    requires c.Delete?
  {
    if c.comment !in s.comments then Some(CommentNotFound)
    else if s.comments[c.comment].userId != c.userId then Some(NotAuthorized)
    else if s.comments[c.comment].newsId != c.newsId then Some(WrongArticle)
    else None
  }

  function AddComment(s: Store, c: Call): Store
    requires c.Add?
  {
    if AddError(s, c).Some? then s
    else
      var with := s.comments[s.next := Comment(c.newsId, c.userId, c.body, c.parent, 0)];
      s.(comments := if c.parent.Some? then BumpReplies(with, c.parent.value, 1) else with,
         counts := Bump(s.counts, c.newsId, 1),
         next := s.next + 1)
  }

  function DeleteComment(s: Store, c: Call): Store
    requires c.Delete?
  {
    if DeleteError(s, c).Some? then s
    else
      var before := s.comments[c.comment];
      if before.replyCount > 0 then
        s.(comments := s.comments[c.comment := before.(body := "[deleted]")],
           counts := Bump(s.counts, c.newsId, -1),
           soft := s.soft + multiset{c.newsId},
           tombs := s.tombs + {c.comment})
      else
        var without := s.comments - {c.comment};
        s.(comments := if before.parent.Some? then BumpReplies(without, before.parent.value, -1) else without,
           counts := Bump(s.counts, c.newsId, -1))
  }

  function Step(s: Store, c: Call): Store {
    if c.Add? then AddComment(s, c) else DeleteComment(s, c)
  }

  function Run(s: Store, calls: seq<Call>): Store
    decreases |calls|
  {
    if calls == [] then s else Run(Step(s, calls[0]), calls[1..])
  }

  function Children(s: Store, id: nat): set<nat> {
    set c | c in s.comments && s.comments[c].parent == Some(id)
  }

  function Stored(s: Store, newsId: NewsId): set<nat> {
    set c | c in s.comments && s.comments[c].newsId == newsId
  }

  ghost predicate Linked(s: Store, c: nat)
    requires c in s.comments
  {
    s.comments[c].parent.Some? ==>
      var p := s.comments[c].parent.value;
      p in s.comments && p < c && s.comments[p].newsId == s.comments[c].newsId
  }

  /** Every reply count is the number of children, every parent exists, in the same article and older,
      and article count plus soft deletes is the number of stored comments. */
  ghost predicate Forest(s: Store) {
    && (forall c :: c in s.comments ==> c < s.next && Linked(s, c))
    && (forall c :: c in s.comments ==> s.comments[c].replyCount == |Children(s, c)|)
    && (forall n :: n in s.counts ==> s.counts[n] + s.soft[n] == |Stored(s, n)|)
  }

  lemma OneMore(a: set<nat>, b: set<nat>, x: nat)
    requires x !in a && b == a + {x}
    ensures |b| == |a| + 1
  {
  }

  lemma AfterAdding(s: Store, c: Call)
    requires c.Add? && Forest(s) && AddError(s, c).None?
    ensures var t := AddComment(s, c);
            && s.next !in s.comments
            && t.comments.Keys == s.comments.Keys + {s.next}
            && t.comments[s.next].newsId == c.newsId && t.comments[s.next].parent == c.parent
            && t.comments[s.next].replyCount == 0
            && (forall id :: id in s.comments ==> t.comments[id].newsId == s.comments[id].newsId && t.comments[id].parent == s.comments[id].parent)
            && (forall id :: id in s.comments ==>
                 t.comments[id].replyCount == s.comments[id].replyCount + (if c.parent == Some(id) then 1 else 0))
  {
  }

  lemma StoredAfterAdd(s: Store, t: Store, c: Call, n: NewsId)
    requires c.Add? && Forest(s) && AddError(s, c).None? && t == AddComment(s, c)
    ensures |Stored(t, n)| == |Stored(s, n)| + (if n == c.newsId then 1 else 0)
  {
    hide AddComment, Forest, AddError, Stored;
    AfterAdding(s, c);
    StoredGrows(s, t, s.next, n);
  }

  lemma StoredGrows(s: Store, t: Store, x: nat, n: NewsId)
    requires x !in s.comments && t.comments.Keys == s.comments.Keys + {x}
    requires forall id :: id in s.comments ==> t.comments[id].newsId == s.comments[id].newsId
    ensures |Stored(t, n)| == |Stored(s, n)| + (if n == t.comments[x].newsId then 1 else 0)
  {
    if n == t.comments[x].newsId {
      assert Stored(t, n) == Stored(s, n) + {x};
    } else {
      assert Stored(t, n) == Stored(s, n);
    }
  }

  lemma NoChildrenYet(s: Store, id: nat)
    requires Forest(s) && id == s.next
    ensures Children(s, id) == {}
  {
    forall x | x in s.comments ensures s.comments[x].parent != Some(id) {
      assert Linked(s, x);
    }
  }

  lemma ChildrenAfterAdd(s: Store, t: Store, c: Call, id: nat)
    requires c.Add? && Forest(s) && AddError(s, c).None? && t == AddComment(s, c) && id in t.comments
    ensures |Children(t, id)| == t.comments[id].replyCount
  {
    AfterAdding(s, c);
    if id == s.next { NoChildrenYet(s, id); } else { assert s.comments[id].replyCount == |Children(s, id)|; }
    hide AddComment, Forest, AddError;
    if id != s.next && c.parent == Some(id) {
      assert Children(t, id) == Children(s, id) + {s.next};
      OneMore(Children(s, id), Children(t, id), s.next);
    } else {
      assert Children(t, id) == Children(s, id);
    }
  }

  lemma AddKeepsForest(s: Store, c: Call)
    requires c.Add? && Forest(s)
    ensures Forest(AddComment(s, c))
  {
    if AddError(s, c).None? {
      var t := AddComment(s, c);
      forall id | id in t.comments ensures id < t.next && Linked(t, id) && t.comments[id].replyCount == |Children(t, id)| {
        assert id in s.comments ==> Linked(s, id);
        ChildrenAfterAdd(s, t, c, id);
      }
      forall n | n in t.counts ensures t.counts[n] + t.soft[n] == |Stored(t, n)| {
        StoredAfterAdd(s, t, c, n);
      }
    }
  }

  lemma SoftDeleteKeepsForest(s: Store, c: Call)
    requires c.Delete? && Forest(s) && DeleteError(s, c).None? && s.comments[c.comment].replyCount > 0
    ensures Forest(DeleteComment(s, c))
  {
    var t := DeleteComment(s, c);
    forall id | id in t.comments ensures id < t.next && Linked(t, id) && t.comments[id].replyCount == |Children(t, id)| {
      assert Linked(s, id);
      assert Children(t, id) == Children(s, id);
    }
    forall n | n in t.counts ensures t.counts[n] + t.soft[n] == |Stored(t, n)| {
      assert Stored(t, n) == Stored(s, n);
    }
  }

  /** The comment of this call goes for good. */
  ghost predicate Goes(s: Store, c: Call) {
    c.Delete? && DeleteError(s, c).None? && s.comments[c.comment].replyCount <= 0
  }

  /** A comment without replies is nobody's parent. */
  lemma GoesChildless(s: Store, c: Call, id: nat)
    requires Forest(s) && Goes(s, c) && id in s.comments
    ensures s.comments[id].parent != Some(c.comment)
  {
    assert Children(s, c.comment) == {};
    assert id !in Children(s, c.comment);
  }

  lemma AfterGoing(s: Store, c: Call)
    requires Forest(s) && Goes(s, c)
    ensures var t := DeleteComment(s, c);
            && t.comments.Keys == s.comments.Keys - {c.comment}
            && (forall id :: id in t.comments ==> t.comments[id].parent == s.comments[id].parent && t.comments[id].newsId == s.comments[id].newsId)
            && (forall id :: id in t.comments ==>
                 t.comments[id].replyCount == s.comments[id].replyCount - (if s.comments[c.comment].parent == Some(id) then 1 else 0))
  {
  }

  lemma ChildrenAfterDelete(s: Store, t: Store, c: Call, id: nat)
    requires Forest(s) && Goes(s, c) && t == DeleteComment(s, c) && id in t.comments
    ensures |Children(t, id)| == t.comments[id].replyCount
  {
    AfterGoing(s, c);
    assert s.comments[id].replyCount == |Children(s, id)|;
    hide DeleteComment, Forest;
    if s.comments[c.comment].parent == Some(id) {
      assert c.comment in Children(s, id);
      assert Children(t, id) == Children(s, id) - {c.comment};
    } else {
      assert c.comment !in Children(s, id);
      assert Children(t, id) == Children(s, id);
    }
  }

  lemma StoredAfterDelete(s: Store, t: Store, c: Call, n: NewsId)
    requires Forest(s) && Goes(s, c) && t == DeleteComment(s, c)
    ensures |Stored(t, n)| == |Stored(s, n)| - (if n == c.newsId then 1 else 0)
  {
    hide DeleteComment, Forest;
    AfterGoing(s, c);
    if n == c.newsId {
      assert c.comment in Stored(s, n);
      assert Stored(t, n) == Stored(s, n) - {c.comment};
    } else {
      assert Stored(t, n) == Stored(s, n);
    }
  }

  /** Nothing is left dangling when it goes. */
  lemma HardDeleteKeepsForest(s: Store, c: Call)
    requires Forest(s) && Goes(s, c)
    ensures Forest(DeleteComment(s, c))
  {
    var t := DeleteComment(s, c);
    AfterGoing(s, c);
    forall id | id in t.comments ensures id < t.next && Linked(t, id) && t.comments[id].replyCount == |Children(t, id)| {
      assert Linked(s, id);
      GoesChildless(s, c, id);
      ChildrenAfterDelete(s, t, c, id);
    }
    forall n | n in t.counts ensures t.counts[n] + t.soft[n] == |Stored(t, n)| {
      StoredAfterDelete(s, t, c, n);
    }
  }

  lemma StepKeepsForest(s: Store, c: Call)
    requires Forest(s)
    ensures Forest(Step(s, c))
  {
    if c.Add? {
      AddKeepsForest(s, c);
    } else if DeleteError(s, c).None? {
      if s.comments[c.comment].replyCount > 0 { SoftDeleteKeepsForest(s, c); } else { HardDeleteKeepsForest(s, c); }
    }
  }

  lemma {:induction false} EveryRunKeepsForest(s: Store, calls: seq<Call>)
    requires Forest(s)
    ensures Forest(Run(s, calls))
    decreases |calls|
  {
    if calls != [] {
      StepKeepsForest(s, calls[0]);
      EveryRunKeepsForest(Step(s, calls[0]), calls[1..]);
    }
  }

  function EmptyStore(counts: map<NewsId, int>): Store {
    Store(map[], counts, 0, multiset{}, {})
  }

  /** Before the first comment everything is in order. */
  lemma EmptyIsForest(counts: map<NewsId, int>)
    requires forall n :: n in counts ==> counts[n] == 0
    ensures Forest(EmptyStore(counts)) && TombsAreOld(EmptyStore(counts))
    ensures forall n :: n in counts ==> counts[n] == |Live(EmptyStore(counts), n)|
  {
    assert forall n :: Stored(EmptyStore(counts), n) == {};
  }

  // ---- The counter and the comments that still show their body ----

  /** The comments of an article nobody has deleted. */
  function Live(s: Store, newsId: NewsId): set<nat> {
    Stored(s, newsId) - s.tombs
  }

  ghost predicate TombsAreOld(s: Store) {
    forall id :: id in s.tombs ==> id < s.next
  }

  /** The call deletes, in the article, a comment that an earlier call has blanked. */
  predicate IsRepeat(s: Store, c: Call, n: NewsId) {
    c.Delete? && c.newsId == n && DeleteError(s, c).None? && c.comment in s.tombs
  }

  function Repeats(s: Store, calls: seq<Call>, n: NewsId): nat
    decreases |calls|
  {
    if calls == [] then 0
    else (if IsRepeat(s, calls[0], n) then 1 else 0) + Repeats(Step(s, calls[0]), calls[1..], n)
  }

  predicate AnyRepeat(s: Store, calls: seq<Call>, n: NewsId)
    decreases |calls|
  {
    calls != [] && (IsRepeat(s, calls[0], n) || AnyRepeat(Step(s, calls[0]), calls[1..], n))
  }

  lemma OneLess(a: set<nat>, b: set<nat>, x: nat)
    requires x in a && b == a - {x}
    ensures |b| == |a| - 1
  {
  }

  lemma LiveGrows(s: Store, t: Store, x: nat, n: NewsId)
    requires x !in s.comments && t.comments.Keys == s.comments.Keys + {x} && x !in s.tombs && t.tombs == s.tombs
    requires forall id :: id in s.comments ==> t.comments[id].newsId == s.comments[id].newsId
    ensures Live(t, n) == Live(s, n) + (if n == t.comments[x].newsId then {x} else {})
  {
    hide Stored;
    forall id ensures id in Stored(t, n) <==> id in Stored(s, n) || (id == x && n == t.comments[x].newsId) {
      StoredIff(s, n, id);
      StoredIff(t, n, id);
    }
  }

  lemma StoredIff(s: Store, n: NewsId, id: nat)
    ensures id in Stored(s, n) <==> id in s.comments && s.comments[id].newsId == n
  {
  }

  lemma LiveAfterAdd(s: Store, c: Call, n: NewsId)
    requires c.Add? && Forest(s) && TombsAreOld(s) && AddError(s, c).None?
    ensures var t := AddComment(s, c);
            TombsAreOld(t) && |Live(t, n)| == |Live(s, n)| + (if n == c.newsId then 1 else 0)
  {
    AfterAdding(s, c);
    var t := AddComment(s, c);
    assert t.tombs == s.tombs && t.next == s.next + 1 && s.next !in s.tombs;
    hide AddComment, Forest, AddError;
    LiveGrows(s, t, s.next, n);
    StoredIff(s, n, s.next);
    hide Stored;
    assert s.next !in Live(s, n);
    hide Live;
  }

  /** Either branch takes the comment out of the live ones, if it was one. */
  lemma LiveAfterDelete(s: Store, c: Call, n: NewsId)
    requires c.Delete? && Forest(s) && TombsAreOld(s) && DeleteError(s, c).None?
    ensures var t := DeleteComment(s, c);
            TombsAreOld(t) && Live(t, n) == Live(s, n) - {c.comment}
  {
    if s.comments[c.comment].replyCount <= 0 { AfterGoing(s, c); }
  }

  lemma AddLag(s: Store, c: Call, n: NewsId)
    requires c.Add? && Forest(s) && TombsAreOld(s) && n in s.counts
    ensures var t := AddComment(s, c);
            TombsAreOld(t) && n in t.counts && t.counts[n] - |Live(t, n)| == s.counts[n] - |Live(s, n)|
  {
    hide Live, TombsAreOld;
    if AddError(s, c).None? { LiveAfterAdd(s, c, n); }
    hide Forest, AddError, BumpReplies;
  }

  lemma LiveIff(s: Store, c: Call, n: NewsId)
    requires c.Delete? && DeleteError(s, c).None?
    ensures c.comment in Live(s, n) <==> c.newsId == n && c.comment !in s.tombs
  {
    StoredIff(s, n, c.comment);
    hide Stored;
  }

  lemma DeleteLag(s: Store, c: Call, n: NewsId)
    requires c.Delete? && Forest(s) && TombsAreOld(s) && n in s.counts
    ensures var t := DeleteComment(s, c);
            && TombsAreOld(t) && n in t.counts
            && t.counts[n] - |Live(t, n)| == s.counts[n] - |Live(s, n)| - (if IsRepeat(s, c, n) then 1 else 0)
  {
    hide TombsAreOld, Forest;
    if DeleteError(s, c).None? {
      LiveAfterDelete(s, c, n);
      LiveIff(s, c, n);
      assert DeleteComment(s, c).counts == Bump(s.counts, c.newsId, -1);
      hide Live, DeleteComment, DeleteError;
      if c.comment in Live(s, n) { OneLess(Live(s, n), Live(s, n) - {c.comment}, c.comment); }
      else { assert Live(s, n) - {c.comment} == Live(s, n); }
    }
  }

  lemma StepLag(s: Store, c: Call, n: NewsId)
    requires Forest(s) && TombsAreOld(s) && n in s.counts
    ensures var t := Step(s, c);
            && Forest(t) && TombsAreOld(t) && n in t.counts
            && t.counts[n] - |Live(t, n)| == s.counts[n] - |Live(s, n)| - (if IsRepeat(s, c, n) then 1 else 0)
  {
    StepKeepsForest(s, c);
    if c.Add? { AddLag(s, c, n); } else { DeleteLag(s, c, n); }
    hide Forest, TombsAreOld, Live, AddComment, DeleteComment;
  }

  /** Over every run the counter falls behind the live comments by one for each repeated delete. */
  lemma {:induction false} CounterLagsRepeats(s: Store, calls: seq<Call>, n: NewsId)
    requires Forest(s) && TombsAreOld(s) && n in s.counts
    ensures var t := Run(s, calls);
            n in t.counts && t.counts[n] - |Live(t, n)| == s.counts[n] - |Live(s, n)| - Repeats(s, calls, n)
    decreases |calls|
  {
    if calls != [] {
      StepLag(s, calls[0], n);
      CounterLagsRepeats(Step(s, calls[0]), calls[1..], n);
    }
  }

  lemma {:induction false} NoRepeats(s: Store, calls: seq<Call>, n: NewsId)
    ensures Repeats(s, calls, n) == 0 <==> !AnyRepeat(s, calls, n)
    decreases |calls|
  {
    if calls != [] { NoRepeats(Step(s, calls[0]), calls[1..], n); }
  }

  /** From a right counter, a run leaves it the number of comments that still show their body if and only
      if no call of the run deletes a comment that is already blanked. */
  lemma CounterIsLiveIff(s: Store, calls: seq<Call>, n: NewsId)
    requires Forest(s) && TombsAreOld(s) && n in s.counts && s.counts[n] == |Live(s, n)|
    ensures var t := Run(s, calls);
            n in t.counts && (t.counts[n] == |Live(t, n)| <==> !AnyRepeat(s, calls, n))
  {
    CounterLagsRepeats(s, calls, n);
    NoRepeats(s, calls, n);
  }

  /** A parent whose only reply goes after it was blanked is then deleted for good: three off the counter
      for two comments. */
  lemma BlankedParentMiscounts(s: Store, n: NewsId, parent: Call, reply: Call)
    requires Forest(s) && TombsAreOld(s) && n in s.counts
    requires parent.Delete? && reply.Delete? && parent.newsId == reply.newsId == n
    requires DeleteError(s, parent).None? && DeleteError(s, reply).None?
    requires s.comments[reply.comment].parent == Some(parent.comment) && s.comments[reply.comment].replyCount == 0
    requires s.comments[parent.comment].replyCount == 1 && {parent.comment, reply.comment} !! s.tombs
    ensures var t := Run(s, [parent, reply, parent]);
            && parent.comment !in t.comments && reply.comment !in t.comments && n in t.counts
            && t.counts[n] == s.counts[n] - 3 && |Live(t, n)| == |Live(s, n)| - 2
  {
    ThreeDeletes(s, n, parent, reply);
    StoredIff(s, n, parent.comment);
    StoredIff(s, n, reply.comment);
    assert parent.comment in Live(s, n) && reply.comment in Live(s, n);
    RunOfThree(s, parent, reply);
    var v := Step(Step(Step(s, parent), reply), parent);
    hide Forest, TombsAreOld, Live, Stored, Step, DeleteError;
    LiveOfThree(s, n, parent, reply);
    hide *;
    OneLess(Live(s, n), Live(s, n) - {parent.comment}, parent.comment);
    OneLess(Live(s, n) - {parent.comment}, Live(v, n), reply.comment);
  }

  lemma LiveOfThree(s: Store, n: NewsId, parent: Call, reply: Call)
    requires Forest(s) && TombsAreOld(s) && parent.Delete? && reply.Delete?
    requires var t := Step(s, parent);
             DeleteError(s, parent).None? && DeleteError(t, reply).None? && DeleteError(Step(t, reply), parent).None?
    ensures Live(Step(Step(Step(s, parent), reply), parent), n) == Live(s, n) - {parent.comment} - {reply.comment}
  {
    var t := Step(s, parent);
    StepKeepsForest(s, parent);
    StepKeepsForest(t, reply);
    hide Forest, TombsAreOld, Live, DeleteError, DeleteComment;
    LiveAfterDelete(s, parent, n);
    LiveAfterDelete(t, reply, n);
    LiveAfterDelete(Step(t, reply), parent, n);
  }

  lemma RunOfThree(s: Store, c: Call, d: Call)
    ensures Run(s, [c, d, c]) == Step(Step(Step(s, c), d), c)
  {
    hide Step;
    assert [c, d, c][1..] == [d, c] && [d, c][1..] == [c] && [c][1..] == [];
    assert forall x :: Run(x, [c]) == Step(x, c);
    assert forall x :: Run(x, [d, c]) == Step(Step(x, d), c);
  }

  lemma ThreeDeletes(s: Store, n: NewsId, parent: Call, reply: Call)
    requires Forest(s) && n in s.counts
    requires parent.Delete? && reply.Delete? && parent.newsId == reply.newsId == n
    requires DeleteError(s, parent).None? && DeleteError(s, reply).None?
    requires s.comments[reply.comment].parent == Some(parent.comment) && s.comments[reply.comment].replyCount == 0
    requires s.comments[parent.comment].replyCount == 1
    ensures var t := Step(s, parent);
            var u := Step(t, reply);
            var v := Step(u, parent);
            && parent.comment != reply.comment && DeleteError(t, reply).None? && DeleteError(u, parent).None?
            && parent.comment !in v.comments && reply.comment !in v.comments
            && n in v.counts && v.counts[n] == s.counts[n] - 3
  {
    assert Linked(s, reply.comment);
    hide Forest;
    Blanks(s, parent);
    var t := Step(s, parent);
    hide Step;
    assert t.comments[reply.comment] == s.comments[reply.comment];
    Erases(t, reply);
    var u := Step(t, reply);
    assert u.comments[parent.comment] == t.comments[parent.comment].(replyCount := 0);
    Erases(u, parent);
  }

  lemma Blanks(s: Store, c: Call)
    requires c.Delete? && DeleteError(s, c).None? && s.comments[c.comment].replyCount > 0 && c.newsId in s.counts
    ensures var t := Step(s, c);
            && t.comments == s.comments[c.comment := s.comments[c.comment].(body := "[deleted]")]
            && t.counts == s.counts[c.newsId := s.counts[c.newsId] - 1]
  {
  }

  lemma Erases(s: Store, c: Call)
    requires c.Delete? && DeleteError(s, c).None? && s.comments[c.comment].replyCount <= 0 && c.newsId in s.counts
    ensures var t, before := Step(s, c), s.comments[c.comment];
            && t.comments.Keys == s.comments.Keys - {c.comment}
            && (before.parent.Some? && before.parent.value in t.comments ==>
                  var p := before.parent.value;
                  t.comments[p] == s.comments[p].(replyCount := s.comments[p].replyCount - 1))
            && t.counts == s.counts[c.newsId := s.counts[c.newsId] - 1]
  {
  }

  /** Deleting a replied-to comment a second time takes one more off the counter. */
  lemma SecondSoftDeleteMiscounts(s: Store, c: Call)
    requires c.Delete? && Forest(s) && DeleteError(s, c).None? && s.comments[c.comment].replyCount > 0 && c.newsId in s.counts
    ensures var t := DeleteComment(DeleteComment(s, c), c);
            t.counts[c.newsId] == s.counts[c.newsId] - 2 && Stored(t, c.newsId) == Stored(s, c.newsId)
  {
  }

  // ---- The service ----

  class CommentService {
    var comments: map<nat, Comment>
    var counts: map<NewsId, int>
    var next: nat
    ghost var soft: multiset<NewsId>
    ghost var tombs: set<nat>

    ghost function View(): Store
      reads this
    {
      Store(comments, counts, next, soft, tombs)
    }

    constructor (counts: map<NewsId, int>)
      ensures View() == EmptyStore(counts)
    {
      this.comments, this.counts, this.next, this.soft, this.tombs := map[], counts, 0, multiset{}, {};
    }

    method IncrementReplyCount(id: nat, amount: int)
      modifies this`comments
      ensures comments == BumpReplies(old(comments), id, amount)
    {
      if id in comments {
        comments := comments[id := comments[id].(replyCount := comments[id].replyCount + amount)];
      }
    }

    method AddComment(newsId: NewsId, userId: UserId, userKnown: bool, body: string, parent: Option<nat>) returns (r: Reply)
      modifies this
      ensures var c := Add(newsId, userId, userKnown, body, parent);
              && View() == Step(old(View()), c)
              && (AddError(old(View()), c).Some? <==> r.Refused?)
              && (r.Refused? ==> r.error == AddError(old(View()), c).value)
              && (r.Count? ==> r.count == if newsId in counts then counts[newsId] else 0)
    {
      if body == "" { return Refused(BodyRequired); }
      if |body| > 500 { return Refused(BodyTooLong); }
      if !userKnown { return Refused(UserNotFound); }
      if parent.Some? {
        if parent.value !in comments || comments[parent.value].newsId != newsId { return Refused(ParentNotFound); }
      }
      comments, next := comments[next := Comment(newsId, userId, body, parent, 0)], next + 1;
      counts := Bump(counts, newsId, 1);
      if parent.Some? { IncrementReplyCount(parent.value, 1); }
      r := Count(if newsId in counts then counts[newsId] else 0);
    }

    method DeleteComment(newsId: NewsId, id: nat, userId: UserId) returns (r: Reply)
      modifies this
      ensures var c := Delete(newsId, id, userId);
              && View() == Step(old(View()), c)
              && (DeleteError(old(View()), c).Some? <==> r.Refused?)
              && (r.Refused? ==> r.error == DeleteError(old(View()), c).value)
              && (r.Count? ==> r.count == if newsId in counts && counts[newsId] > 0 then counts[newsId] else 0)
    {
      if id !in comments { return Refused(CommentNotFound); }
      var comment := comments[id];
      if comment.userId != userId { return Refused(NotAuthorized); }
      if comment.newsId != newsId { return Refused(WrongArticle); }
      if comment.replyCount > 0 {
        comments := comments[id := comment.(body := "[deleted]")];
        soft, tombs := soft + multiset{newsId}, tombs + {id};
      } else {
        comments := comments - {id};
        if comment.parent.Some? { IncrementReplyCount(comment.parent.value, -1); }
      }
      counts := Bump(counts, newsId, -1);
      r := Count(if newsId in counts && counts[newsId] > 0 then counts[newsId] else 0);
    }
  }
}
