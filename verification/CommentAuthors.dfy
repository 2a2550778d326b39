/** Who can change a comment, and what comments look like, over serial runs. */
module CommentAuthors {
  import opened Basics
  import opened CommentForest

  /** The author asks for the comment to be deleted, under its article. */
  predicate AuthorDeletes(s: Store, c: Call, id: nat) {
    c.Delete? && c.comment == id && id in s.comments
    && c.userId == s.comments[id].userId && c.newsId == s.comments[id].newsId
  }

  /** Author, article, text and parent stay; the reply count may change. */
  predicate Untouched(s: Store, t: Store, id: nat)
    requires id in s.comments
  {
    && id in t.comments
    && t.comments[id].userId == s.comments[id].userId && t.comments[id].newsId == s.comments[id].newsId
    && t.comments[id].body == s.comments[id].body && t.comments[id].parent == s.comments[id].parent
  }

  /** A delete takes effect, the text blanked or the comment gone, if and only if its author asks. */
  lemma DeleteNeedsAuthor(s: Store, c: Call, id: nat)
    requires Forest(s) && id in s.comments
    ensures AuthorDeletes(s, c, id) ==>
              var t := Step(s, c); id !in t.comments || t.comments[id].body == ['[', 'd', 'e', 'l', 'e', 't', 'e', 'd', ']']
    ensures !AuthorDeletes(s, c, id) ==> Untouched(s, Step(s, c), id)
  {
    assert c.Add? ==> id != s.next;
    hide Forest;
  }

  predicate NoAuthorDelete(s: Store, calls: seq<Call>, id: nat)
    requires id in s.comments
  {
    forall c :: c in calls ==> !AuthorDeletes(s, c, id)
  }

  /** Over every run a comment keeps author, article, text and parent unless its author deletes it. */
  lemma {:induction false} OnlyTheAuthor(s: Store, calls: seq<Call>, id: nat)
    requires Forest(s) && id in s.comments && NoAuthorDelete(s, calls, id)
    ensures Untouched(s, Run(s, calls), id)
    decreases |calls|
  {
    if calls != [] {
      var t := Step(s, calls[0]);
      assert calls[0] in calls;
      DeleteNeedsAuthor(s, calls[0], id);
      StepKeepsForest(s, calls[0]);
      hide Step, Forest;
      assert forall c :: AuthorDeletes(t, c, id) <==> AuthorDeletes(s, c, id);
      assert forall c :: c in calls[1..] ==> c in calls;
      OnlyTheAuthor(t, calls[1..], id);
    }
  }

  /** Every stored text has 1 to 500 characters, and a blanked comment shows only that it was deleted. */
  ghost predicate Presentable(s: Store) {
    && (forall id :: id in s.comments ==> 1 <= |s.comments[id].body| <= 500)
    && (forall id :: id in s.comments && id in s.tombs ==>
          s.comments[id].body == ['[', 'd', 'e', 'l', 'e', 't', 'e', 'd', ']'])
  }

  lemma StepPresentable(s: Store, c: Call)
    requires Forest(s) && TombsAreOld(s) && Presentable(s)
    ensures Presentable(Step(s, c)) && TombsAreOld(Step(s, c))
  {
    assert forall id :: id in s.comments ==> id < s.next;
    hide Forest;
  }

  lemma {:induction false} EveryRunPresentable(s: Store, calls: seq<Call>)
    requires Forest(s) && TombsAreOld(s) && Presentable(s)
    ensures Presentable(Run(s, calls))
    decreases |calls|
  {
    if calls != [] {
      StepPresentable(s, calls[0]);
      StepKeepsForest(s, calls[0]);
      EveryRunPresentable(Step(s, calls[0]), calls[1..]);
    }
  }

  /** A call that passes the checks stores exactly what was sent, under a new number, by a known user and
      as an answer to a comment of the same article if to any. */
  lemma StoredAsSent(s: Store, c: Call)
    requires Forest(s) && c.Add?
    ensures var t := Step(s, c);
            var ok := c.userKnown && 1 <= |c.body| <= 500
                      && (c.parent.Some? ==> c.parent.value in s.comments && s.comments[c.parent.value].newsId == c.newsId);
            && (!ok ==> t == s)
            && (ok ==> t.comments.Keys == s.comments.Keys + {s.next} && s.next !in s.comments
                       && t.comments[s.next] == Comment(c.newsId, c.userId, c.body, c.parent, 0))
  {
    assert s.next !in s.comments;
    hide Forest;
  }

  /** Why a call is refused: the checks in their order. */
  lemma WhyRefused(s: Store, c: Call)
    ensures c.Add? ==>
              var e, fits, parent := AddError(s, c), 1 <= |c.body| <= 500, c.parent;
              && (e == Some(BodyRequired) <==> |c.body| == 0)
              && (e == Some(BodyTooLong) <==> |c.body| > 500)
              && (e == Some(UserNotFound) <==> fits && !c.userKnown)
              && (e == Some(ParentNotFound) <==>
                    fits && c.userKnown && parent.Some?
                    && !(parent.value in s.comments && s.comments[parent.value].newsId == c.newsId))
    ensures c.Delete? ==>
              var e, known := DeleteError(s, c), c.comment in s.comments;
              && (e == Some(CommentNotFound) <==> !known)
              && (e == Some(NotAuthorized) <==> known && s.comments[c.comment].userId != c.userId)
              && (e == Some(WrongArticle) <==>
                    known && s.comments[c.comment].userId == c.userId && s.comments[c.comment].newsId != c.newsId)
              && (e == None <==> AuthorDeletes(s, c, c.comment))
  {
  }
}
