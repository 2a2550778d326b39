/** News boards and the save counter of an article, over serial calls. */
module BoardSaves {
  datatype Board = Board(userId: string, newsIds: set<string>)

  /** `phantom` records the article of every unsave by a user who did not hold it. */
  datatype Store = Store(boards: map<nat, Board>, saves: map<string, int>, phantom: multiset<string>)

  datatype Call =
    | CreateBoard(board: nat, userId: string)
    | Save(userId: string, board: nat, newsId: string)
    | Unsave(userId: string, board: nat, newsId: string)

  predicate Owns(s: Store, userId: string, board: nat) {
    board in s.boards && s.boards[board].userId == userId
  }

  predicate HeldOn(s: Store, userId: string, newsId: string, board: nat) {
    Owns(s, userId, board) && newsId in s.boards[board].newsIds
  }

  /** `existsWithNewsInOtherBoards` */
  ghost predicate HeldElsewhere(s: Store, userId: string, newsId: string, except: set<nat>) {
    exists b :: b in s.boards && b !in except && HeldOn(s, userId, newsId, b)
  }

  ghost predicate Holds(s: Store, userId: string, newsId: string) {
    HeldElsewhere(s, userId, newsId, {})
  }

  function Bump(saves: map<string, int>, newsId: string, amount: int): map<string, int> {
    if newsId in saves then saves[newsId := saves[newsId] + amount] else saves
  }

  ghost function Step(s: Store, c: Call): Store {
    match c
    case CreateBoard(b, user) => if b in s.boards then s else s.(boards := s.boards[b := Board(user, {})])
    case Save(user, b, n) =>
      if !Owns(s, user, b) then s
      else
        var first := !HeldElsewhere(s, user, n, {b}) && n !in s.boards[b].newsIds;
        s.(saves := if first then Bump(s.saves, n, 1) else s.saves,
           boards := s.boards[b := s.boards[b].(newsIds := s.boards[b].newsIds + {n})])
    case Unsave(user, b, n) =>
      if !Owns(s, user, b) then s
      else
        var t := s.(boards := s.boards[b := s.boards[b].(newsIds := s.boards[b].newsIds - {n})]);
        if Holds(t, user, n) then t
        else t.(saves := Bump(s.saves, n, -1), phantom := if Holds(s, user, n) then s.phantom else s.phantom + multiset{n})
  }

  ghost function Run(s: Store, calls: seq<Call>): Store
    decreases |calls|
  {
    if calls == [] then s else Run(Step(s, calls[0]), calls[1..])
  }

  /** The users who hold an article on some board. */
  ghost function Holders(s: Store, newsId: string): set<string> {
    set b | b in s.boards && newsId in s.boards[b].newsIds :: s.boards[b].userId
  }

  lemma HolderIff(s: Store, userId: string, newsId: string)
    ensures userId in Holders(s, newsId) <==> Holds(s, userId, newsId)
  {
    if userId in Holders(s, newsId) {
      var b :| b in s.boards && newsId in s.boards[b].newsIds && s.boards[b].userId == userId;
      assert HeldOn(s, userId, newsId, b);
    }
  }

  /** Saves plus phantom unsaves is the number of distinct holders. */
  ghost predicate Counted(s: Store) {
    forall n :: n in s.saves ==> s.saves[n] + s.phantom[n] == |Holders(s, n)|
  }

  /** Only the caller's holding of the article can change. */
  lemma OthersHoldTheSame(s: Store, t: Store, b: nat, user: string, newsId: string, other: string, n: string)
    requires Owns(s, user, b) && t.boards.Keys == s.boards.Keys
    requires forall x :: x in s.boards && x != b ==> t.boards[x] == s.boards[x]
    requires t.boards[b].userId == user
    requires forall m :: m != newsId ==> (m in t.boards[b].newsIds <==> m in s.boards[b].newsIds)
    requires other != user || n != newsId
    ensures other in Holders(t, n) <==> other in Holders(s, n)
  {
    if other in Holders(t, n) {
      var x :| x in t.boards && n in t.boards[x].newsIds && t.boards[x].userId == other;
      assert x in s.boards && n in s.boards[x].newsIds && s.boards[x].userId == other;
    }
    if other in Holders(s, n) {
      var x :| x in s.boards && n in s.boards[x].newsIds && s.boards[x].userId == other;
      assert x in t.boards && n in t.boards[x].newsIds && t.boards[x].userId == other;
    }
  }

  /** Only the board's entry for `newsId` may have changed. */
  ghost predicate OneEntry(s: Store, t: Store, b: nat, user: string, newsId: string) {
    && Owns(s, user, b) && t.boards.Keys == s.boards.Keys
    && (forall x :: x in s.boards && x != b ==> t.boards[x] == s.boards[x])
    && t.boards[b].userId == user
    && (forall m :: m != newsId ==> (m in t.boards[b].newsIds <==> m in s.boards[b].newsIds))
  }

  lemma OtherArticlesHeldTheSame(s: Store, t: Store, b: nat, user: string, newsId: string, n: string)
    requires OneEntry(s, t, b, user, newsId) && n != newsId
    ensures Holders(t, n) == Holders(s, n)
  {
    forall other ensures other in Holders(t, n) <==> other in Holders(s, n) {
      OthersHoldTheSame(s, t, b, user, newsId, other, n);
    }
  }

  /** The holders of the article change by its caller alone. */
  lemma HoldersChange(s: Store, t: Store, b: nat, user: string, newsId: string)
    requires OneEntry(s, t, b, user, newsId)
    ensures |Holders(t, newsId)| - |Holders(s, newsId)| ==
            (if Holds(t, user, newsId) then 1 else 0) - (if Holds(s, user, newsId) then 1 else 0)
  {
    hide Holders, Holds;
    forall other | other != user ensures other in Holders(t, newsId) <==> other in Holders(s, newsId) {
      OthersHoldTheSame(s, t, b, user, newsId, other, newsId);
    }
    HolderIff(s, user, newsId);
    HolderIff(t, user, newsId);
    Without(Holders(s, newsId), user);
    Without(Holders(t, newsId), user);
    assert Holders(t, newsId) - {user} == Holders(s, newsId) - {user};
  }

  lemma Without(users: set<string>, user: string)
    ensures |users| == |users - {user}| + (if user in users then 1 else 0)
  {
    if user !in users { assert users - {user} == users; }
  }

  lemma SaveHolds(s: Store, c: Call)
    requires c.Save? && Owns(s, c.userId, c.board)
    ensures Holds(Step(s, c), c.userId, c.newsId)
    ensures Holds(s, c.userId, c.newsId) <==> HeldElsewhere(s, c.userId, c.newsId, {c.board}) || c.newsId in s.boards[c.board].newsIds
  {
    assert HeldOn(Step(s, c), c.userId, c.newsId, c.board);
    if Holds(s, c.userId, c.newsId) {
      var b :| b in s.boards && HeldOn(s, c.userId, c.newsId, b);
      assert b != c.board ==> HeldElsewhere(s, c.userId, c.newsId, {c.board});
    }
    assert c.newsId in s.boards[c.board].newsIds ==> HeldOn(s, c.userId, c.newsId, c.board);
  }

  lemma UnsaveShrinks(s: Store, c: Call)
    requires c.Unsave? && Owns(s, c.userId, c.board)
    ensures Holds(Step(s, c), c.userId, c.newsId) ==> Holds(s, c.userId, c.newsId)
  {
    var t := Step(s, c);
    if Holds(t, c.userId, c.newsId) {
      var b :| b in t.boards && HeldOn(t, c.userId, c.newsId, b);
      assert HeldOn(s, c.userId, c.newsId, b);
    }
  }

  lemma CreateKeepsCounted(s: Store, c: Call)
    requires Counted(s) && c.CreateBoard?
    ensures Counted(Step(s, c))
  {
    forall n { CreatedEmpty(s, c, n); }
  }

  lemma SaveKeepsCounted(s: Store, c: Call)
    requires Counted(s) && c.Save? && Owns(s, c.userId, c.board)
    ensures Counted(Step(s, c))
  {
    var t := Step(s, c);
    SaveHolds(s, c);
    HoldersChange(s, t, c.board, c.userId, c.newsId);
    forall n | n != c.newsId { OtherArticlesHeldTheSame(s, t, c.board, c.userId, c.newsId, n); }
  }

  lemma UnsaveKeepsCounted(s: Store, c: Call)
    requires Counted(s) && c.Unsave? && Owns(s, c.userId, c.board)
    ensures Counted(Step(s, c))
  {
    var t := Step(s, c);
    UnsaveShrinks(s, c);
    SameBoards(t, t.(saves := s.saves, phantom := s.phantom), c.userId, c.newsId);
    HoldersChange(s, t, c.board, c.userId, c.newsId);
    forall n | n != c.newsId { OtherArticlesHeldTheSame(s, t, c.board, c.userId, c.newsId, n); }
  }

  lemma StepKeepsCounted(s: Store, c: Call)
    requires Counted(s)
    ensures Counted(Step(s, c))
  {
    if c.CreateBoard? {
      CreateKeepsCounted(s, c);
    } else if Owns(s, c.userId, c.board) {
      if c.Save? { SaveKeepsCounted(s, c); } else { UnsaveKeepsCounted(s, c); }
    }
  }

  lemma SameBoards(s: Store, t: Store, userId: string, newsId: string)
    requires s.boards == t.boards
    ensures Holds(s, userId, newsId) <==> Holds(t, userId, newsId)
  {
    HolderIff(s, userId, newsId);
    HolderIff(t, userId, newsId);
    assert Holders(s, newsId) == Holders(t, newsId);
  }

  lemma CreatedEmpty(s: Store, c: Call, n: string)
    requires c.CreateBoard?
    ensures Holders(Step(s, c), n) == Holders(s, n)
  {
    var t := Step(s, c);
    forall u | u in Holders(s, n) ensures u in Holders(t, n) {
      var b :| b in s.boards && n in s.boards[b].newsIds && s.boards[b].userId == u;
      assert b in t.boards && t.boards[b] == s.boards[b];
    }
  }

  lemma {:induction false} EveryRunCounts(s: Store, calls: seq<Call>)
    requires Counted(s)
    ensures Counted(Run(s, calls))
    decreases |calls|
  {
    if calls != [] {
      StepKeepsCounted(s, calls[0]);
      EveryRunCounts(Step(s, calls[0]), calls[1..]);
    }
  }

  /** Before the first board every counter is right. */
  lemma NoBoardsCounted(saves: map<string, int>)
    requires forall n :: n in saves ==> saves[n] == 0
    ensures Counted(Store(map[], saves, multiset{}))
  {
    assert forall n :: Holders(Store(map[], saves, multiset{}), n) == {};
  }

  /** A call is phantom when it unsaves what its user does not hold. */
  ghost predicate IsPhantom(s: Store, c: Call, n: string) {
    c.Unsave? && c.newsId == n && Owns(s, c.userId, c.board) && !Holds(s, c.userId, n)
  }

  ghost predicate AnyPhantom(s: Store, calls: seq<Call>, n: string)
    decreases |calls|
  {
    calls != [] && (IsPhantom(s, calls[0], n) || AnyPhantom(Step(s, calls[0]), calls[1..], n))
  }

  lemma PhantomGrows(s: Store, c: Call, n: string)
    ensures Step(s, c).phantom[n] == s.phantom[n] + (if IsPhantom(s, c, n) then 1 else 0)
  {
    if c.Unsave? && Owns(s, c.userId, c.board) {
      UnsaveShrinks(s, c);
      var t := s.(boards := s.boards[c.board := s.boards[c.board].(newsIds := s.boards[c.board].newsIds - {c.newsId})]);
      SameBoards(t, Step(s, c), c.userId, c.newsId);
    }
  }

  lemma {:induction false} PhantomsCounted(s: Store, calls: seq<Call>, n: string)
    ensures Run(s, calls).phantom[n] >= s.phantom[n]
    ensures Run(s, calls).phantom[n] == s.phantom[n] <==> !AnyPhantom(s, calls, n)
    decreases |calls|
  {
    if calls != [] {
      PhantomGrows(s, calls[0], n);
      PhantomsCounted(Step(s, calls[0]), calls[1..], n);
    }
  }

  /** From a correct counter, a run leaves it equal to the number of holders exactly when no call in it
      unsaved an article its user did not hold. */
  lemma CounterIsHoldersIff(s: Store, calls: seq<Call>, n: string)
    requires Counted(s) && s.phantom[n] == 0 && n in s.saves && n in Run(s, calls).saves
    ensures Run(s, calls).saves[n] == |Holders(Run(s, calls), n)| <==> !AnyPhantom(s, calls, n)
  {
    EveryRunCounts(s, calls);
    PhantomsCounted(s, calls, n);
  }

  // ---- The service ----

  class NewsBoardService {
    var boards: map<nat, Board>
    var saves: map<string, int>
    ghost var phantom: multiset<string>

    ghost function View(): Store
      reads this
    {
      Store(boards, saves, phantom)
    }

    constructor (saves: map<string, int>)
      ensures View() == Store(map[], saves, multiset{})
    {
      this.boards, this.saves, this.phantom := map[], saves, multiset{};
    }

    method ExistsWithNews(userId: string, newsId: string, except: set<nat>) returns (found: bool)
      ensures found <==> HeldElsewhere(View(), userId, newsId, except)
    {
      var rest := boards.Keys - except;
      while rest != {}
        invariant rest <= boards.Keys - except
        invariant forall b :: b in boards && b !in except && b !in rest ==> !HeldOn(View(), userId, newsId, b)
        decreases |rest|
      {
        var b :| b in rest;
        if boards[b].userId == userId && newsId in boards[b].newsIds {
          assert HeldOn(View(), userId, newsId, b);
          return true;
        }
        rest := rest - {b};
      }
      found := false;
    }

    method SaveItem(userId: string, board: nat, newsId: string) returns (ok: bool)
      modifies this
      ensures View() == Step(old(View()), Save(userId, board, newsId)) && ok == Owns(old(View()), userId, board)
    {
      if board !in boards || boards[board].userId != userId { return false; }
      var alreadySavedElsewhere := ExistsWithNews(userId, newsId, {board});
      var alreadyInThisBoard := newsId in boards[board].newsIds;
      if !alreadySavedElsewhere && !alreadyInThisBoard { saves := Bump(saves, newsId, 1); }
      boards := boards[board := boards[board].(newsIds := boards[board].newsIds + {newsId})];
      ok := true;
    }

    method UnsaveItem(userId: string, board: nat, newsId: string) returns (ok: bool)
      modifies this
      ensures View() == Step(old(View()), Unsave(userId, board, newsId)) && ok == Owns(old(View()), userId, board)
    {
      if board !in boards || boards[board].userId != userId { return false; }
      boards := boards[board := boards[board].(newsIds := boards[board].newsIds - {newsId})];
      var stillSavedElsewhere := ExistsWithNews(userId, newsId, {});
      if !stillSavedElsewhere {
        saves := Bump(saves, newsId, -1);
        phantom := if Holds(old(View()), userId, newsId) then phantom else phantom + multiset{newsId};
      }
      ok := true;
    }
  }
}
