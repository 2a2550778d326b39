/** Keyset pagination of a user's notifications, newest first. */
module Pagination {
  import opened Basics

  datatype Status = Unread | Read

  /** Object identifiers are ordered; the model counts them. */
  datatype Row = Row(id: nat, userId: string, category: string, status: Status, userSeq: int, createdAt: int)
  datatype Cursor = Cursor(createdAt: int, id: nat)

  /** The cursor parameter as received: absent, not decodable, or one made by `encodeCursor`. */
  datatype RawCursor = Absent | Garbage | Encoded(cursor: Cursor)

  datatype Query = Query(userId: string, status: Option<Status>, category: Option<string>, sinceSeq: Option<int>)

  function Decode(raw: RawCursor): Option<Cursor> {
    if raw.Encoded? then Some(raw.cursor) else None
  }

  const DEFAULT_LIMIT := 20
  const MAX_LIMIT := 50

  function Limit(asked: Option<int>): (n: nat)
    ensures 1 <= n <= 50
    ensures asked.None? ==> n == 20
    ensures asked.Some? && 1 <= asked.value <= 50 ==> n == asked.value
    ensures asked.Some? && asked.value < 1 ==> n == 1
    ensures asked.Some? && asked.value > 50 ==> n == 50
  {
    var n := if asked.Some? then asked.value else DEFAULT_LIMIT;
    if n < 1 then 1 else if n > MAX_LIMIT then MAX_LIMIT else n
  }

  type PageSize = n: nat | n >= 1 witness 1

  predicate Matches(r: Row, q: Query) {
    && r.userId == q.userId
    && (q.status.Some? ==> r.status == q.status.value)
    && (q.category.Some? && q.category.value != "" ==> r.category == q.category.value)
    && (q.sinceSeq.Some? && q.sinceSeq.value >= 0 ==> r.userSeq > q.sinceSeq.value)
  }

  predicate Older(r: Row, c: Cursor) {
    r.createdAt < c.createdAt || (r.createdAt == c.createdAt && r.id < c.id)
  }

  function CursorOf(r: Row): Cursor { Cursor(r.createdAt, r.id) }

  predicate Newer(r: Row, s: Row) { Older(s, CursorOf(r)) }

  ghost predicate UniqueIds(db: set<Row>) {
    forall r, s :: r in db && s in db && r.id == s.id ==> r == s
  }

  /** The matching rows a request with this cursor is about. */
  ghost function Rest(db: set<Row>, q: Query, cursor: Option<Cursor>): (rows: set<Row>)
    ensures UniqueIds(db) ==> UniqueIds(rows)
  {
    set r | r in db && Matches(r, q) && (cursor.Some? ==> Older(r, cursor.value))
  }

  ghost predicate Descending(s: seq<Row>) {
    forall i, j :: 0 <= i < j < |s| ==> Newer(s[i], s[j])
  }

  lemma {:induction false} NewestExists(rows: set<Row>) returns (m: Row)
    requires rows != {} && UniqueIds(rows)
    ensures m in rows && forall s :: s in rows && s != m ==> Newer(m, s)
    decreases |rows|
  {
    m :| m in rows;
    if rows != {m} {
      var others := rows - {m};
      assert others != {};
      var n := NewestExists(others);
      if Newer(n, m) {
        m := n;
      } else {
        forall s | s in rows && s != m ensures Newer(m, s) {
          assert s == n || Newer(n, s);
        }
      }
    }
  }

  /** The rows sorted by creation time and then identifier, newest first. */
  ghost function Sorted(rows: set<Row>): seq<Row>
    requires UniqueIds(rows)
    decreases |rows|
  {
    if rows == {} then []
    else
      var m := NewestOf(rows);
      [m] + Sorted(rows - {m})
  }

  ghost function NewestOf(rows: set<Row>): (m: Row)
    requires rows != {} && UniqueIds(rows)
    ensures m in rows && forall s :: s in rows && s != m ==> Newer(m, s)
  {
    assert exists m :: m in rows && (forall s :: s in rows && s != m ==> Newer(m, s)) by {
      var n := NewestExists(rows);
    }
    var m :| m in rows && forall s :: s in rows && s != m ==> Newer(m, s);
    m
  }

  /** Sorting lists every row once, strictly newest first. */
  lemma {:induction false} SortedProperties(rows: set<Row>)
    requires UniqueIds(rows)
    ensures (forall r :: r in Sorted(rows) <==> r in rows) && Descending(Sorted(rows)) && |Sorted(rows)| == |rows|
    decreases |rows|
  {
    if rows != {} {
      var m := NewestOf(rows);
      SortedProperties(rows - {m});
    }
  }

  datatype Page = Page(rows: seq<Row>, hasMore: bool, nextCursor: Option<Cursor>)

  /** `listForUser`: one more row than the limit is read to see whether there are more. */
  ghost function ListForUser(db: set<Row>, q: Query, limit: PageSize, cursor: Option<Cursor>): Page
    requires UniqueIds(db)
  {
    var sorted := Sorted(Rest(db, q, cursor));
    var docs := if |sorted| <= limit + 1 then sorted else sorted[..limit + 1];
    var rows := if |docs| <= limit then docs else docs[..limit];
    var hasMore := |docs| > limit;
    Page(rows, hasMore, if hasMore && |rows| > 0 then Some(CursorOf(rows[|rows| - 1])) else None)
  }

  datatype Pages = Pages(rows: seq<Row>, finished: bool)

  /** Following `nextCursor`; `dbs[k]` is the database the k-th request sees. */
  ghost function Follow(dbs: seq<set<Row>>, q: Query, limit: PageSize, cursor: Option<Cursor>): Pages
    requires forall k :: 0 <= k < |dbs| ==> UniqueIds(dbs[k])
  {
    if dbs == [] then Pages([], false)
    else
      var p := ListForUser(dbs[0], q, limit, cursor);
      if p.nextCursor.None? then Pages(p.rows, true)
      else
        var r := Follow(dbs[1..], q, limit, p.nextCursor);
        Pages(p.rows + r.rows, r.finished)
  }

  /** Between two databases nothing older than the cursor changes: newer notifications may arrive, and
      rows already returned may be marked or deleted. */
  ghost predicate Undisturbed(before: set<Row>, after: set<Row>, cursor: Cursor) {
    forall r :: Older(r, cursor) ==> (r in before <==> r in after)
  }

  ghost predicate Quiet(dbs: seq<set<Row>>, q: Query, limit: PageSize, cursor: Option<Cursor>)
    requires forall k :: 0 <= k < |dbs| ==> UniqueIds(dbs[k])
  {
    |dbs| >= 2 ==>
      var next := ListForUser(dbs[0], q, limit, cursor).nextCursor;
      next.Some? ==> Undisturbed(dbs[0], dbs[1], next.value) && Quiet(dbs[1..], q, limit, next)
  }

  /** The rows after a cut of the listing are those older than the last row before it. */
  lemma CutAt(rows: set<Row>, n: nat)
    requires UniqueIds(rows) && 0 < n <= |Sorted(rows)|
    ensures var c := CursorOf(Sorted(rows)[n - 1]);
            forall r :: r in Sorted(rows)[n..] <==> r in rows && Older(r, c)
  {
    SortedProperties(rows);
    var s := Sorted(rows);
    assert forall j :: 0 <= j < n - 1 ==> Newer(s[j], s[n - 1]);
    forall r | r in rows && Older(r, CursorOf(s[n - 1])) ensures r in s[n..] {
      var i :| 0 <= i < |s| && s[i] == r;
      assert s[n..][i - n] == r;
    }
  }

  lemma {:induction false} DescendingUnique(a: seq<Row>, b: seq<Row>)
    requires Descending(a) && Descending(b) && forall r :: r in a <==> r in b
    ensures a == b
    decreases |a|
  {
    assert (a != [] ==> a[0] in b) && (b != [] ==> b[0] in a);
    if a != [] {
      assert a[0] in b && b[0] in a;
      assert a[0] == b[0];
      assert a == [a[0]] + a[1..] && b == [b[0]] + b[1..];
      forall r ensures r in a[1..] <==> r in b[1..] {
        assert r in a[1..] <==> r in a && r != a[0] by { HeadOnce(a, r); }
        assert r in b[1..] <==> r in b && r != b[0] by { HeadOnce(b, r); }
      }
      DescendingUnique(a[1..], b[1..]);
    }
  }

  lemma HeadOnce(a: seq<Row>, r: Row)
    requires a != [] && Descending(a)
    ensures r in a[1..] <==> r in a && r != a[0]
  {
    assert a == [a[0]] + a[1..];
    assert forall j :: 0 < j < |a| ==> Newer(a[0], a[j]);
  }

  lemma DescendingTail(s: seq<Row>, n: nat)
    requires Descending(s) && n <= |s|
    ensures Descending(s[n..])
  {
    hide Newer;
  }

  /** The next request is about exactly what the listing has after this page. */
  lemma NextRest(db: set<Row>, after: set<Row>, q: Query, limit: PageSize, cursor: Option<Cursor>)
    requires UniqueIds(db) && UniqueIds(after)
    requires var next := ListForUser(db, q, limit, cursor).nextCursor; next.Some? && Undisturbed(db, after, next.value)
    ensures var next := ListForUser(db, q, limit, cursor).nextCursor;
            Sorted(Rest(after, q, next)) == Sorted(Rest(db, q, cursor))[limit..]
  {
    var rows := Rest(db, q, cursor);
    var s := Sorted(rows);
    var next := ListForUser(db, q, limit, cursor).nextCursor;
    assert |s| > limit && next == Some(CursorOf(s[limit - 1])) && UniqueIds(rows);
    hide ListForUser;
    SortedProperties(rows);
    CutAt(rows, limit);
    var later := Rest(after, q, next);
    assert UniqueIds(later);
    SortedProperties(later);
    LaterRows(db, after, q, cursor, s[limit - 1]);
    hide Rest, UniqueIds, Sorted, Undisturbed, CursorOf, Older;
    assert forall r :: r in Sorted(later) <==> r in later;
    DescendingTail(s, limit);
    hide Descending;
    DescendingUnique(Sorted(later), s[limit..]);
  }

  /** What is older than a row of the listing is the same in both databases. */
  lemma LaterRows(db: set<Row>, after: set<Row>, q: Query, cursor: Option<Cursor>, last: Row)
    requires last in Rest(db, q, cursor) && Undisturbed(db, after, CursorOf(last))
    ensures forall r :: r in Rest(after, q, Some(CursorOf(last))) <==> r in Rest(db, q, cursor) && Older(r, CursorOf(last))
  {
  }

  /** Following the cursors returns the matching rows present at the first request, each once, newest
      first: all of them after enough requests, and a prefix of them before that. */
  lemma {:induction false} PagesAreComplete(dbs: seq<set<Row>>, q: Query, limit: PageSize, cursor: Option<Cursor>)
    requires dbs != [] && forall k :: 0 <= k < |dbs| ==> UniqueIds(dbs[k])
    requires Quiet(dbs, q, limit, cursor)
    ensures var all, got := Sorted(Rest(dbs[0], q, cursor)), Follow(dbs, q, limit, cursor);
            && got.rows <= all
            && (got.finished ==> got.rows == all)
            && (got.finished <==> |all| <= |dbs| * limit)
    decreases |dbs|
  {
    hide Rest, Sorted, UniqueIds, Undisturbed;
    var all, rest := Sorted(Rest(dbs[0], q, cursor)), dbs[1..];
    var next := ListForUser(dbs[0], q, limit, cursor).nextCursor;
    PageOf(dbs[0], q, limit, cursor);
    hide ListForUser;
    OneMorePage(|all|, |dbs|, limit);
    if |all| > limit {
      if rest == [] {
        assert all[..limit] + [] == all[..limit];
      } else {
        assert rest[0] == dbs[1];
        NextRest(dbs[0], dbs[1], q, limit, cursor);
        PagesAreComplete(rest, q, limit, next);
        PrefixJoin(all, limit, Follow(rest, q, limit, next).rows);
      }
    }
  }

  lemma PageOf(db: set<Row>, q: Query, limit: PageSize, cursor: Option<Cursor>)
    requires UniqueIds(db)
    ensures var all, p := Sorted(Rest(db, q, cursor)), ListForUser(db, q, limit, cursor);
            && (p.nextCursor.Some? <==> |all| > limit)
            && p.rows == if |all| > limit then all[..limit] else all
  {
    hide Rest, Sorted, UniqueIds;
  }

  lemma OneMorePage(rows: nat, requests: nat, limit: nat)
    requires requests > 0 && limit > 0
    ensures requests * limit >= limit
    ensures rows > limit ==> (rows <= requests * limit <==> rows - limit <= (requests - 1) * limit)
  {
    assert requests * limit == (requests - 1) * limit + limit;
  }

  lemma PrefixJoin(all: seq<Row>, n: nat, more: seq<Row>)
    requires n <= |all| && more <= all[n..]
    ensures all[..n] + more <= all
    ensures more == all[n..] ==> all[..n] + more == all
  {
    assert all == all[..n] + all[n..];
  }

  /** Only notifications newer than all present ones are added. */
  ghost predicate OnlyNewer(before: set<Row>, after: set<Row>) {
    before <= after && forall r, s :: r in after - before && s in before ==> Newer(r, s)
  }

  /** They disturb nothing. */
  lemma NewerArrivalsAreQuiet(before: set<Row>, after: set<Row>, q: Query, limit: PageSize, cursor: Option<Cursor>)
    requires UniqueIds(before) && OnlyNewer(before, after)
    requires ListForUser(before, q, limit, cursor).nextCursor.Some?
    ensures Undisturbed(before, after, ListForUser(before, q, limit, cursor).nextCursor.value)
  {
    var rows := Rest(before, q, cursor);
    SortedProperties(rows);
    var last := Sorted(rows)[limit - 1];
    assert last in rows;
    forall r | Older(r, CursorOf(last)) && r in after ensures r in before {
      assert r in after - before ==> Newer(r, last);
    }
  }

  lemma {:induction false} GrowingIsQuiet(dbs: seq<set<Row>>, q: Query, limit: PageSize, cursor: Option<Cursor>)
    requires forall k :: 0 <= k < |dbs| ==> UniqueIds(dbs[k])
    requires forall k :: 0 <= k < |dbs| - 1 ==> OnlyNewer(dbs[k], dbs[k + 1])
    ensures Quiet(dbs, q, limit, cursor)
    decreases |dbs|
  {
    if |dbs| >= 2 {
      var next := ListForUser(dbs[0], q, limit, cursor).nextCursor;
      if next.Some? {
        NewerArrivalsAreQuiet(dbs[0], dbs[1], q, limit, cursor);
        var rest := dbs[1..];
        assert forall k :: 0 <= k < |rest| ==> UniqueIds(rest[k]);
        hide OnlyNewer, UniqueIds, ListForUser, Undisturbed;
        forall k | 0 <= k < |rest| - 1 ensures OnlyNewer(rest[k], rest[k + 1]) {
          assert rest[k] == dbs[k + 1] && rest[k + 1] == dbs[k + 2];
          assert OnlyNewer(dbs[k + 1], dbs[k + 1 + 1]);
        }
        GrowingIsQuiet(rest, q, limit, next);
      }
    }
  }

  /** While notifications only arrive, and each newer than all there are, enough requests list every
      matching row of the first one once, newest first. */
  lemma ArrivalsKeepPagesComplete(dbs: seq<set<Row>>, q: Query, limit: PageSize)
    requires dbs != [] && forall k :: 0 <= k < |dbs| ==> UniqueIds(dbs[k])
    requires forall k :: 0 <= k < |dbs| - 1 ==> OnlyNewer(dbs[k], dbs[k + 1])
    ensures var all, got := Sorted(Rest(dbs[0], q, None)), Follow(dbs, q, limit, None);
            && got.rows <= all
            && (got.rows == all <== |all| <= |dbs| * limit)
            && (got.finished <==> |all| <= |dbs| * limit)
  {
    GrowingIsQuiet(dbs, q, limit, None);
    PagesAreComplete(dbs, q, limit, None);
  }

  // ---- What the pages show, on the fields of the rows ----

  /** Later creation first; among equal times the larger identifier first. */
  predicate NewestFirst(rows: seq<Row>) {
    forall i, j :: 0 <= i < j < |rows| ==>
      rows[i].createdAt > rows[j].createdAt || (rows[i].createdAt == rows[j].createdAt && rows[i].id > rows[j].id)
  }

  /** What the caller asked to see. */
  predicate AskedFor(r: Row, q: Query) {
    && r.userId == q.userId
    && (q.status == Some(Unread) ==> r.status == Unread) && (q.status == Some(Read) ==> r.status == Read)
    && (q.category.Some? && |q.category.value| > 0 ==> r.category == q.category.value)
    && (q.sinceSeq.Some? && 0 <= q.sinceSeq.value ==> q.sinceSeq.value < r.userSeq)
  }

  /** A page shows rows that were asked for, newest first, and after a cursor only rows created before
      it, or at its time with a smaller identifier; a row left out is older than all of the page, and the
      next cursor points at the page's last row. */
  lemma PageShows(db: set<Row>, q: Query, limit: PageSize, cursor: Option<Cursor>)
    requires UniqueIds(db)
    ensures var p := ListForUser(db, q, limit, cursor);
            && |p.rows| <= limit && NewestFirst(p.rows)
            && (forall r :: r in p.rows ==> r in db && AskedFor(r, q) && Before(r, cursor))
            && (forall r, s :: r in db && AskedFor(r, q) && Before(r, cursor) && r !in p.rows && s in p.rows ==>
                  s.createdAt > r.createdAt || (s.createdAt == r.createdAt && s.id > r.id))
            && ((exists r :: r in db && AskedFor(r, q) && Before(r, cursor) && r !in p.rows) <==> p.nextCursor.Some?)
            && (p.nextCursor.Some? ==>
                  |p.rows| == limit
                  && p.nextCursor.value.createdAt == p.rows[limit - 1].createdAt
                  && p.nextCursor.value.id == p.rows[limit - 1].id)
  {
    var all, p := Sorted(Rest(db, q, cursor)), ListForUser(db, q, limit, cursor);
    PageOf(db, q, limit, cursor);
    SortedProperties(Rest(db, q, cursor));
    assert p.nextCursor.Some? ==> p.nextCursor == Some(CursorOf(all[limit - 1]));
    RestIs(db, q, cursor);
    OrderOnFields(all);
    hide ListForUser, Sorted, UniqueIds, Rest, Descending, AskedFor, Before;
    if |all| > limit { LeftOut(all, limit); }
    assert forall r :: r in p.rows ==> r in all;
    assert |all| > limit ==> all[limit] in all && all[limit] in all[limit..];
  }

  /** Created before the cursor, or at its time with a smaller identifier. */
  predicate Before(r: Row, cursor: Option<Cursor>) {
    cursor.Some? ==>
      cursor.value.createdAt > r.createdAt || (cursor.value.createdAt == r.createdAt && cursor.value.id > r.id)
  }

  lemma RestIs(db: set<Row>, q: Query, cursor: Option<Cursor>)
    ensures forall r :: r in Rest(db, q, cursor) <==> r in db && AskedFor(r, q) && Before(r, cursor)
  {
  }

  lemma OrderOnFields(s: seq<Row>)
    requires Descending(s)
    ensures NewestFirst(s)
  {
    forall i, j | 0 <= i < j < |s|
      ensures s[i].createdAt > s[j].createdAt || (s[i].createdAt == s[j].createdAt && s[i].id > s[j].id)
    {
      assert Newer(s[i], s[j]);
    }
  }

  lemma LeftOut(all: seq<Row>, n: nat)
    requires NewestFirst(all) && n <= |all|
    ensures NewestFirst(all[..n])
    ensures forall r, s :: r in all && r !in all[..n] && s in all[..n] ==>
              s.createdAt > r.createdAt || (s.createdAt == r.createdAt && s.id > r.id)
    ensures forall r :: r in all[n..] ==> r !in all[..n]
  {
    assert all == all[..n] + all[n..];
    forall r, s | r in all[n..] && s in all[..n]
      ensures s.createdAt > r.createdAt || (s.createdAt == r.createdAt && s.id > r.id)
    {
      var i :| 0 <= i < n && all[i] == s;
      var j :| n <= j < |all| && all[j] == r;
    }
  }

  /** Whatever happens to the database between requests, what following the cursors returns is newest
      first, without repetition, and was asked for. */
  lemma {:induction false} FollowShows(dbs: seq<set<Row>>, q: Query, limit: PageSize, cursor: Option<Cursor>)
    requires forall k :: 0 <= k < |dbs| ==> UniqueIds(dbs[k])
    ensures var rows := Follow(dbs, q, limit, cursor).rows;
            NewestFirst(rows) && forall r :: r in rows ==> AskedFor(r, q) && Before(r, cursor)
    decreases |dbs|
  {
    if dbs != [] {
      FollowStep(dbs, q, limit, cursor);
      hide *;
      var p := ListForUser(dbs[0], q, limit, cursor);
      PageShows(dbs[0], q, limit, cursor);
      if p.nextCursor.Some? {
        FollowShows(dbs[1..], q, limit, p.nextCursor);
        JoinNewest(p.rows, Follow(dbs[1..], q, limit, p.nextCursor).rows, p.nextCursor.value, cursor);
      }
    }
  }

  lemma FollowStep(dbs: seq<set<Row>>, q: Query, limit: PageSize, cursor: Option<Cursor>)
    requires dbs != [] && forall k :: 0 <= k < |dbs| ==> UniqueIds(dbs[k])
    ensures var p := ListForUser(dbs[0], q, limit, cursor);
            Follow(dbs, q, limit, cursor).rows
            == if p.nextCursor.Some? then p.rows + Follow(dbs[1..], q, limit, p.nextCursor).rows else p.rows
  {
    hide ListForUser, UniqueIds;
  }

  lemma JoinNewest(a: seq<Row>, b: seq<Row>, next: Cursor, cursor: Option<Cursor>)
    requires NewestFirst(a) && NewestFirst(b) && a != []
    requires next.createdAt == a[|a| - 1].createdAt && next.id == a[|a| - 1].id
    requires (forall r :: r in a ==> Before(r, cursor)) && forall r :: r in b ==> Before(r, Some(next))
    ensures NewestFirst(a + b) && forall r :: r in a + b ==> Before(r, cursor)
  {
    var last := a[|a| - 1];
    assert last in a;
    forall i, j | 0 <= i < |a| && 0 <= j < |b|
      ensures a[i].createdAt > b[j].createdAt || (a[i].createdAt == b[j].createdAt && a[i].id > b[j].id)
    {
      assert Before(b[j], Some(next));
    }
    forall r | r in b ensures Before(r, cursor) {
      assert Before(r, Some(next));
    }
  }
}
