/** The market trend read symbol by symbol and the one read in a single grouped query. */
module MarketBatch {
  import opened MarketIndex
  import opened MarketOhlc

  datatype Row = Row(exchange: string, symbol: string, interval: string, doc: Doc)
  datatype Query = Query(exchange: string, interval: string, from: int, to: int, limit: int)

  predicate SameKey(r: Row, s: Row) {
    && r.exchange == s.exchange
    && r.symbol == s.symbol
    && r.interval == s.interval
    && r.doc.openTime == s.doc.openTime
  }

  /** The unique index of the candle collection. */
  ghost predicate UniqueKeys(db: set<Row>) {
    forall r, s | r in db && s in db :: SameKey(r, s) ==> r == s
  }

  predicate InWindow(r: Row, q: Query) {
    r.exchange == q.exchange && r.interval == q.interval && q.from <= r.doc.openTime <= q.to
  }

  ghost function Matching(db: set<Row>, q: Query, symbols: set<string>): set<Row> {
    set r | r in db && InWindow(r, q) && r.symbol in symbols
  }

  ghost function RowSet(s: seq<Row>): set<Row> {
    set r | r in s
  }

  /** `out` lists `rows` once each, newest first; rows of equal time may come in any order. */
  ghost predicate SortedNewestFirst(out: seq<Row>, rows: set<Row>) {
    && RowSet(out) == rows
    && (forall i, j :: 0 <= i < j < |out| ==> out[i] != out[j] && out[i].doc.openTime >= out[j].doc.openTime)
  }

  /** `cursor.limit(n)`: 0 means no limit, a negative limit counts like a positive one. */
  function CursorLimit<T>(s: seq<T>, n: int): seq<T> {
    var k := if n < 0 then -n else n;
    if k == 0 || |s| <= k then s else s[..k]
  }

  /** `$slice: [array, n]`: the first n elements, or for a negative n the last. */
  function Slice<T>(s: seq<T>, n: int): seq<T> {
    if n >= 0 then s[..if |s| <= n then |s| else n]
    else s[if |s| <= -n then 0 else |s| + n..]
  }

  function Docs(s: seq<Row>): seq<Doc> {
    seq(|s|, i requires 0 <= i < |s| => s[|s| - 1 - i].doc)
  }

  /** Oldest first; candles built from trades when fewer than two are stored. */
  function WithFallback(newestFirst: seq<Row>, symbol: string, fallback: string -> seq<Doc>): seq<Doc> {
    if |newestFirst| < 2 then fallback(symbol) else Docs(newestFirst)
  }

  /** One query per constituent; `sorted[i]` is what the i-th query's sort returns before its limit. */
  function PerSymbolSets(q: Query, constituents: seq<Constituent>, sorted: seq<seq<Row>>, fallback: string -> seq<Doc>): seq<KlineSet>
    requires |sorted| == |constituents|
  {
    seq(|constituents|, i requires 0 <= i < |constituents| =>
      var c := constituents[i];
      KlineSet(c.symbol, c.marketCap, WithFallback(CursorLimit(sorted[i], q.limit), c.symbol, fallback)))
  }

  /** `$group` by symbol with `$push`. */
  function Group(rows: seq<Row>): map<string, seq<Row>> {
    if rows == [] then map[]
    else
      var before, r := Group(rows[..|rows| - 1]), rows[|rows| - 1];
      before[r.symbol := (if r.symbol in before then before[r.symbol] else []) + [r]]
  }

  /** The map from upper-cased symbol to market cap: a later constituent replaces an earlier one. */
  function CapBySymbol(upper: string -> string, constituents: seq<Constituent>): map<string, real> {
    if constituents == [] then map[]
    else
      var c := constituents[|constituents| - 1];
      CapBySymbol(upper, constituents[..|constituents| - 1])[upper(c.symbol) := c.marketCap]
  }

  /** One grouped query; `sorted` is what its sort stage returns. */
  function BatchedSets(upper: string -> string, q: Query, constituents: seq<Constituent>, sorted: seq<Row>,
                       fallback: string -> seq<Doc>): seq<KlineSet> {
    var groups, caps := Group(sorted), CapBySymbol(upper, constituents);
    seq(|constituents|, i requires 0 <= i < |constituents| =>
      var c := constituents[i];
      var sym := upper(c.symbol);
      KlineSet(sym, if sym in caps then caps[sym] else 0.0,
               WithFallback(if sym in groups then Slice(groups[sym], q.limit) else [], c.symbol, fallback)))
  }

  function Only(rows: seq<Row>, symbol: string): seq<Row> {
    if rows == [] then []
    else
      var before, r := Only(rows[..|rows| - 1], symbol), rows[|rows| - 1];
      if r.symbol == symbol then before + [r] else before
  }

  lemma {:induction false} GroupIsFilter(rows: seq<Row>, symbol: string)
    ensures symbol in Group(rows) <==> Only(rows, symbol) != []
    ensures symbol in Group(rows) ==> Group(rows)[symbol] == Only(rows, symbol)
  {
    if rows != [] {
      GroupIsFilter(rows[..|rows| - 1], symbol);
    }
  }

  /** Filtering a sorted listing gives a sorted listing of the filtered rows. */
  lemma {:induction false} OnlySorted(out: seq<Row>, rows: set<Row>, symbol: string)
    requires SortedNewestFirst(out, rows)
    ensures SortedNewestFirst(Only(out, symbol), set r | r in rows && r.symbol == symbol)
  {
    if out != [] {
      var last := |out| - 1;
      var r := out[last];
      assert out == out[..last] + [r];
      assert RowSet(out) == RowSet(out[..last]) + {r};
      OnlySorted(out[..last], RowSet(out[..last]), symbol);
      var before := Only(out[..last], symbol);
      forall i | 0 <= i < |before| ensures before[i] in out[..last] {
        assert before[i] in RowSet(before);
      }
      assert forall x :: x in out[..last] ==> x != r && x.doc.openTime >= r.doc.openTime;
      assert RowSet(before + [r]) == RowSet(before) + {r};
    }
  }

  ghost predicate TimesDiffer(rows: set<Row>) {
    forall r, s | r in rows && s in rows && r.doc.openTime == s.doc.openTime :: r == s
  }

  lemma HeadsAgree(a: seq<Row>, b: seq<Row>, rows: set<Row>)
    requires a != [] && b != [] && SortedNewestFirst(a, rows) && SortedNewestFirst(b, rows) && TimesDiffer(rows)
    ensures a[0] == b[0]
  {
    assert a[0] in RowSet(a) && b[0] in RowSet(b);
    NewestIsHead(a, rows);
    NewestIsHead(b, rows);
  }

  /** With different times there is only one way to sort. */
  lemma {:induction false} SortUnique(a: seq<Row>, b: seq<Row>, rows: set<Row>)
    requires SortedNewestFirst(a, rows) && SortedNewestFirst(b, rows) && TimesDiffer(rows)
    ensures a == b
    decreases |a|
  {
    NoRows(a);
    NoRows(b);
    if a != [] {
      assert TimesDiffer(rows - {a[0]});
      hide *;
      HeadsAgree(a, b, rows);
      NewestIsHead(a, rows);
      NewestIsHead(b, rows);
      SortUnique(a[1..], b[1..], rows - {a[0]});
      assert a == [a[0]] + a[1..] && b == [b[0]] + b[1..];
    }
  }

  lemma NoRows(s: seq<Row>)
    ensures s == [] <==> RowSet(s) == {}
  {
    assert s != [] ==> s[0] in RowSet(s);
  }

  lemma NewestIsHead(a: seq<Row>, rows: set<Row>)
    requires a != [] && SortedNewestFirst(a, rows)
    ensures forall r :: r in rows ==> r.doc.openTime <= a[0].doc.openTime
    ensures SortedNewestFirst(a[1..], rows - {a[0]})
  {
    forall r | r in rows ensures r.doc.openTime <= a[0].doc.openTime {
      assert r in RowSet(a);
    }
    assert forall r :: r in a[1..] <==> r in a && r != a[0];
  }

  /** Constituents that agree after upper-casing have the same market cap. */
  ghost predicate CapsAgree(upper: string -> string, constituents: seq<Constituent>) {
    forall a, b | a in constituents && b in constituents && upper(a.symbol) == upper(b.symbol) :: a.marketCap == b.marketCap
  }

  lemma {:induction false} CapBySymbolLast(upper: string -> string, constituents: seq<Constituent>, i: nat)
    requires i < |constituents|
    ensures upper(constituents[i].symbol) in CapBySymbol(upper, constituents)
    ensures exists j :: i <= j < |constituents| && upper(constituents[j].symbol) == upper(constituents[i].symbol)
              && CapBySymbol(upper, constituents)[upper(constituents[i].symbol)] == constituents[j].marketCap
              && forall k :: j < k < |constituents| ==> upper(constituents[k].symbol) != upper(constituents[i].symbol)
  {
    var last := |constituents| - 1;
    if upper(constituents[last].symbol) != upper(constituents[i].symbol) {
      CapBySymbolLast(upper, constituents[..last], i);
    }
  }

  /** The looked-up caps are the constituents' own exactly when equal symbols have equal caps. */
  lemma CapsExact(upper: string -> string, constituents: seq<Constituent>)
    ensures (forall i :: 0 <= i < |constituents| ==>
               upper(constituents[i].symbol) in CapBySymbol(upper, constituents)
               && CapBySymbol(upper, constituents)[upper(constituents[i].symbol)] == constituents[i].marketCap)
            <==> CapsAgree(upper, constituents)
  {
    forall i | 0 <= i < |constituents| {
      CapBySymbolLast(upper, constituents, i);
    }
  }

  /** The two ways to cut a listing agree on every listing exactly for a positive limit. */
  lemma CutsAgreeExactly(limit: int)
    ensures (forall s: seq<int> :: CursorLimit(s, limit) == Slice(s, limit)) <==> limit >= 1
  {
    if limit < 1 {
      var s := seq(1 - limit, i => i);
      assert |s| == 1 - limit && s[0] == 0;
      if limit < 0 {
        assert CursorLimit(s, limit)[0] == 0 && Slice(s, limit)[0] == 1;
      }
    }
  }

  /** Limit -1 leaves one row at most either way, too few for both to use. */
  predicate SafeLimit(limit: int) {
    limit >= 1 || limit == -1
  }

  lemma SafeCut(s: seq<Row>, limit: int, symbol: string, fallback: string -> seq<Doc>)
    requires SafeLimit(limit)
    ensures WithFallback(CursorLimit(s, limit), symbol, fallback) == WithFallback(Slice(s, limit), symbol, fallback)
  {
  }

  /** Both ways give each constituent the same candles and cap. */
  lemma SameSets(upper: string -> string, db: set<Row>, q: Query, constituents: seq<Constituent>,
                 one: seq<seq<Row>>, all: seq<Row>, fallback: string -> seq<Doc>, i: nat)
    requires UniqueKeys(db) && SafeLimit(q.limit) && CapsAgree(upper, constituents)
    requires |one| == |constituents| && i < |constituents|
    requires SortedNewestFirst(one[i], Matching(db, q, {upper(constituents[i].symbol)}))
    requires SortedNewestFirst(all, Matching(db, q, set c | c in constituents :: upper(c.symbol)))
    ensures var a, b := PerSymbolSets(q, constituents, one, fallback)[i], BatchedSets(upper, q, constituents, all, fallback)[i];
            a.marketCap == b.marketCap && a.docs == b.docs
  {
    var sym := upper(constituents[i].symbol);
    var symbols := set c | c in constituents :: upper(c.symbol);
    assert constituents[i] in constituents;
    OnlySorted(all, Matching(db, q, symbols), sym);
    assert (set r | r in Matching(db, q, symbols) && r.symbol == sym) == Matching(db, q, {sym});
    SortUnique(Only(all, sym), one[i], Matching(db, q, {sym}));
    GroupIsFilter(all, sym);
    CapsExact(upper, constituents);
    SafeCut(one[i], q.limit, constituents[i].symbol, fallback);
  }

  ghost predicate SameInputs(a: seq<KlineSet>, b: seq<KlineSet>) {
    |a| == |b| && forall i :: 0 <= i < |a| ==> a[i].marketCap == b[i].marketCap && a[i].docs == b[i].docs
  }

  lemma {:induction false} DocEntriesIgnoreSymbol(s: KlineSet, t: KlineSet, docs: seq<Doc>)
    requires Usable(s) && Usable(t) && s.marketCap == t.marketCap && s.docs == t.docs
    ensures DocEntries(s, docs) == DocEntries(t, docs) && OhlcDocEntries(s, docs) == OhlcDocEntries(t, docs)
  {
    if docs != [] {
      var d := docs[|docs| - 1];
      assert EntryOf(s, d) == EntryOf(t, d);
      assert OhlcEntryOf(s, d) == OhlcEntryOf(t, d);
      DocEntriesIgnoreSymbol(s, t, docs[..|docs| - 1]);
    }
  }

  /** Only caps and candles enter the index. */
  lemma {:induction false} EntriesIgnoreSymbol(a: seq<KlineSet>, b: seq<KlineSet>)
    requires SameInputs(a, b)
    ensures Entries(a) == Entries(b) && OhlcEntries(a) == OhlcEntries(b)
  {
    if a != [] {
      var last := |a| - 1;
      EntriesIgnoreSymbol(a[..last], b[..last]);
      if Usable(a[last]) { DocEntriesIgnoreSymbol(a[last], b[last], a[last].docs); }
    }
  }

  /** For every database, however ties between symbols are sorted, the batched trend equals the
      per-symbol one, trade fallback included, in scalar and in candle form. */
  lemma BatchedEqualsPerSymbol(upper: string -> string, db: set<Row>, q: Query, constituents: seq<Constituent>,
                               one: seq<seq<Row>>, all: seq<Row>, fallback: string -> seq<Doc>)
    requires UniqueKeys(db) && SafeLimit(q.limit) && CapsAgree(upper, constituents)
    requires |one| == |constituents|
    requires forall i :: 0 <= i < |one| ==> SortedNewestFirst(one[i], Matching(db, q, {upper(constituents[i].symbol)}))
    requires SortedNewestFirst(all, Matching(db, q, set c | c in constituents :: upper(c.symbol)))
    ensures var a, b := PerSymbolSets(q, constituents, one, fallback), BatchedSets(upper, q, constituents, all, fallback);
            && Points(constituents, Entries(a)) == Points(constituents, Entries(b))
            && OhlcPoints(constituents, OhlcEntries(a)) == OhlcPoints(constituents, OhlcEntries(b))
  {
    var a, b := PerSymbolSets(q, constituents, one, fallback), BatchedSets(upper, q, constituents, all, fallback);
    forall i | 0 <= i < |constituents| ensures a[i].marketCap == b[i].marketCap && a[i].docs == b[i].docs {
      SameSets(upper, db, q, constituents, one, all, fallback, i);
    }
    EntriesIgnoreSymbol(a, b);
  }
}
