/** Exactly when the batched market trend is the per-symbol one, and what happens otherwise. */
module MarketBatchExact {
  import opened IntOrder
  import opened MarketIndex
  import opened MarketBatch

  /** The unique index keeps two rows apart exactly when exchange, symbol, interval or open time differ. */
  lemma KeyFields(r: Row, s: Row)
    ensures UniqueKeys({r, s}) <==>
            r == s || r.exchange != s.exchange || r.symbol != s.symbol || r.interval != s.interval
            || r.doc.openTime != s.doc.openTime
  {
    assert r in {r, s} && s in {r, s};
  }

  /** What the queries may return before their limits: every row once, newest first, ties in any order. */
  ghost predicate Listings(upper: string -> string, db: set<Row>, q: Query, constituents: seq<Constituent>,
                           one: seq<seq<Row>>, all: seq<Row>) {
    && |one| == |constituents|
    && (forall i :: 0 <= i < |one| ==> SortedNewestFirst(one[i], Matching(db, q, {upper(constituents[i].symbol)})))
    && SortedNewestFirst(all, Matching(db, q, set c | c in constituents :: upper(c.symbol)))
  }

  ghost predicate SameEitherWay(upper: string -> string, db: set<Row>, q: Query, constituents: seq<Constituent>,
                                one: seq<seq<Row>>, all: seq<Row>, fallback: string -> seq<Doc>)
    requires |one| == |constituents|
  {
    SameInputs(PerSymbolSets(q, constituents, one, fallback), BatchedSets(upper, q, constituents, all, fallback))
  }

  /** The two ways give every constituent the same candles and cap, whatever is stored and asked for. */
  ghost predicate AlwaysSame(upper: string -> string, limit: int, constituents: seq<Constituent>) {
    forall db: set<Row>, q: Query, one: seq<seq<Row>>, all: seq<Row>, fallback: string -> seq<Doc> ::
      UniqueKeys(db) && q.limit == limit && Listings(upper, db, q, constituents, one, all) ==>
        SameEitherWay(upper, db, q, constituents, one, all, fallback)
  }

  lemma SafeIsSame(upper: string -> string, limit: int, constituents: seq<Constituent>)
    requires SafeLimit(limit) && CapsAgree(upper, constituents)
    ensures AlwaysSame(upper, limit, constituents)
  {
    forall db: set<Row>, q: Query, one: seq<seq<Row>>, all: seq<Row>, fallback: string -> seq<Doc>
      | UniqueKeys(db) && q.limit == limit && Listings(upper, db, q, constituents, one, all)
      ensures SameEitherWay(upper, db, q, constituents, one, all, fallback)
    {
      forall i | 0 <= i < |constituents| {
        SameSets(upper, db, q, constituents, one, all, fallback, i);
      }
    }
  }

  function NoTrades(symbol: string): seq<Doc> { [] }

  /** Nothing stored: what is left to compare are the caps. */
  lemma SameNeedsCaps(upper: string -> string, limit: int, constituents: seq<Constituent>)
    requires AlwaysSame(upper, limit, constituents)
    ensures CapsAgree(upper, constituents)
  {
    var q := Query("", "", 0, 0, limit);
    var one := seq(|constituents|, i => []);
    assert forall symbols :: Matching({}, q, symbols) == {};
    assert RowSet([]) == {};
    assert Listings(upper, {}, q, constituents, one, []);
    assert SameEitherWay(upper, {}, q, constituents, one, [], NoTrades);
    var a, b := PerSymbolSets(q, constituents, one, NoTrades), BatchedSets(upper, q, constituents, [], NoTrades);
    forall i | 0 <= i < |constituents|
      ensures upper(constituents[i].symbol) in CapBySymbol(upper, constituents)
              && CapBySymbol(upper, constituents)[upper(constituents[i].symbol)] == constituents[i].marketCap
    {
      CapBySymbolLast(upper, constituents, i);
      assert a[i].marketCap == b[i].marketCap;
    }
    CapsExact(upper, constituents);
  }

  // ---- Other limits: one symbol with enough candles ----

  function RowAt(symbol: string, time: int, close: real): Row {
    Row("", symbol, "", Doc(time, close, close, close, close))
  }

  /** Candles of one symbol at the times n - 1 down to 0. */
  function Steady(symbol: string, n: nat): (s: seq<Row>)
    ensures |s| == n && forall i :: 0 <= i < n ==> s[i] == RowAt(symbol, n - 1 - i, 1.0)
  {
    seq(n, i requires 0 <= i < n => RowAt(symbol, n - 1 - i, 1.0))
  }

  lemma SteadySorted(symbol: string, n: nat)
    ensures SortedNewestFirst(Steady(symbol, n), RowSet(Steady(symbol, n))) && UniqueKeys(RowSet(Steady(symbol, n)))
  {
  }

  lemma SteadyMatches(symbol: string, n: nat, limit: int, symbols: set<string>)
    ensures Matching(RowSet(Steady(symbol, n)), Query("", "", 0, n, limit), symbols)
            == if symbol in symbols then RowSet(Steady(symbol, n)) else {}
  {
  }

  lemma {:induction false} OnlyOne(rows: seq<Row>, symbol: string)
    requires forall i :: 0 <= i < |rows| ==> rows[i].symbol == symbol
    ensures Only(rows, symbol) == rows
  {
    if rows != [] {
      OnlyOne(rows[..|rows| - 1], symbol);
      assert rows == rows[..|rows| - 1] + [rows[|rows| - 1]];
    }
  }

  lemma CutsDiffer(symbol: string, n: nat, limit: int)
    requires (limit == 0 && n == 2) || (limit <= -2 && n == 1 - limit)
    ensures WithFallback(CursorLimit(Steady(symbol, n), limit), symbol, NoTrades)
            != WithFallback(Slice(Steady(symbol, n), limit), symbol, NoTrades)
  {
    var s := Steady(symbol, n);
    if limit < 0 {
      assert Docs(CursorLimit(s, limit))[0].openTime == 1;
      assert Docs(Slice(s, limit))[0].openTime == 0;
    } else {
      assert |Docs(s)| == 2;
    }
  }

  /** The listings of a database that holds the steady candles of one symbol only. */
  function SteadyEach(upper: string -> string, constituents: seq<Constituent>, symbol: string, n: nat): (one: seq<seq<Row>>)
    ensures |one| == |constituents|
    ensures forall i :: 0 <= i < |one| ==>
              one[i] == if upper(constituents[i].symbol) == symbol then Steady(symbol, n) else []
  {
    seq(|constituents|, i requires 0 <= i < |constituents| =>
      if upper(constituents[i].symbol) == symbol then Steady(symbol, n) else [])
  }

  lemma SteadyListings(upper: string -> string, limit: int, constituents: seq<Constituent>, n: nat)
    requires constituents != []
    ensures var symbol := upper(constituents[0].symbol);
            Listings(upper, RowSet(Steady(symbol, n)), Query("", "", 0, n, limit), constituents,
                     SteadyEach(upper, constituents, symbol, n), Steady(symbol, n))
  {
    var symbol := upper(constituents[0].symbol);
    SteadySorted(symbol, n);
    assert SortedNewestFirst([], {});
    forall i | 0 <= i < |constituents| {
      SteadyMatches(symbol, n, limit, {upper(constituents[i].symbol)});
    }
    assert constituents[0] in constituents;
    SteadyMatches(symbol, n, limit, set c | c in constituents :: upper(c.symbol));
  }

  lemma SteadyDiffers(upper: string -> string, limit: int, constituents: seq<Constituent>, n: nat)
    requires constituents != [] && ((limit == 0 && n == 2) || (limit <= -2 && n == 1 - limit))
    ensures var symbol := upper(constituents[0].symbol);
            var all, one := Steady(symbol, n), SteadyEach(upper, constituents, symbol, n);
            var q := Query("", "", 0, n, limit);
            !SameEitherWay(upper, RowSet(all), q, constituents, one, all, NoTrades)
  {
    var symbol := upper(constituents[0].symbol);
    var all := Steady(symbol, n);
    OnlyOne(all, symbol);
    GroupIsFilter(all, symbol);
    CutsDiffer(symbol, n, limit);
    hide Steady, CursorLimit, Slice, Only, Group, CapBySymbol, Docs;
    var one, q := SteadyEach(upper, constituents, symbol, n), Query("", "", 0, n, limit);
    assert PerSymbolSets(q, constituents, one, NoTrades)[0].docs
           != BatchedSets(upper, q, constituents, all, NoTrades)[0].docs;
  }

  lemma SameOnOne(upper: string -> string, limit: int, constituents: seq<Constituent>,
                  db: set<Row>, q: Query, one: seq<seq<Row>>, all: seq<Row>, fallback: string -> seq<Doc>)
    requires AlwaysSame(upper, limit, constituents)
    requires UniqueKeys(db) && q.limit == limit && Listings(upper, db, q, constituents, one, all)
    ensures SameEitherWay(upper, db, q, constituents, one, all, fallback)
  {
  }

  lemma SameNeedsLimit(upper: string -> string, limit: int, constituents: seq<Constituent>)
    requires AlwaysSame(upper, limit, constituents) && constituents != []
    ensures SafeLimit(limit)
  {
    if !SafeLimit(limit) {
      var n := if limit == 0 then 2 else 1 - limit;
      var symbol := upper(constituents[0].symbol);
      var all, q := Steady(symbol, n), Query("", "", 0, n, limit);
      var one := SteadyEach(upper, constituents, symbol, n);
      SteadySorted(symbol, n);
      SteadyListings(upper, limit, constituents, n);
      SteadyDiffers(upper, limit, constituents, n);
      SameOnOne(upper, limit, constituents, RowSet(all), q, one, all, NoTrades);
    }
  }

  /** For every database, window, order of ties and trade fallback the two ways agree on every constituent's
      candles and cap, if and only if the limit is positive or -1 and constituents that agree after
      upper-casing have the same cap. */
  lemma AlwaysSameIff(upper: string -> string, limit: int, constituents: seq<Constituent>)
    ensures AlwaysSame(upper, limit, constituents) <==>
            constituents == [] || (SafeLimit(limit) && CapsAgree(upper, constituents))
  {
    if constituents == [] {
      assert AlwaysSame(upper, limit, []);
    } else if AlwaysSame(upper, limit, constituents) {
      SameNeedsCaps(upper, limit, constituents);
      SameNeedsLimit(upper, limit, constituents);
    } else if SafeLimit(limit) && CapsAgree(upper, constituents) {
      SafeIsSame(upper, limit, constituents);
    }
  }

  // ---- What the published series shows of it ----

  function TwoCandles(close: real): seq<Doc> {
    [Doc(0, 1.0, 1.0, 1.0, 1.0), Doc(1, close, close, close, close)]
  }

  lemma TwoEntries(s: KlineSet, close: real)
    requires s.docs == TwoCandles(close) && s.marketCap > 0.0 && close > 0.0
    ensures Usable(s)
    ensures DocEntries(s, s.docs)
            == [Entry(0, s.marketCap, s.marketCap), Entry(1, close * s.marketCap, s.marketCap)]
  {
    var first := s.docs[..1];
    assert s.docs[..|s.docs| - 1] == first && first[..0] == [];
    assert EntryOf(s, s.docs[0]) == Entry(0, s.marketCap, s.marketCap);
    assert close / 1.0 == close;
    assert EntryOf(s, s.docs[1]) == Entry(1, close * s.marketCap, s.marketCap);
    assert DocEntries(s, first) == [EntryOf(s, s.docs[0])];
  }

  lemma TwoTimes(es: seq<Entry>)
    requires forall i :: 0 <= i < |es| ==> es[i].time == i % 2
    requires |es| >= 2
    ensures Ordered(Times(es)) == [0, 1]
  {
    assert es[0] in es && es[1] in es;
    assert Times(es) == {0, 1} == Members([0, 1]);
    AscendingUnique(Ordered(Times(es)), [0, 1]);
  }

  lemma TwoCandlesCount(s: KlineSet)
    requires s.docs == TwoCandles(1.0) && s.marketCap > 0.0
    ensures Ordered(Times(Entries([s]))) == [0, 1]
  {
    TwoEntries(s, 1.0);
    assert [s][..0] == [];
    assert Entries([s]) == DocEntries(s, s.docs);
    TwoTimes(Entries([s]));
  }

  lemma SteadyDocs(symbol: string)
    ensures Docs(Steady(symbol, 2)) == TwoCandles(1.0)
  {
  }

  /** Limit 0 with two stored candles and no trades: the per-symbol trend has points, the batched one none. */
  lemma LimitZeroDiffers(upper: string -> string, c: Constituent)
    requires c.marketCap > 0.0
    ensures var symbol, q := upper(c.symbol), Query("", "", 0, 2, 0);
            var db, all := RowSet(Steady(symbol, 2)), Steady(symbol, 2);
            && UniqueKeys(db) && Listings(upper, db, q, [c], [all], all)
            && Points([c], Entries(PerSymbolSets(q, [c], [all], NoTrades))) != []
            && Points([c], Entries(BatchedSets(upper, q, [c], all, NoTrades))) == []
  {
    var symbol, q := upper(c.symbol), Query("", "", 0, 2, 0);
    var all := Steady(symbol, 2);
    SteadySorted(symbol, 2);
    SteadyListings(upper, 0, [c], 2);
    assert SteadyEach(upper, [c], symbol, 2) == [all];
    SteadyDocs(symbol);
    var a, b := PerSymbolSets(q, [c], [all], NoTrades), BatchedSets(upper, q, [c], all, NoTrades);
    assert a == [KlineSet(c.symbol, c.marketCap, TwoCandles(1.0))];
    assert |b| == 1 && b[0].docs == [];
    OneCap(c);
    hide Listings, UniqueKeys, PerSymbolSets, BatchedSets, Steady, SteadyEach;
    TwoCandlesCount(a[0]);
    IndexLaws([c], a);
    NoEntries(b);
    IndexLaws([c], b);
  }

  lemma OneCap(c: Constituent)
    ensures TotalCap([c]) == c.marketCap
  {
    assert [c][..0] == [];
  }

  lemma NoEntries(sets: seq<KlineSet>)
    requires |sets| == 1 && sets[0].docs == []
    ensures |Ordered(Times(Entries(sets)))| < 2
  {
    assert sets[..0] == [];
    assert Times(Entries(sets)) == {};
    NoMembers(Ordered({}));
  }

  // ---- One symbol listed with two caps, beside another symbol ----

  const TWO_CAPS := [Constituent("A", 1.0), Constituent("A", 2.0), Constituent("E", 1.0)]

  function Rising(symbol: string): seq<Row> {
    [RowAt(symbol, 1, 2.0), RowAt(symbol, 0, 1.0)]
  }

  function Flat(symbol: string): seq<Row> {
    [RowAt(symbol, 1, 1.0), RowAt(symbol, 0, 1.0)]
  }

  function Mixed(a: string, e: string): seq<Row> {
    [Rising(a)[0], Flat(e)[0], Rising(a)[1], Flat(e)[1]]
  }

  /** Both constituents of the first symbol double, the third stays. */
  function ThreeSets(cap: real, cap': real): seq<KlineSet> {
    [KlineSet("A", cap, TwoCandles(2.0)), KlineSet("A", cap', TwoCandles(2.0)), KlineSet("E", 1.0, TwoCandles(1.0))]
  }

  function ThreeEntries(cap: real, cap': real): seq<Entry> {
    [Entry(0, cap, cap), Entry(1, 2.0 * cap, cap), Entry(0, cap', cap'), Entry(1, 2.0 * cap', cap'),
     Entry(0, 1.0, 1.0), Entry(1, 1.0, 1.0)]
  }

  lemma EntriesOfThree(cap: real, cap': real)
    requires cap > 0.0 && cap' > 0.0
    ensures Entries(ThreeSets(cap, cap')) == ThreeEntries(cap, cap')
  {
    var s := ThreeSets(cap, cap');
    TwoEntries(s[0], 2.0);
    TwoEntries(s[1], 2.0);
    TwoEntries(s[2], 1.0);
    hide DocEntries;
    assert s[..3] == s && s[..2][..1] == s[..1] && s[..1][..0] == [];
    assert Entries(s[..1]) == DocEntries(s[0], s[0].docs);
    assert Entries(s[..2]) == Entries(s[..1]) + DocEntries(s[1], s[1].docs);
    assert Entries(s) == Entries(s[..2]) + DocEntries(s[2], s[2].docs);
  }

  lemma {:induction false} SumsSplit(es: seq<Entry>, e: Entry, t: int)
    ensures ValueAt(es + [e], t) == ValueAt(es, t) + (if e.time == t then e.value else 0.0)
    ensures WeightAt(es + [e], t) == WeightAt(es, t) + (if e.time == t then e.weight else 0.0)
  {
    assert (es + [e])[..|es|] == es;
  }

  lemma SumsOfThree(cap: real, cap': real, t: int)
    requires t == 0 || t == 1
    ensures var es := ThreeEntries(cap, cap');
            && WeightAt(es, t) == cap + cap' + 1.0
            && ValueAt(es, t) == if t == 0 then cap + cap' + 1.0 else 2.0 * cap + 2.0 * cap' + 1.0
  {
    var es := ThreeEntries(cap, cap');
    assert es == ([] + [es[0]]) + [es[1]] + [es[2]] + [es[3]] + [es[4]] + [es[5]];
    SumsSplit([], es[0], t);
    SumsSplit([] + [es[0]], es[1], t);
    SumsSplit([] + [es[0]] + [es[1]], es[2], t);
    SumsSplit([] + [es[0]] + [es[1]] + [es[2]], es[3], t);
    SumsSplit([] + [es[0]] + [es[1]] + [es[2]] + [es[3]], es[4], t);
    SumsSplit([] + [es[0]] + [es[1]] + [es[2]] + [es[3]] + [es[4]], es[5], t);
  }

  lemma Ratio(a: real, b: real)
    requires a == b && b > 0.0
    ensures a / b == 1.0
  {
  }

  lemma PointsOfThree(cap: real, cap': real)
    requires cap > 0.0 && cap' > 0.0
    ensures RawPoints(ThreeEntries(cap, cap'))
            == [Point(0, 1.0), Point(1, (2.0 * cap + 2.0 * cap' + 1.0) / (cap + cap' + 1.0))]
  {
    TwoTimes(ThreeEntries(cap, cap'));
    SumsOfThree(cap, cap', 0);
    SumsOfThree(cap, cap', 1);
    var w := cap + cap' + 1.0;
    Ratio(w, w);
    var es := ThreeEntries(cap, cap');
    hide ThreeEntries, ValueAt, WeightAt;
    assert IndexAt(es, 0) == 1.0 && IndexAt(es, 1) == (2.0 * cap + 2.0 * cap' + 1.0) / w;
  }

  lemma TotalOfThree()
    ensures TotalCap(TWO_CAPS) == 4.0
  {
    var c := TWO_CAPS;
    assert c[..2][..1] == c[..1] && c[..1][..0] == [];
    assert TotalCap(c[..1]) == 1.0 && TotalCap(c[..2]) == 3.0;
  }

  lemma QuotientIs(q: real, w: real, total: real)
    requires w > 0.0 && q * w == total
    ensures total / w == q
  {
  }

  lemma FirstOfThree(cap: real, cap': real, last: real, first: real)
    requires cap > 0.0 && cap' > 0.0 && last > 0.0 && last * (cap + cap' + 1.0) == 2.0 * cap + 2.0 * cap' + 1.0
    requires first * last == 4.0
    ensures var points := Points(TWO_CAPS, Entries(ThreeSets(cap, cap')));
            |points| == 2 && points[0].value == first
  {
    QuotientIs(last, cap + cap' + 1.0, 2.0 * cap + 2.0 * cap' + 1.0);
    EntriesOfThree(cap, cap');
    PointsOfThree(cap, cap');
    TotalOfThree();
    FirstValue(RawPoints(ThreeEntries(cap, cap')), last);
    QuotientIs(first, last, 4.0);
    hide ThreeSets, ThreeEntries, Entries, RawPoints, TotalCap, Publish;
  }

  /** Own caps give 16/7 first, the last cap for both 20/9. */
  lemma ThreeSeriesDiffer()
    ensures Points(TWO_CAPS, Entries(ThreeSets(1.0, 2.0))) != Points(TWO_CAPS, Entries(ThreeSets(2.0, 2.0)))
  {
    FirstOfThree(1.0, 2.0, 1.75, 16.0 / 7.0);
    FirstOfThree(2.0, 2.0, 1.8, 20.0 / 9.0);
    hide *;
  }

  lemma FirstValue(raw: seq<Point>, last: real)
    requires |raw| == 2 && raw[0].value == 1.0 && raw[1].value == last > 0.0
    ensures |Publish(raw, 4.0)| == 2 && Publish(raw, 4.0)[0].value == 4.0 / last
  {
  }

  lemma MixedListings(upper: string -> string)
    requires upper("A") != upper("E")
    ensures var a, e := upper("A"), upper("E");
            var db, q := RowSet(Mixed(a, e)), Query("", "", 0, 1, 30);
            UniqueKeys(db) && Listings(upper, db, q, TWO_CAPS, [Rising(a), Rising(a), Flat(e)], Mixed(a, e))
  {
    var a, e := upper("A"), upper("E");
    var db, q := RowSet(Mixed(a, e)), Query("", "", 0, 1, 30);
    MixedMatches(a, e);
    assert SortedNewestFirst(Rising(a), RowSet(Rising(a))) && SortedNewestFirst(Flat(e), RowSet(Flat(e)));
    assert SortedNewestFirst(Mixed(a, e), db);
    var symbols := set c | c in TWO_CAPS :: upper(c.symbol);
    assert TWO_CAPS[0] in TWO_CAPS && TWO_CAPS[2] in TWO_CAPS;
    assert a in symbols && e in symbols;
    hide Rising, Flat, Mixed, SortedNewestFirst, RowSet, Matching, UniqueKeys;
  }

  lemma MixedMatches(a: string, e: string)
    requires a != e
    ensures var db, q := RowSet(Mixed(a, e)), Query("", "", 0, 1, 30);
            && UniqueKeys(db)
            && Matching(db, q, {a}) == RowSet(Rising(a)) && Matching(db, q, {e}) == RowSet(Flat(e))
            && forall symbols :: a in symbols && e in symbols ==> Matching(db, q, symbols) == db
  {
    var db, q := RowSet(Mixed(a, e)), Query("", "", 0, 1, 30);
    assert db == {Rising(a)[0], Rising(a)[1], Flat(e)[0], Flat(e)[1]};
    assert RowSet(Rising(a)) == {Rising(a)[0], Rising(a)[1]} && RowSet(Flat(e)) == {Flat(e)[0], Flat(e)[1]};
    hide RowSet, Mixed;
    assert Matching(db, q, {a}) == RowSet(Rising(a));
    assert Matching(db, q, {e}) == RowSet(Flat(e));
  }

  lemma MixedGroups(upper: string -> string)
    requires upper("A") != upper("E")
    ensures var a, e := upper("A"), upper("E");
            var groups := Group(Mixed(a, e));
            a in groups && groups[a] == Rising(a) && e in groups && groups[e] == Flat(e)
  {
    var a, e := upper("A"), upper("E");
    var m := Mixed(a, e);
    assert m[..3][..2] == m[..2] && m[..2][..1] == m[..1] && m[..1][..0] == [];
    assert Only(m[..1], a) == [m[0]] && Only(m[..1], e) == [];
    assert Only(m[..2], a) == [m[0]] && Only(m[..2], e) == [m[1]];
    assert Only(m[..3], a) == [m[0], m[2]] && Only(m[..3], e) == [m[1]];
    GroupIsFilter(m, a);
    GroupIsFilter(m, e);
  }

  lemma CutAll(rows: seq<Row>, fallback: string -> seq<Doc>)
    requires |rows| == 2
    ensures forall symbol ::
              && WithFallback(CursorLimit(rows, 30), symbol, fallback) == Docs(rows)
              && WithFallback(Slice(rows, 30), symbol, fallback) == Docs(rows)
  {
    assert Slice(rows, 30) == rows;
  }

  lemma LastCaps(upper: string -> string)
    requires upper("A") != upper("E")
    ensures var caps := CapBySymbol(upper, TWO_CAPS);
            upper("A") in caps && caps[upper("A")] == 2.0 && upper("E") in caps && caps[upper("E")] == 1.0
  {
    CapBySymbolLast(upper, TWO_CAPS, 1);
    CapBySymbolLast(upper, TWO_CAPS, 2);
  }

  /** A symbol listed with caps 1 and 2 beside another symbol, with a limit the service allows: the two
      trends differ in their first value. */
  lemma RepeatedSymbolDiffers(upper: string -> string)
    requires upper("A") != upper("E")
    ensures var a, e := upper("A"), upper("E");
            var db, q := RowSet(Mixed(a, e)), Query("", "", 0, 1, 30);
            var one := [Rising(a), Rising(a), Flat(e)];
            && UniqueKeys(db) && Listings(upper, db, q, TWO_CAPS, one, Mixed(a, e))
            && Points(TWO_CAPS, Entries(PerSymbolSets(q, TWO_CAPS, one, NoTrades)))
               != Points(TWO_CAPS, Entries(BatchedSets(upper, q, TWO_CAPS, Mixed(a, e), NoTrades)))
  {
    MixedListings(upper);
    var a, e := upper("A"), upper("E");
    var q, one := Query("", "", 0, 1, 30), [Rising(a), Rising(a), Flat(e)];
    var s, b := PerSymbolSets(q, TWO_CAPS, one, NoTrades), BatchedSets(upper, q, TWO_CAPS, Mixed(a, e), NoTrades);
    MixedOneByOne(a, e);
    MixedBatch(upper);
    hide *;
    EntriesIgnoreSymbol(s, ThreeSets(1.0, 2.0));
    EntriesIgnoreSymbol(b, ThreeSets(2.0, 2.0));
    ThreeSeriesDiffer();
  }

  lemma MixedOneByOne(a: string, e: string)
    ensures SameInputs(PerSymbolSets(Query("", "", 0, 1, 30), TWO_CAPS, [Rising(a), Rising(a), Flat(e)], NoTrades),
                       ThreeSets(1.0, 2.0))
  {
    assert Docs(Rising(a)) == TwoCandles(2.0) && Docs(Flat(e)) == TwoCandles(1.0);
    CutAll(Rising(a), NoTrades);
    CutAll(Flat(e), NoTrades);
    hide Rising, Flat, Docs, CursorLimit, WithFallback;
  }

  lemma MixedBatch(upper: string -> string)
    requires upper("A") != upper("E")
    ensures SameInputs(BatchedSets(upper, Query("", "", 0, 1, 30), TWO_CAPS, Mixed(upper("A"), upper("E")), NoTrades),
                       ThreeSets(2.0, 2.0))
  {
    var a, e := upper("A"), upper("E");
    MixedGroups(upper);
    LastCaps(upper);
    assert Docs(Rising(a)) == TwoCandles(2.0) && Docs(Flat(e)) == TwoCandles(1.0);
    CutAll(Rising(a), NoTrades);
    CutAll(Flat(e), NoTrades);
    hide Rising, Flat, Mixed, Group, CapBySymbol, Docs, Slice, WithFallback;
  }
}
