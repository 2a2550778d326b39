/** Laws of the candle index, and its agreement with the scalar index. */
module MarketOhlcLaws {
  import opened Basics
  import opened IntOrder
  import opened MarketIndex
  import opened MarketOhlc

  lemma {:induction false} LowerValues(a: seq<Entry>, b: seq<Entry>, t: int)
    requires |a| == |b|
    requires forall i :: 0 <= i < |a| ==> a[i].time == b[i].time && a[i].weight == b[i].weight && a[i].value <= b[i].value
    ensures ValueAt(a, t) <= ValueAt(b, t) && WeightAt(a, t) == WeightAt(b, t)
  {
    if a != [] {
      LowerValues(a[..|a| - 1], b[..|b| - 1], t);
    }
  }

  lemma DivideBoth(a: real, b: real, w: real)
    requires a <= b && w > 0.0
    ensures a / w <= b / w
  {
  }

  lemma MultiplyBoth(a: real, b: real, k: real)
    requires a <= b && k > 0.0
    ensures Mul(a, k) <= Mul(b, k)
  {
  }

  /** One price below another in every entry is below it in the index. */
  lemma SideOrder(es: seq<OhlcEntry>, lo: Side, hi: Side, t: int)
    requires PositiveOhlc(es)
    requires forall i :: 0 <= i < |es| ==> On(es[i], lo).value <= On(es[i], hi).value
    ensures IndexAt(Along(es, lo), t) <= IndexAt(Along(es, hi), t)
  {
    LowerValues(Along(es, lo), Along(es, hi), t);
    if WeightAt(Along(es, lo), t) > 0.0 {
      DivideBoth(ValueAt(Along(es, lo), t), ValueAt(Along(es, hi), t), WeightAt(Along(es, lo), t));
    }
  }

  predicate WellFormedDoc(d: Doc) {
    d.low <= d.open <= d.high && d.low <= d.close <= d.high
  }

  predicate WellFormedEntry(e: OhlcEntry) {
    e.low <= e.open <= e.high && e.low <= e.close <= e.high
  }

  lemma RelativeOrder(a: real, b: real, base: real, cap: real)
    requires a <= b && base > 0.0 && cap > 0.0
    ensures Relative(a, base, cap) <= Relative(b, base, cap)
  {
    DivideBoth(a, b, base);
    MultiplyBoth(a / base, b / base, cap);
  }

  lemma {:induction false} EntriesWellFormed(s: KlineSet, docs: seq<Doc>)
    requires Usable(s) && forall d :: d in docs ==> WellFormedDoc(d)
    ensures forall e :: e in OhlcDocEntries(s, docs) ==> WellFormedEntry(e)
  {
    if docs != [] {
      var d, base, cap := docs[|docs| - 1], s.docs[0].close, s.marketCap;
      EntriesWellFormed(s, docs[..|docs| - 1]);
      assert d in docs;
      RelativeOrder(d.low, d.open, base, cap);
      RelativeOrder(d.open, d.high, base, cap);
      RelativeOrder(d.low, d.close, base, cap);
      RelativeOrder(d.close, d.high, base, cap);
    }
  }

  lemma {:induction false} AllEntriesWellFormed(sets: seq<KlineSet>)
    requires forall s, d :: s in sets && d in s.docs ==> WellFormedDoc(d)
    ensures forall e :: e in OhlcEntries(sets) ==> WellFormedEntry(e)
  {
    if sets != [] {
      var s := sets[|sets| - 1];
      assert s in sets;
      AllEntriesWellFormed(sets[..|sets| - 1]);
      if Usable(s) { EntriesWellFormed(s, s.docs); }
    }
  }

  lemma RawOrdered(es: seq<OhlcEntry>, t: int)
    requires PositiveOhlc(es) && forall e :: e in es ==> WellFormedEntry(e)
    ensures var p := RawOhlcAt(es, t); p.low <= p.open <= p.high && p.low <= p.close <= p.high
  {
    assert forall i :: 0 <= i < |es| ==> es[i] in es;
    SideOrder(es, Low, Open, t);
    SideOrder(es, Open, High, t);
    SideOrder(es, Low, Close, t);
    SideOrder(es, Close, High, t);
  }

  lemma ClampDoesNothing(p: OhlcPoint, scale: real)
    requires scale > 0.0 && p.low <= p.open <= p.high && p.low <= p.close <= p.high
    ensures ScalePoint(p, scale) == PlainScale(p, scale)
  {
    var q := PlainScale(p, scale);
    assert q.low <= q.open by { MultiplyBoth(p.low, p.open, scale); }
    assert q.open <= q.high by { MultiplyBoth(p.open, p.high, scale); }
    assert q.low <= q.close by { MultiplyBoth(p.low, p.close, scale); }
    assert q.close <= q.high by { MultiplyBoth(p.close, p.high, scale); }
    assert Widened(q) == q;
  }

  /** On well-formed candles the final widening of each point changes nothing. */
  lemma ClampIsNoOp(constituents: seq<Constituent>, sets: seq<KlineSet>, i: nat)
    requires forall s, d :: s in sets && d in s.docs ==> WellFormedDoc(d)
    requires i < |OhlcPoints(constituents, OhlcEntries(sets))|
    ensures var raw := RawOhlc(OhlcEntries(sets));
            i < |raw| && raw[|raw| - 1].close > 0.0 &&
            OhlcPoints(constituents, OhlcEntries(sets))[i]
            == PlainScale(raw[i], TotalCap(constituents) / raw[|raw| - 1].close)
  {
    var es := OhlcEntries(sets);
    OhlcEntriesPositive(sets);
    AllEntriesWellFormed(sets);
    var raw := RawOhlc(es);
    RawOrdered(es, raw[i].openTime);
    Rescale(TotalCap(constituents), raw[|raw| - 1].close);
    ClampDoesNothing(raw[i], TotalCap(constituents) / raw[|raw| - 1].close);
  }

  predicate PositivePoint(p: OhlcPoint) {
    p.open > 0.0 && p.high > 0.0 && p.low > 0.0 && p.close > 0.0
  }

  lemma RawOhlcPositive(es: seq<OhlcEntry>)
    requires PositiveOhlc(es)
    ensures forall i :: 0 <= i < |RawOhlc(es)| ==> PositivePoint(RawOhlc(es)[i])
    ensures forall i, j :: 0 <= i < j < |RawOhlc(es)| ==> RawOhlc(es)[i].openTime < RawOhlc(es)[j].openTime
  {
    var times := Ordered(OhlcTimes(es));
    forall i | 0 <= i < |times| ensures PositivePoint(RawOhlcAt(es, times[i])) {
      assert times[i] in Members(times);
      RawPositiveAt(es, times[i]);
    }
  }

  /** Strictly increasing times, positive prices, low <= open, close <= high, and the last close is the total. */
  predicate CandleShaped(r: seq<OhlcPoint>, total: real) {
    && (forall i, j :: 0 <= i < j < |r| ==> r[i].openTime < r[j].openTime)
    && (forall i :: 0 <= i < |r| ==>
          r[i].low <= r[i].open <= r[i].high && r[i].low <= r[i].close <= r[i].high && PositivePoint(r[i]))
    && (r != [] ==> r[|r| - 1].close == total)
  }

  lemma WidenedHolds(p: OhlcPoint)
    requires PositivePoint(p)
    ensures var r := Widened(p);
            && r.low <= r.open <= r.high && r.low <= r.close <= r.high && PositivePoint(r)
            && r.open == p.open && r.close == p.close && r.openTime == p.openTime
  {
  }

  lemma ScaledPositive(p: OhlcPoint, scale: real)
    requires PositivePoint(p) && scale > 0.0
    ensures var r := PlainScale(p, scale);
            PositivePoint(r) && r.close == p.close * scale && r.openTime == p.openTime
  {
    Product(p.open, scale);
    Product(p.high, scale);
    Product(p.low, scale);
    Product(p.close, scale);
  }

  lemma ScaledCandleLaws(raw: seq<OhlcPoint>, scale: real, total: real)
    requires raw != [] && scale > 0.0 && raw[|raw| - 1].close * scale == total
    requires forall i :: 0 <= i < |raw| ==> PositivePoint(raw[i])
    requires forall i, j :: 0 <= i < j < |raw| ==> raw[i].openTime < raw[j].openTime
    ensures CandleShaped(ScaledOhlc(raw, scale), total)
  {
    hide PlainScale, Widened, PositivePoint;
    var r := ScaledOhlc(raw, scale);
    forall i | 0 <= i < |raw|
      ensures PositivePoint(r[i]) && r[i].low <= r[i].open <= r[i].high && r[i].low <= r[i].close <= r[i].high
      ensures r[i].close == raw[i].close * scale && r[i].openTime == raw[i].openTime
    {
      ScaledPositive(raw[i], scale);
      WidenedHolds(PlainScale(raw[i], scale));
    }
  }

  lemma PublishedCandleLaws(raw: seq<OhlcPoint>, total: real)
    requires forall i :: 0 <= i < |raw| ==> PositivePoint(raw[i])
    requires forall i, j :: 0 <= i < j < |raw| ==> raw[i].openTime < raw[j].openTime
    ensures CandleShaped(PublishOhlc(raw, total), total)
    ensures PublishOhlc(raw, total) == [] <==> |raw| < 2 || total <= 0.0
  {
    if |raw| >= 2 && total > 0.0 {
      var last := raw[|raw| - 1].close;
      Rescale(total, last);
      ScaledCandleLaws(raw, total / last, total);
    }
  }

  /** Whatever the input candles look like; nothing is published only with fewer than two times or no
      market cap. */
  lemma OhlcLaws(constituents: seq<Constituent>, sets: seq<KlineSet>)
    ensures CandleShaped(OhlcPoints(constituents, OhlcEntries(sets)), TotalCap(constituents))
    ensures OhlcPoints(constituents, OhlcEntries(sets)) == [] <==>
            |Ordered(OhlcTimes(OhlcEntries(sets)))| < 2 || TotalCap(constituents) <= 0.0
  {
    OhlcEntriesPositive(sets);
    RawOhlcPositive(OhlcEntries(sets));
    PublishedCandleLaws(RawOhlc(OhlcEntries(sets)), TotalCap(constituents));
  }

  // ----- Agreement with the scalar index -----

  /** Every document the scalar index counts has four positive prices. */
  ghost predicate CountedArePositive(sets: seq<KlineSet>) {
    forall s, d :: s in sets && Usable(s) && d in s.docs && d.close > 0.0 ==> AllPositive(d)
  }

  lemma {:induction false} SameDocEntries(s: KlineSet, docs: seq<Doc>)
    requires Usable(s) && forall d :: d in docs && d.close > 0.0 ==> AllPositive(d)
    ensures Along(OhlcDocEntries(s, docs), Close) == DocEntries(s, docs)
  {
    if docs != [] {
      var d := docs[|docs| - 1];
      assert d in docs;
      SameDocEntries(s, docs[..|docs| - 1]);
      assert On(OhlcEntryOf(s, d), Close) == EntryOf(s, d);
      var before := OhlcDocEntries(s, docs[..|docs| - 1]);
      assert Along(before + [OhlcEntryOf(s, d)], Close) == Along(before, Close) + [On(OhlcEntryOf(s, d), Close)];
    }
  }

  lemma AlongConcat(a: seq<OhlcEntry>, b: seq<OhlcEntry>, side: Side)
    ensures Along(a + b, side) == Along(a, side) + Along(b, side)
  {
  }

  lemma {:induction false} SameEntries(sets: seq<KlineSet>)
    requires CountedArePositive(sets)
    ensures Along(OhlcEntries(sets), Close) == Entries(sets)
  {
    if sets != [] {
      var s := sets[|sets| - 1];
      assert s in sets;
      SameEntries(sets[..|sets| - 1]);
      if Usable(s) {
        SameDocEntries(s, s.docs);
        AlongConcat(OhlcEntries(sets[..|sets| - 1]), OhlcDocEntries(s, s.docs), Close);
      }
      hide Along, DocEntries, OhlcDocEntries, AllPositive;
    }
  }

  predicate SameSeries(scalar: seq<Point>, candles: seq<OhlcPoint>) {
    && |scalar| == |candles|
    && forall i :: 0 <= i < |scalar| ==> scalar[i] == Point(candles[i].openTime, candles[i].close)
  }

  lemma SameRaw(es: seq<OhlcEntry>)
    ensures SameSeries(RawPoints(Along(es, Close)), RawOhlc(es))
  {
    AlongTimes(es, Close);
  }

  lemma SameScaled(scalar: seq<Point>, candles: seq<OhlcPoint>, scale: real)
    requires SameSeries(scalar, candles)
    ensures SameSeries(Scaled(scalar, scale), ScaledOhlc(candles, scale))
  {
  }

  /** The closes of the candle index are the scalar index. */
  lemma CloseSeriesIsScalar(constituents: seq<Constituent>, sets: seq<KlineSet>)
    requires CountedArePositive(sets)
    ensures SameSeries(Points(constituents, Entries(sets)), OhlcPoints(constituents, OhlcEntries(sets)))
  {
    SameEntries(sets);
    SameFromEntries(constituents, OhlcEntries(sets));
  }

  lemma SameFromEntries(constituents: seq<Constituent>, es: seq<OhlcEntry>)
    ensures SameSeries(Points(constituents, Along(es, Close)), OhlcPoints(constituents, es))
  {
    SameRaw(es);
    SamePublished(RawPoints(Along(es, Close)), RawOhlc(es), TotalCap(constituents));
  }

  lemma SamePublished(scalar: seq<Point>, candles: seq<OhlcPoint>, total: real)
    requires SameSeries(scalar, candles)
    ensures SameSeries(Publish(scalar, total), PublishOhlc(candles, total))
  {
    if |candles| >= 2 && total > 0.0 && candles[|candles| - 1].close > 0.0 {
      SameScaled(scalar, candles, total / candles[|candles| - 1].close);
    }
  }

  const GOOD := Doc(0, 1.0, 1.0, 1.0, 1.0)
  const BAD := Doc(1, 1.0, 1.0, 0.0, 1.0)
  const ONE_SET := KlineSet("A", 1.0, [GOOD, BAD])

  lemma ScalarCountsBoth()
    ensures Times(Entries([ONE_SET])) == {0, 1}
  {
    var s := ONE_SET;
    assert [s][..0] == [] && s.docs[..1] == [GOOD] && [GOOD][..0] == [];
    assert DocEntries(s, [GOOD]) == [EntryOf(s, GOOD)];
    assert Entries([s]) == [EntryOf(s, GOOD), EntryOf(s, BAD)];
    assert EntryOf(s, GOOD) in Entries([s]) && EntryOf(s, BAD) in Entries([s]);
  }

  lemma CandlesCountOne()
    ensures OhlcTimes(OhlcEntries([ONE_SET])) == {0}
  {
    var s := ONE_SET;
    assert [s][..0] == [] && s.docs[..1] == [GOOD] && [GOOD][..0] == [];
    assert OhlcDocEntries(s, [GOOD]) == [OhlcEntryOf(s, GOOD)];
    assert OhlcEntries([s]) == [OhlcEntryOf(s, GOOD)];
  }

  /** Without that condition the two can differ: a zero low makes the candle index skip a time. */
  lemma CloseSeriesCanDiffer()
    ensures exists constituents, sets ::
              Points(constituents, Entries(sets)) != [] && OhlcPoints(constituents, OhlcEntries(sets)) == []
  {
    var constituents := [Constituent("A", 1.0)];
    ScalarCountsBoth();
    CandlesCountOne();
    AscendingUnique(Ordered({0}), [0]);
    AscendingUnique(Ordered({0, 1}), [0, 1]);
    IndexLaws(constituents, [ONE_SET]);
    OhlcLaws(constituents, [ONE_SET]);
    assert constituents[..0] == [];
    assert TotalCap(constituents) == 1.0;
    hide *;
    assert OhlcPoints(constituents, OhlcEntries([ONE_SET])) == [];
  }
}
