/** The candle form of the market index, and its relation to the scalar form. */
module MarketOhlc {
  import opened Basics
  import opened IntOrder
  import opened MarketIndex

  datatype OhlcPoint = OhlcPoint(openTime: int, open: real, high: real, low: real, close: real)

  /** One contribution: the four prices relative to the base close, weighted by market cap. */
  datatype OhlcEntry = OhlcEntry(time: int, open: real, high: real, low: real, close: real, weight: real)

  datatype OhlcAcc = OhlcAcc(open: real, high: real, low: real, close: real, weight: real)

  predicate AllPositive(d: Doc) {
    d.open > 0.0 && d.high > 0.0 && d.low > 0.0 && d.close > 0.0
  }

  function Relative(price: real, base: real, cap: real): real
    requires base > 0.0
  {
    price / base * cap
  }

  function OhlcEntryOf(s: KlineSet, d: Doc): OhlcEntry
    requires Usable(s)
  {
    var base := s.docs[0].close;
    OhlcEntry(d.openTime, Relative(d.open, base, s.marketCap), Relative(d.high, base, s.marketCap),
              Relative(d.low, base, s.marketCap), Relative(d.close, base, s.marketCap), s.marketCap)
  }

  function OhlcDocEntries(s: KlineSet, docs: seq<Doc>): seq<OhlcEntry>
    requires Usable(s)
  {
    if docs == [] then []
    else
      var before := OhlcDocEntries(s, docs[..|docs| - 1]);
      if AllPositive(docs[|docs| - 1]) then before + [OhlcEntryOf(s, docs[|docs| - 1])] else before
  }

  function OhlcEntries(sets: seq<KlineSet>): seq<OhlcEntry> {
    if sets == [] then []
    else
      var s := sets[|sets| - 1];
      var before := OhlcEntries(sets[..|sets| - 1]);
      if Usable(s) then before + OhlcDocEntries(s, s.docs) else before
  }

  datatype Side = Open | High | Low | Close

  function On(e: OhlcEntry, side: Side): Entry {
    Entry(e.time, match side case Open => e.open case High => e.high case Low => e.low case Close => e.close, e.weight)
  }

  /** The entries of one of the four prices. */
  function Along(es: seq<OhlcEntry>, side: Side): seq<Entry> {
    seq(|es|, i requires 0 <= i < |es| => On(es[i], side))
  }

  predicate PositiveOhlc(es: seq<OhlcEntry>) {
    forall i :: 0 <= i < |es| ==>
      es[i].open > 0.0 && es[i].high > 0.0 && es[i].low > 0.0 && es[i].close > 0.0 && es[i].weight > 0.0
  }

  lemma {:induction false} OhlcDocEntriesPositive(s: KlineSet, docs: seq<Doc>)
    requires Usable(s)
    ensures PositiveOhlc(OhlcDocEntries(s, docs))
  {
    if docs != [] {
      var d := docs[|docs| - 1];
      OhlcDocEntriesPositive(s, docs[..|docs| - 1]);
      if AllPositive(d) {
        Quotient(d.open, s.docs[0].close, s.marketCap);
        Quotient(d.high, s.docs[0].close, s.marketCap);
        Quotient(d.low, s.docs[0].close, s.marketCap);
        Quotient(d.close, s.docs[0].close, s.marketCap);
      }
    }
  }

  lemma {:induction false} OhlcEntriesPositive(sets: seq<KlineSet>)
    ensures PositiveOhlc(OhlcEntries(sets))
  {
    if sets != [] {
      OhlcEntriesPositive(sets[..|sets| - 1]);
      var s := sets[|sets| - 1];
      if Usable(s) { OhlcDocEntriesPositive(s, s.docs); }
    }
  }

  /** A point whose range is widened to hold open and close. */
  function Widened(p: OhlcPoint): OhlcPoint {
    p.(high := MaxR(MaxR(p.high, p.open), p.close), low := MinR(MinR(p.low, p.open), p.close))
  }

  function ScalePoint(p: OhlcPoint, scale: real): OhlcPoint {
    Widened(PlainScale(p, scale))
  }

  function Mul(a: real, b: real): real { a * b }

  function PlainScale(p: OhlcPoint, scale: real): OhlcPoint {
    OhlcPoint(p.openTime, Mul(p.open, scale), Mul(p.high, scale), Mul(p.low, scale), Mul(p.close, scale))
  }

  ghost function RawOhlcAt(es: seq<OhlcEntry>, time: int): OhlcPoint {
    OhlcPoint(time, IndexAt(Along(es, Open), time), IndexAt(Along(es, High), time),
              IndexAt(Along(es, Low), time), IndexAt(Along(es, Close), time))
  }

  ghost function OhlcTimes(es: seq<OhlcEntry>): set<int> {
    set e | e in es :: e.time
  }

  ghost function RawOhlc(es: seq<OhlcEntry>): seq<OhlcPoint> {
    var times := Ordered(OhlcTimes(es));
    seq(|times|, i requires 0 <= i < |times| => RawOhlcAt(es, times[i]))
  }

  function ScaledOhlc(raw: seq<OhlcPoint>, scale: real): seq<OhlcPoint> {
    seq(|raw|, i requires 0 <= i < |raw| => ScalePoint(raw[i], scale))
  }

  function PublishOhlc(raw: seq<OhlcPoint>, total: real): seq<OhlcPoint> {
    if |raw| < 2 || total <= 0.0 || raw[|raw| - 1].close <= 0.0 then []
    else ScaledOhlc(raw, total / raw[|raw| - 1].close)
  }

  ghost function OhlcPoints(constituents: seq<Constituent>, es: seq<OhlcEntry>): seq<OhlcPoint> {
    PublishOhlc(RawOhlc(es), TotalCap(constituents))
  }

  // ----- The one-pass loop -----

  ghost predicate OhlcAccumulated(acc: map<int, OhlcAcc>, es: seq<OhlcEntry>) {
    && acc.Keys == OhlcTimes(es)
    && forall t :: t in acc ==>
         acc[t] == OhlcAcc(ValueAt(Along(es, Open), t), ValueAt(Along(es, High), t), ValueAt(Along(es, Low), t),
                           ValueAt(Along(es, Close), t), WeightAt(Along(es, Close), t))
  }

  function AddOhlc(acc: map<int, OhlcAcc>, e: OhlcEntry): map<int, OhlcAcc> {
    var x := if e.time in acc then acc[e.time] else OhlcAcc(0.0, 0.0, 0.0, 0.0, 0.0);
    acc[e.time := OhlcAcc(x.open + e.open, x.high + e.high, x.low + e.low, x.close + e.close, x.weight + e.weight)]
  }

  lemma AlongTimes(es: seq<OhlcEntry>, side: Side)
    ensures Times(Along(es, side)) == OhlcTimes(es)
  {
    assert forall i :: 0 <= i < |es| ==> Along(es, side)[i].time == es[i].time && es[i] in es && Along(es, side)[i] in Along(es, side);
  }

  lemma AlongOneMore(es: seq<OhlcEntry>, e: OhlcEntry, side: Side, t: int)
    ensures ValueAt(Along(es + [e], side), t) == ValueAt(Along(es, side), t) + (if e.time == t then On(e, side).value else 0.0)
    ensures WeightAt(Along(es + [e], side), t) == WeightAt(Along(es, side), t) + (if e.time == t then e.weight else 0.0)
  {
    assert Along(es + [e], side)[..|es|] == Along(es, side);
  }

  lemma AbsentIsZero(es: seq<OhlcEntry>, side: Side, t: int)
    requires PositiveOhlc(es) && t !in OhlcTimes(es)
    ensures ValueAt(Along(es, side), t) == 0.0 && WeightAt(Along(es, side), t) == 0.0
  {
    AlongTimes(es, side);
    SumsPositive(Along(es, side), t);
  }

  lemma AddOhlcAccumulates(acc: map<int, OhlcAcc>, es: seq<OhlcEntry>, e: OhlcEntry)
    requires OhlcAccumulated(acc, es) && PositiveOhlc(es)
    ensures OhlcAccumulated(AddOhlc(acc, e), es + [e])
  {
    assert OhlcTimes(es + [e]) == OhlcTimes(es) + {e.time};
    forall t | t in OhlcTimes(es + [e])
      ensures AddOhlc(acc, e)[t] == OhlcAcc(
          ValueAt(Along(es + [e], Open), t), ValueAt(Along(es + [e], High), t), ValueAt(Along(es + [e], Low), t),
          ValueAt(Along(es + [e], Close), t), WeightAt(Along(es + [e], Close), t))
    {
      AlongOneMore(es, e, Open, t);
      AlongOneMore(es, e, High, t);
      AlongOneMore(es, e, Low, t);
      AlongOneMore(es, e, Close, t);
      if t !in OhlcTimes(es) {
        AbsentIsZero(es, Open, t);
        AbsentIsZero(es, High, t);
        AbsentIsZero(es, Low, t);
        AbsentIsZero(es, Close, t);
      }
    }
  }

  lemma {:induction false} SameWeights(es: seq<OhlcEntry>, side: Side, t: int)
    ensures WeightAt(Along(es, side), t) == WeightAt(Along(es, Close), t)
  {
    if es != [] {
      SameWeights(es[..|es| - 1], side, t);
      assert es == es[..|es| - 1] + [es[|es| - 1]];
      AlongOneMore(es[..|es| - 1], es[|es| - 1], side, t);
      AlongOneMore(es[..|es| - 1], es[|es| - 1], Close, t);
    }
  }

  function Divided(time: int, a: OhlcAcc): OhlcPoint
    requires a.weight > 0.0
  {
    OhlcPoint(time, a.open / a.weight, a.high / a.weight, a.low / a.weight, a.close / a.weight)
  }

  lemma RawOhlcAtTime(acc: map<int, OhlcAcc>, es: seq<OhlcEntry>, t: int)
    requires OhlcAccumulated(acc, es) && PositiveOhlc(es) && t in acc
    ensures acc[t].weight > 0.0 && Divided(t, acc[t]) == RawOhlcAt(es, t)
    ensures var p := RawOhlcAt(es, t); p.open > 0.0 && p.high > 0.0 && p.low > 0.0 && p.close > 0.0
  {
    RawPositiveAt(es, t);
    SameWeights(es, Open, t);
    SameWeights(es, High, t);
    SameWeights(es, Low, t);
    AlongTimes(es, Close);
    SumsPositive(Along(es, Close), t);
  }

  lemma RawPositiveAt(es: seq<OhlcEntry>, t: int)
    requires PositiveOhlc(es) && t in OhlcTimes(es)
    ensures var p := RawOhlcAt(es, t); p.open > 0.0 && p.high > 0.0 && p.low > 0.0 && p.close > 0.0
  {
    SidePositive(es, Open, t);
    SidePositive(es, High, t);
    SidePositive(es, Low, t);
    SidePositive(es, Close, t);
  }

  lemma SidePositive(es: seq<OhlcEntry>, side: Side, t: int)
    requires PositiveOhlc(es) && t in OhlcTimes(es)
    ensures IndexAt(Along(es, side), t) > 0.0
  {
    AlongTimes(es, side);
    SumsPositive(Along(es, side), t);
    Quotient(ValueAt(Along(es, side), t), WeightAt(Along(es, side), t), 1.0);
  }

  /** computeMarketTrendOHLCPoints. */
  method ComputeOhlcPoints(constituents: seq<Constituent>, sets: seq<KlineSet>) returns (points: seq<OhlcPoint>)
    ensures points == OhlcPoints(constituents, OhlcEntries(sets))
  {
    var acc: map<int, OhlcAcc> := map[];
    assert sets[..0] == [] && sets[..|sets|] == sets;
    hide TotalCap;
    for k := 0 to |sets|
      invariant OhlcAccumulated(acc, OhlcEntries(sets[..k]))
    {
      hide OhlcEntries, OhlcAccumulated, OhlcDocEntries, PositiveOhlc;
      OhlcEntriesOneMore(sets, k);
      OhlcEntriesPositive(sets[..k]);
      if Usable(sets[k]) {
        acc := AddOhlcSet(acc, sets[k], OhlcEntries(sets[..k]));
      }
    }
    hide OhlcEntries, OhlcAccumulated, PositiveOhlc, RawOhlc;
    OhlcEntriesPositive(sets);
    var raw := RawOhlcFrom(acc, OhlcEntries(sets));
    if |raw| < 2 { return []; }
    var latest := raw[|raw| - 1].close;
    if latest <= 0.0 { return []; }
    var total := SumCaps(constituents);
    if total <= 0.0 { return []; }
    points := ScaledOhlc(raw, total / latest);
  }

  lemma OhlcEntriesOneMore(sets: seq<KlineSet>, k: nat)
    requires k < |sets|
    ensures OhlcEntries(sets[..k + 1])
            == if Usable(sets[k]) then OhlcEntries(sets[..k]) + OhlcDocEntries(sets[k], sets[k].docs) else OhlcEntries(sets[..k])
  {
    assert sets[..k + 1][..k] == sets[..k];
  }

  function AddOhlcDoc(acc: map<int, OhlcAcc>, s: KlineSet, d: Doc): map<int, OhlcAcc>
    requires Usable(s)
  {
    if AllPositive(d) then AddOhlc(acc, OhlcEntryOf(s, d)) else acc
  }

  lemma AddOhlcDocAccumulates(acc: map<int, OhlcAcc>, es: seq<OhlcEntry>, s: KlineSet, docs: seq<Doc>, d: Doc)
    requires Usable(s) && PositiveOhlc(es) && OhlcAccumulated(acc, es + OhlcDocEntries(s, docs))
    ensures OhlcAccumulated(AddOhlcDoc(acc, s, d), es + OhlcDocEntries(s, docs + [d]))
  {
    assert (docs + [d])[..|docs|] == docs;
    if AllPositive(d) {
      OhlcDocEntriesPositive(s, docs);
      AddOhlcAccumulates(acc, es + OhlcDocEntries(s, docs), OhlcEntryOf(s, d));
      assert es + OhlcDocEntries(s, docs) + [OhlcEntryOf(s, d)] == es + OhlcDocEntries(s, docs + [d]);
    }
  }

  method AddOhlcSet(before: map<int, OhlcAcc>, s: KlineSet, ghost es: seq<OhlcEntry>) returns (acc: map<int, OhlcAcc>)
    requires Usable(s) && PositiveOhlc(es) && OhlcAccumulated(before, es)
    ensures OhlcAccumulated(acc, es + OhlcDocEntries(s, s.docs))
  {
    acc := before;
    assert es + [] == es;
    for i := 0 to |s.docs|
      invariant OhlcAccumulated(acc, es + OhlcDocEntries(s, s.docs[..i]))
    {
      assert s.docs[..i + 1] == s.docs[..i] + [s.docs[i]];
      AddOhlcDocAccumulates(acc, es, s, s.docs[..i], s.docs[i]);
      acc := AddOhlcDoc(acc, s, s.docs[i]);
    }
    assert s.docs[..|s.docs|] == s.docs;
  }

  lemma RawOhlcStep(acc: map<int, OhlcAcc>, es: seq<OhlcEntry>, i: nat)
    requires OhlcAccumulated(acc, es) && PositiveOhlc(es) && i < |Ordered(acc.Keys)|
    ensures |RawOhlc(es)| == |Ordered(acc.Keys)|
    ensures var t := Ordered(acc.Keys)[i];
            && t in acc && acc[t].weight > 0.0 && RawOhlc(es)[i] == Divided(t, acc[t])
            && var p := Divided(t, acc[t]); p.open > 0.0 && p.high > 0.0 && p.low > 0.0 && p.close > 0.0
  {
    var t := Ordered(acc.Keys)[i];
    assert t in Members(Ordered(acc.Keys));
    RawOhlcAtTime(acc, es, t);
    hide RawOhlcAt, Divided, PositiveOhlc;
  }

  method RawOhlcFrom(acc: map<int, OhlcAcc>, ghost es: seq<OhlcEntry>) returns (raw: seq<OhlcPoint>)
    requires OhlcAccumulated(acc, es) && PositiveOhlc(es)
    ensures raw == RawOhlc(es)
  {
    var times := Sorted(acc.Keys);
    ghost var all := RawOhlc(es);
    assert |all| == |times|;
    hide *;
    raw := [];
    for i := 0 to |times|
      invariant raw == all[..i]
    {
      RawOhlcStep(acc, es, i);
      var a := acc[times[i]];
      if a.weight > 0.0 {
        var p := Divided(times[i], a);
        if p.open > 0.0 && p.high > 0.0 && p.low > 0.0 && p.close > 0.0 {
          raw := raw + [p];
        }
      }
    }
  }
}
