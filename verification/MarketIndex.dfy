/** The market-cap-weighted index: per time, the weighted mean of each constituent's close relative
    to its first close, scaled so that the last value is the total market cap. */
module MarketIndex {
  import opened IntOrder

  datatype Constituent = Constituent(symbol: string, marketCap: real)
  datatype Doc = Doc(openTime: int, open: real, high: real, low: real, close: real)
  datatype KlineSet = KlineSet(symbol: string, marketCap: real, docs: seq<Doc>)
  datatype Point = Point(openTime: int, value: real)

  /** One weighted contribution to the index at a time. */
  datatype Entry = Entry(time: int, value: real, weight: real)

  datatype Acc = Acc(weightedIndex: real, weight: real)

  predicate Usable(s: KlineSet) {
    |s.docs| >= 2 && s.docs[0].close > 0.0 && s.marketCap > 0.0
  }

  /** A close relative to the set's first close, weighted by market cap. */
  function EntryOf(s: KlineSet, d: Doc): Entry
    requires Usable(s)
  {
    Entry(d.openTime, d.close / s.docs[0].close * s.marketCap, s.marketCap)
  }

  /** Contributions of the closes of one set's documents. */
  function DocEntries(s: KlineSet, docs: seq<Doc>): seq<Entry>
    requires Usable(s)
  {
    if docs == [] then []
    else
      var d := docs[|docs| - 1];
      var before := DocEntries(s, docs[..|docs| - 1]);
      if d.close <= 0.0 then before
      else before + [EntryOf(s, d)]
  }

  function Entries(sets: seq<KlineSet>): seq<Entry> {
    if sets == [] then []
    else
      var s := sets[|sets| - 1];
      var before := Entries(sets[..|sets| - 1]);
      if Usable(s) then before + DocEntries(s, s.docs) else before
  }

  function ValueAt(es: seq<Entry>, time: int): real {
    if es == [] then 0.0
    else
      var e := es[|es| - 1];
      ValueAt(es[..|es| - 1], time) + (if e.time == time then e.value else 0.0)
  }

  function WeightAt(es: seq<Entry>, time: int): real {
    if es == [] then 0.0
    else
      var e := es[|es| - 1];
      WeightAt(es[..|es| - 1], time) + (if e.time == time then e.weight else 0.0)
  }

  ghost function Times(es: seq<Entry>): set<int> {
    set e | e in es :: e.time
  }

  predicate Positive(es: seq<Entry>) {
    forall i :: 0 <= i < |es| ==> es[i].value > 0.0 && es[i].weight > 0.0
  }

  function IndexAt(es: seq<Entry>, time: int): real {
    MeanOf(Acc(ValueAt(es, time), WeightAt(es, time)))
  }

  function MeanOf(a: Acc): real {
    if a.weight > 0.0 then a.weightedIndex / a.weight else 0.0
  }

  function TotalCap(constituents: seq<Constituent>): real {
    if constituents == [] then 0.0
    else TotalCap(constituents[..|constituents| - 1]) + constituents[|constituents| - 1].marketCap
  }

  lemma {:induction false} EntriesPositive(sets: seq<KlineSet>)
    ensures Positive(Entries(sets))
  {
    if sets != [] {
      EntriesPositive(sets[..|sets| - 1]);
      var s := sets[|sets| - 1];
      if Usable(s) { DocEntriesPositive(s, s.docs); }
    }
  }

  lemma Quotient(a: real, b: real, c: real)
    requires a > 0.0 && b > 0.0 && c > 0.0
    ensures a / b > 0.0 && a / b * c > 0.0
  {
  }

  lemma {:induction false} DocEntriesPositive(s: KlineSet, docs: seq<Doc>)
    requires Usable(s)
    ensures Positive(DocEntries(s, docs))
  {
    if docs != [] {
      var d := docs[|docs| - 1];
      DocEntriesPositive(s, docs[..|docs| - 1]);
      if d.close > 0.0 { Quotient(d.close, s.docs[0].close, s.marketCap); }
    }
  }

  /** Sums are positive exactly at the times that have an entry. */
  lemma {:induction false} SumsPositive(es: seq<Entry>, time: int)
    requires Positive(es)
    ensures time in Times(es) ==> ValueAt(es, time) > 0.0 && WeightAt(es, time) > 0.0
    ensures time !in Times(es) ==> ValueAt(es, time) == 0.0 && WeightAt(es, time) == 0.0
  {
    if es != [] {
      var last := |es| - 1;
      SumsPositive(es[..last], time);
      assert es == es[..last] + [es[last]];
      assert Times(es) == Times(es[..last]) + {es[last].time};
    }
  }

  /** The index before scaling, in time order. */
  ghost function RawPoints(es: seq<Entry>): seq<Point> {
    var times := Ordered(Times(es));
    seq(|times|, i requires 0 <= i < |times| => Point(times[i], IndexAt(es, times[i])))
  }

  function Scaled(raw: seq<Point>, scale: real): seq<Point> {
    seq(|raw|, i requires 0 <= i < |raw| => Point(raw[i].openTime, raw[i].value * scale))
  }

  /** The published series: nothing when fewer than two times or no market cap. */
  function Publish(raw: seq<Point>, total: real): seq<Point> {
    if |raw| < 2 || total <= 0.0 || raw[|raw| - 1].value <= 0.0 then []
    else Scaled(raw, total / raw[|raw| - 1].value)
  }

  ghost function Points(constituents: seq<Constituent>, es: seq<Entry>): seq<Point> {
    Publish(RawPoints(es), TotalCap(constituents))
  }

  lemma RawPointsPositive(es: seq<Entry>)
    requires Positive(es)
    ensures forall i :: 0 <= i < |RawPoints(es)| ==> RawPoints(es)[i].value > 0.0
    ensures forall i, j :: 0 <= i < j < |RawPoints(es)| ==> RawPoints(es)[i].openTime < RawPoints(es)[j].openTime
  {
    var times := Ordered(Times(es));
    forall i | 0 <= i < |times| ensures IndexAt(es, times[i]) > 0.0 {
      assert times[i] in Members(times);
      SumsPositive(es, times[i]);
      Quotient(ValueAt(es, times[i]), WeightAt(es, times[i]), 1.0);
    }
  }

  lemma RawPointAt(es: seq<Entry>, i: nat)
    requires Positive(es) && i < |Ordered(Times(es))|
    ensures var t := Ordered(Times(es))[i];
            RawPoints(es)[i] == Point(t, MeanOf(Acc(ValueAt(es, t), WeightAt(es, t)))) && RawPoints(es)[i].value > 0.0
  {
    RawPointsPositive(es);
  }

  lemma Rescale(total: real, last: real)
    requires total > 0.0 && last > 0.0
    ensures total / last > 0.0 && last * (total / last) == total
  {
  }

  lemma Product(a: real, b: real)
    requires a > 0.0 && b > 0.0
    ensures a * b > 0.0
  {
  }

  /** Strictly increasing times, positive values, ending at `total`. */
  predicate WellShaped(r: seq<Point>, total: real) {
    && (forall i, j :: 0 <= i < j < |r| ==> r[i].openTime < r[j].openTime)
    && (forall i :: 0 <= i < |r| ==> r[i].value > 0.0)
    && (r != [] ==> r[|r| - 1].value == total)
  }

  lemma ScaledLaws(raw: seq<Point>, scale: real, total: real)
    requires raw != [] && scale > 0.0 && raw[|raw| - 1].value * scale == total
    requires forall i :: 0 <= i < |raw| ==> raw[i].value > 0.0
    requires forall i, j :: 0 <= i < j < |raw| ==> raw[i].openTime < raw[j].openTime
    ensures WellShaped(Scaled(raw, scale), total)
  {
    forall i | 0 <= i < |raw| ensures raw[i].value * scale > 0.0 {
      Product(raw[i].value, scale);
    }
  }

  lemma PublishLaws(raw: seq<Point>, total: real)
    requires forall i :: 0 <= i < |raw| ==> raw[i].value > 0.0
    requires forall i, j :: 0 <= i < j < |raw| ==> raw[i].openTime < raw[j].openTime
    ensures WellShaped(Publish(raw, total), total)
    ensures Publish(raw, total) == [] <==> |raw| < 2 || total <= 0.0
  {
    if |raw| >= 2 && total > 0.0 {
      var last := raw[|raw| - 1].value;
      Rescale(total, last);
      ScaledLaws(raw, total / last, total);
    }
  }

  /** Every published series has strictly increasing times and positive values, and ends at the total
      market cap of the constituents; it is empty only with fewer than two times or no market cap. */
  lemma IndexLaws(constituents: seq<Constituent>, sets: seq<KlineSet>)
    ensures WellShaped(Points(constituents, Entries(sets)), TotalCap(constituents))
    ensures Points(constituents, Entries(sets)) == [] <==>
            |Ordered(Times(Entries(sets)))| < 2 || TotalCap(constituents) <= 0.0
  {
    EntriesPositive(sets);
    RawPointsPositive(Entries(sets));
    PublishLaws(RawPoints(Entries(sets)), TotalCap(constituents));
  }

  /** Accumulators of a one-pass loop over entries. */
  ghost predicate Accumulated(acc: map<int, Acc>, es: seq<Entry>) {
    && acc.Keys == Times(es)
    && forall t :: t in acc ==> acc[t] == Acc(ValueAt(es, t), WeightAt(es, t))
  }

  function AddEntry(acc: map<int, Acc>, e: Entry): map<int, Acc> {
    var existing := if e.time in acc then acc[e.time] else Acc(0.0, 0.0);
    acc[e.time := Acc(existing.weightedIndex + e.value, existing.weight + e.weight)]
  }

  lemma AddEntryAccumulates(acc: map<int, Acc>, es: seq<Entry>, e: Entry)
    requires Accumulated(acc, es) && Positive(es)
    ensures Accumulated(AddEntry(acc, e), es + [e])
  {
    assert (es + [e])[..|es|] == es;
    assert Times(es + [e]) == Times(es) + {e.time};
    SumsPositive(es, e.time);
  }

  /** computeMarketTrendPoints. */
  method ComputePoints(constituents: seq<Constituent>, sets: seq<KlineSet>) returns (points: seq<Point>)
    ensures points == Points(constituents, Entries(sets))
  {
    var acc: map<int, Acc> := map[];
    assert sets[..0] == [] && sets[..|sets|] == sets;
    hide TotalCap;
    for k := 0 to |sets|
      invariant Accumulated(acc, Entries(sets[..k]))
    {
      hide Entries, Accumulated, DocEntries, Positive;
      EntriesOneMore(sets, k);
      EntriesPositive(sets[..k]);
      if Usable(sets[k]) {
        acc := AddSet(acc, sets[k], Entries(sets[..k]));
      }
    }
    hide Entries, Accumulated, Positive, RawPoints;
    EntriesPositive(sets);
    var raw := RawFrom(acc, Entries(sets));
    if |raw| < 2 { return []; }
    var latest := raw[|raw| - 1].value;
    if latest <= 0.0 { return []; }
    var total := SumCaps(constituents);
    if total <= 0.0 { return []; }
    points := Scaled(raw, total / latest);
  }

  lemma EntriesOneMore(sets: seq<KlineSet>, k: nat)
    requires k < |sets|
    ensures Entries(sets[..k + 1])
            == if Usable(sets[k]) then Entries(sets[..k]) + DocEntries(sets[k], sets[k].docs) else Entries(sets[..k])
  {
    assert sets[..k + 1][..k] == sets[..k];
  }

  method SumCaps(constituents: seq<Constituent>) returns (total: real)
    ensures total == TotalCap(constituents)
  {
    total := 0.0;
    for i := 0 to |constituents|
      invariant total == TotalCap(constituents[..i])
    {
      assert constituents[..i + 1][..i] == constituents[..i];
      total := total + constituents[i].marketCap;
    }
    assert constituents[..|constituents|] == constituents;
  }

  lemma RawStep(acc: map<int, Acc>, es: seq<Entry>, i: nat)
    requires Accumulated(acc, es) && Positive(es) && i < |Ordered(acc.Keys)|
    ensures |RawPoints(es)| == |Ordered(acc.Keys)|
    ensures var t := Ordered(acc.Keys)[i];
            t in acc && RawPoints(es)[i] == Point(t, MeanOf(acc[t])) && MeanOf(acc[t]) > 0.0
  {
    assert Ordered(acc.Keys)[i] in Members(Ordered(acc.Keys));
    RawPointAt(es, i);
  }

  /** The map's entries as index values, without the non-positive ones, in time order. */
  method RawFrom(acc: map<int, Acc>, ghost es: seq<Entry>) returns (raw: seq<Point>)
    requires Accumulated(acc, es) && Positive(es)
    ensures raw == RawPoints(es)
  {
    var times := Sorted(acc.Keys);
    ghost var all := RawPoints(es);
    assert |all| == |times|;
    hide *;
    raw := [];
    for i := 0 to |times|
      invariant raw == all[..i]
    {
      RawStep(acc, es, i);
      var index := MeanOf(acc[times[i]]);
      if index > 0.0 {
        raw := raw + [Point(times[i], index)];
      }
    }
  }

  function AddDoc(acc: map<int, Acc>, s: KlineSet, d: Doc): map<int, Acc>
    requires Usable(s)
  {
    if d.close > 0.0 then AddEntry(acc, EntryOf(s, d)) else acc
  }

  lemma AddDocAccumulates(acc: map<int, Acc>, es: seq<Entry>, s: KlineSet, docs: seq<Doc>, d: Doc)
    requires Usable(s) && Positive(es) && Accumulated(acc, es + DocEntries(s, docs))
    ensures Accumulated(AddDoc(acc, s, d), es + DocEntries(s, docs + [d]))
  {
    assert (docs + [d])[..|docs|] == docs;
    if d.close > 0.0 {
      DocEntriesPositive(s, docs);
      AddEntryAccumulates(acc, es + DocEntries(s, docs), EntryOf(s, d));
      assert es + DocEntries(s, docs) + [EntryOf(s, d)] == es + DocEntries(s, docs + [d]);
    }
  }

  method AddSet(before: map<int, Acc>, s: KlineSet, ghost es: seq<Entry>) returns (acc: map<int, Acc>)
    requires Usable(s) && Positive(es) && Accumulated(before, es)
    ensures Accumulated(acc, es + DocEntries(s, s.docs))
  {
    acc := before;
    assert es + [] == es;
    for i := 0 to |s.docs|
      invariant Accumulated(acc, es + DocEntries(s, s.docs[..i]))
    {
      assert s.docs[..i + 1] == s.docs[..i] + [s.docs[i]];
      AddDocAccumulates(acc, es, s, s.docs[..i], s.docs[i]);
      acc := AddDoc(acc, s, s.docs[i]);
    }
    assert s.docs[..|s.docs|] == s.docs;
  }
}
