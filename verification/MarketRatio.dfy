/** What the index measures: each price relative to its constituent's first close. */
module MarketRatio {
  import opened IntOrder
  import opened MarketIndex
  import opened MarketOhlc

  /** A candle quoted in another unit. */
  function Rescaled(d: Doc, k: real): Doc {
    Doc(d.openTime, Mul(d.open, k), Mul(d.high, k), Mul(d.low, k), Mul(d.close, k))
  }

  function RescaledSet(s: KlineSet, k: real): KlineSet {
    KlineSet(s.symbol, s.marketCap, seq(|s.docs|, i requires 0 <= i < |s.docs| => Rescaled(s.docs[i], k)))
  }

  lemma SamePositive(a: real, k: real)
    requires k > 0.0
    ensures Mul(a, k) > 0.0 <==> a > 0.0
  {
    if a > 0.0 { Product(a, k); } else if a < 0.0 { Product(-a, k); }
  }

  lemma SameRatio(a: real, b: real, k: real)
    requires k > 0.0 && b > 0.0
    ensures b * k > 0.0 && (a * k) / (b * k) == a / b
  {
    Product(b, k);
    var q := a / b;
    assert q * b == a;
    assert q * (b * k) == a * k;
    QuotientIs(q, b * k, a * k);
  }

  lemma QuotientIs(q: real, w: real, total: real)
    requires w > 0.0 && q * w == total
    ensures total / w == q
  {
  }

  lemma SameSigns(d: Doc, k: real)
    requires k > 0.0
    ensures (Rescaled(d, k).close <= 0.0 <==> d.close <= 0.0) && (AllPositive(Rescaled(d, k)) <==> AllPositive(d))
  {
    SamePositive(d.open, k);
    SamePositive(d.high, k);
    SamePositive(d.low, k);
    SamePositive(d.close, k);
  }

  lemma SameEntry(s: KlineSet, d: Doc, k: real)
    requires k > 0.0 && Usable(s) && Usable(RescaledSet(s, k))
    ensures EntryOf(RescaledSet(s, k), Rescaled(d, k)) == EntryOf(s, d)
    ensures OhlcEntryOf(RescaledSet(s, k), Rescaled(d, k)) == OhlcEntryOf(s, d)
  {
    var t, r, base, cap := RescaledSet(s, k), Rescaled(d, k), s.docs[0].close, s.marketCap;
    hide Relative, Mul;
    assert t.docs[0].close == Mul(base, k) && t.marketCap == cap;
    SameRelative(d.open, base, k, cap);
    SameRelative(d.high, base, k, cap);
    SameRelative(d.low, base, k, cap);
    SameRelative(d.close, base, k, cap);
    EntryIsRelative(t, r);
    EntryIsRelative(s, d);
    hide EntryOf;
  }

  lemma EntryIsRelative(s: KlineSet, d: Doc)
    requires Usable(s)
    ensures EntryOf(s, d) == Entry(d.openTime, Relative(d.close, s.docs[0].close, s.marketCap), s.marketCap)
  {
  }

  lemma SameRelative(price: real, base: real, k: real, cap: real)
    requires k > 0.0 && base > 0.0
    ensures Mul(base, k) > 0.0 && Relative(Mul(price, k), Mul(base, k), cap) == Relative(price, base, cap)
  {
    SameRatio(price, base, k);
  }

  lemma SameUsable(s: KlineSet, k: real)
    requires k > 0.0
    ensures Usable(RescaledSet(s, k)) <==> Usable(s)
  {
    if |s.docs| >= 2 { SamePositive(s.docs[0].close, k); }
  }

  lemma {:induction false} SameDocs(s: KlineSet, k: real, n: nat)
    requires k > 0.0 && Usable(s) && Usable(RescaledSet(s, k)) && n <= |s.docs|
    ensures var t := RescaledSet(s, k);
            && DocEntries(t, t.docs[..n]) == DocEntries(s, s.docs[..n])
            && OhlcDocEntries(t, t.docs[..n]) == OhlcDocEntries(s, s.docs[..n])
  {
    if n > 0 {
      var t := RescaledSet(s, k);
      SameDocs(s, k, n - 1);
      SameSigns(s.docs[n - 1], k);
      SameEntry(s, s.docs[n - 1], k);
      assert t.docs[..n][..n - 1] == t.docs[..n - 1] && s.docs[..n][..n - 1] == s.docs[..n - 1];
      assert t.docs[n - 1] == Rescaled(s.docs[n - 1], k);
      hide RescaledSet, Rescaled, EntryOf, OhlcEntryOf, AllPositive, Usable;
    }
  }

  /** Every constituent may be quoted in its own unit. */
  ghost predicate Requoted(a: seq<KlineSet>, b: seq<KlineSet>) {
    |a| == |b| && forall i :: 0 <= i < |a| ==> InOtherUnit(a[i], b[i])
  }

  ghost predicate InOtherUnit(s: KlineSet, t: KlineSet) {
    exists k: real :: k > 0.0 && t == RescaledSet(s, k)
  }

  lemma {:induction false} SameEntries(a: seq<KlineSet>, b: seq<KlineSet>)
    requires Requoted(a, b)
    ensures Entries(b) == Entries(a) && OhlcEntries(b) == OhlcEntries(a)
  {
    if a != [] {
      var last := |a| - 1;
      SameEntries(a[..last], b[..last]);
      assert InOtherUnit(a[last], b[last]);
      var k: real :| k > 0.0 && b[last] == RescaledSet(a[last], k);
      SameUsable(a[last], k);
      if Usable(a[last]) {
        SameDocs(a[last], k, |a[last].docs|);
        assert a[last].docs[..|a[last].docs|] == a[last].docs && b[last].docs[..|b[last].docs|] == b[last].docs;
      }
      hide RescaledSet, Usable, DocEntries, OhlcDocEntries;
    }
  }

  /** Multiplying all prices of a constituent by a positive factor, another for each, changes neither
      series. */
  lemma UnitsDoNotMatter(constituents: seq<Constituent>, a: seq<KlineSet>, b: seq<KlineSet>)
    requires Requoted(a, b)
    ensures Points(constituents, Entries(b)) == Points(constituents, Entries(a))
    ensures OhlcPoints(constituents, OhlcEntries(b)) == OhlcPoints(constituents, OhlcEntries(a))
  {
    SameEntries(a, b);
  }

  /** Every contribution stands to the market cap as the price to the first close; the first close itself
      contributes the market cap. */
  lemma ContributionIsRatio(s: KlineSet, d: Doc)
    requires Usable(s)
    ensures var e, o, base := EntryOf(s, d), OhlcEntryOf(s, d), s.docs[0].close;
            && e.time == o.time == d.openTime && e.weight == o.weight == s.marketCap
            && e.value * base == d.close * s.marketCap && o.close * base == d.close * s.marketCap
            && o.open * base == d.open * s.marketCap && o.high * base == d.high * s.marketCap
            && o.low * base == d.low * s.marketCap
    ensures EntryOf(s, s.docs[0]).value == s.marketCap
  {
    var base := s.docs[0].close;
    RatioTimes(d.close, base, s.marketCap);
    RatioTimes(d.open, base, s.marketCap);
    RatioTimes(d.high, base, s.marketCap);
    RatioTimes(d.low, base, s.marketCap);
    QuotientIs(1.0, base, base);
  }

  lemma RatioTimes(price: real, base: real, cap: real)
    requires base > 0.0
    ensures price / base * cap * base == price * cap
  {
    var q := price / base;
    assert q * base == price;
    assert q * cap * base == q * base * cap;
  }
}
