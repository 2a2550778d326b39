/** Building candles from trades: one pass over the trades against the group-by specification. */
module TradeBuckets {
  import opened Basics
  import opened IntOrder

  /** The length of a candle in milliseconds. */
  type Interval = ms: int | ms > 0 witness 1

  datatype Trade = Trade(time: int, price: real, quantity: real)
  datatype Candle = Candle(open: real, high: real, low: real, close: real, volume: real)
  datatype Kline = Kline(openTime: int, candle: Candle)

  function BucketStart(time: int, bucketMs: Interval): int {
    time / bucketMs * bucketMs
  }

  lemma BucketStartProperties(time: int, bucketMs: Interval)
    ensures BucketStart(time, bucketMs) % bucketMs == 0
    ensures BucketStart(time, bucketMs) <= time < BucketStart(time, bucketMs) + bucketMs
  {
    var q := time / bucketMs;
    assert time == q * bucketMs + time % bucketMs;
    MultipleMod(q, bucketMs);
  }

  lemma MultipleMod(q: int, m: int)
    requires m > 0
    ensures q * m % m == 0
  {
    var r, d := q * m % m, q * m / m;
    assert (q - d) * m == r;
    if q != d {
      MultipleIsFar(q - d, m);
    }
  }

  lemma MultipleIsFar(k: int, m: int)
    requires m > 0 && k != 0
    ensures k * m >= m || k * m <= -m
  {
    if k > 0 { assert (k - 1) * m >= 0; } else { assert (-1 - k) * m >= 0; }
  }

  /** The trades of one bucket, in their order. */
  function TradesIn(trades: seq<Trade>, bucketMs: Interval, b: int): seq<Trade> {
    if trades == [] then []
    else
      var last := |trades| - 1;
      var rest := TradesIn(trades[..last], bucketMs, b);
      if BucketStart(trades[last].time, bucketMs) == b then rest + [trades[last]] else rest
  }

  ghost function Buckets(trades: seq<Trade>, bucketMs: Interval): set<int> {
    set t | t in trades :: BucketStart(t.time, bucketMs)
  }

  function High(ts: seq<Trade>): real
    requires ts != []
  {
    if |ts| == 1 then ts[0].price else MaxR(High(ts[..|ts| - 1]), ts[|ts| - 1].price)
  }

  function Low(ts: seq<Trade>): real
    requires ts != []
  {
    if |ts| == 1 then ts[0].price else MinR(Low(ts[..|ts| - 1]), ts[|ts| - 1].price)
  }

  function Volume(ts: seq<Trade>): real {
    if ts == [] then 0.0 else Volume(ts[..|ts| - 1]) + ts[|ts| - 1].quantity
  }

  /** First price, extremes, last price, total quantity. */
  function CandleOf(ts: seq<Trade>): Candle
    requires ts != []
  {
    Candle(ts[0].price, High(ts), Low(ts), ts[|ts| - 1].price, Volume(ts))
  }

  /** High and low are the extreme prices, and both were traded. */
  lemma {:induction false} Extremes(ts: seq<Trade>)
    requires ts != []
    ensures forall t :: t in ts ==> Low(ts) <= t.price <= High(ts)
    ensures (exists t :: t in ts && t.price == High(ts)) && (exists t :: t in ts && t.price == Low(ts))
  {
    var last := |ts| - 1;
    assert ts[last] in ts;
    if last > 0 {
      Extremes(ts[..last]);
      assert ts == ts[..last] + [ts[last]];
      var h :| h in ts[..last] && h.price == High(ts[..last]);
      var l :| l in ts[..last] && l.price == Low(ts[..last]);
      assert h in ts && l in ts;
    }
  }

  predicate TimeSorted(ts: seq<Trade>) {
    forall i, j :: 0 <= i < j < |ts| ==> ts[i].time <= ts[j].time
  }

  /** A bucket holds exactly the trades whose time falls in it. */
  lemma {:induction false} TradesInProperties(trades: seq<Trade>, bucketMs: Interval, b: int)
    ensures forall t :: t in TradesIn(trades, bucketMs, b) <==> t in trades && BucketStart(t.time, bucketMs) == b
  {
    if trades != [] {
      var last := |trades| - 1;
      TradesInProperties(trades[..last], bucketMs, b);
      assert trades == trades[..last] + [trades[last]];
    }
  }

  lemma {:induction false} TradesInSorted(trades: seq<Trade>, bucketMs: Interval, b: int)
    requires TimeSorted(trades)
    ensures TimeSorted(TradesIn(trades, bucketMs, b))
  {
    if trades != [] {
      var last := |trades| - 1;
      TradesInSorted(trades[..last], bucketMs, b);
      TradesInProperties(trades[..last], bucketMs, b);
      var rest := TradesIn(trades[..last], bucketMs, b);
      forall i | 0 <= i < |rest| ensures rest[i].time <= trades[last].time {
        assert rest[i] in trades[..last];
      }
    }
  }

  lemma BucketsNonEmpty(trades: seq<Trade>, bucketMs: Interval, b: int)
    ensures b in Buckets(trades, bucketMs) <==> TradesIn(trades, bucketMs, b) != []
  {
    TradesInProperties(trades, bucketMs, b);
    var all := TradesIn(trades, bucketMs, b);
    assert all != [] ==> all[0] in all;
  }

  /** `s.slice(-limit)`: the last `limit` elements, but everything when `limit` is 0. */
  function SliceFromEnd<T>(s: seq<T>, limit: int): seq<T> {
    if limit > 0 then s[if limit <= |s| then |s| - limit else 0..]
    else s[if -limit <= |s| then -limit else |s|..]
  }

  ghost function KlinesOf(trades: seq<Trade>, bucketMs: Interval, starts: seq<int>): seq<Kline>
    requires forall i :: 0 <= i < |starts| ==> starts[i] in Buckets(trades, bucketMs)
  {
    seq(|starts|, i requires 0 <= i < |starts| =>
      BucketsNonEmpty(trades, bucketMs, starts[i]);
      Kline(starts[i], CandleOf(TradesIn(trades, bucketMs, starts[i]))))
  }

  function WithTrade(c: Candle, t: Trade): Candle {
    Candle(c.open, MaxR(c.high, t.price), MinR(c.low, t.price), t.price, c.volume + t.quantity)
  }

  /** The accumulated candles are those of the group-by. */
  ghost predicate Grouped(buckets: map<int, Candle>, trades: seq<Trade>, bucketMs: Interval) {
    && buckets.Keys == Buckets(trades, bucketMs)
    && forall b :: b in buckets ==>
         TradesIn(trades, bucketMs, b) != [] && buckets[b] == CandleOf(TradesIn(trades, bucketMs, b))
  }

  lemma TradesInOneMore(trades: seq<Trade>, t: Trade, bucketMs: Interval, c: int)
    ensures TradesIn(trades + [t], bucketMs, c) == TradesIn(trades, bucketMs, c) + (if BucketStart(t.time, bucketMs) == c then [t] else [])
  {
    assert (trades + [t])[..|trades|] == trades;
  }

  lemma BucketsOneMore(trades: seq<Trade>, t: Trade, bucketMs: Interval)
    ensures Buckets(trades + [t], bucketMs) == Buckets(trades, bucketMs) + {BucketStart(t.time, bucketMs)}
  {
  }

  lemma GroupedOneMore(buckets: map<int, Candle>, trades: seq<Trade>, t: Trade, bucketMs: Interval)
    requires Grouped(buckets, trades, bucketMs)
    ensures var b := BucketStart(t.time, bucketMs);
            var c := if b in buckets then WithTrade(buckets[b], t) else Candle(t.price, t.price, t.price, t.price, t.quantity);
            Grouped(buckets[b := c], trades + [t], bucketMs)
  {
    hide TradesIn, BucketStart, Buckets, CandleOf, WithTrade;
    var b := BucketStart(t.time, bucketMs);
    var ts := TradesIn(trades, bucketMs, b);
    BucketsOneMore(trades, t, bucketMs);
    BucketsNonEmpty(trades, bucketMs, b);
    TradesInOneMore(trades, t, bucketMs, b);
    CandleOneMore(ts, t);
    assert [] + [t] == [t];
    forall c | c in buckets && c != b
      ensures TradesIn(trades + [t], bucketMs, c) == TradesIn(trades, bucketMs, c)
    {
      TradesInOneMore(trades, t, bucketMs, c);
    }
  }

  ghost predicate HasKline(klines: seq<Kline>, b: int) {
    exists k :: k in klines && k.openTime == b
  }

  /** The candle of the trades in its bucket, of which there are some. */
  ghost predicate IsKline(k: Kline, trades: seq<Trade>, bucketMs: Interval) {
    var ts := TradesIn(trades, bucketMs, k.openTime);
    ts != [] && k.candle == CandleOf(ts)
  }

  ghost predicate Oldest(klines: seq<Kline>) {
    forall i, j :: 0 <= i < j < |klines| ==> klines[i].openTime < klines[j].openTime
  }

  /** One candle for each of the newest `limit` buckets that hold a trade, oldest first: a bucket that is
      left out starts before all that are shown. */
  ghost predicate NewestBuckets(klines: seq<Kline>, trades: seq<Trade>, bucketMs: Interval, limit: int) {
    && |klines| == (if |Buckets(trades, bucketMs)| <= limit then |Buckets(trades, bucketMs)| else limit)
    && Oldest(klines)
    && (forall k :: k in klines ==> IsKline(k, trades, bucketMs))
    && LeavesOutOlder(klines, trades, bucketMs)
  }

  ghost predicate LeavesOutOlder(klines: seq<Kline>, trades: seq<Trade>, bucketMs: Interval) {
    forall t, k :: t in trades && k in klines && !HasKline(klines, BucketStart(t.time, bucketMs)) ==>
                     BucketStart(t.time, bucketMs) < k.openTime
  }

  lemma {:induction false} AscendingSize(s: seq<int>)
    requires StrictlyAscending(s)
    ensures |s| == |Members(s)|
  {
    if s != [] {
      var last := |s| - 1;
      AscendingSize(s[..last]);
      assert s == s[..last] + [s[last]];
      assert Members(s) == Members(s[..last]) + {s[last]};
    }
  }

  lemma AllAreKlines(trades: seq<Trade>, bucketMs: Interval)
    ensures var all := AllKlines(trades, bucketMs);
            && Oldest(all) && |all| == |Buckets(trades, bucketMs)|
            && (forall k :: k in all ==> IsKline(k, trades, bucketMs))
            && (forall b :: b in Buckets(trades, bucketMs) ==> HasKline(all, b))
  {
    var starts, all := Ordered(Buckets(trades, bucketMs)), AllKlines(trades, bucketMs);
    AscendingSize(starts);
    forall b | b in Buckets(trades, bucketMs) ensures HasKline(all, b) {
      assert b in Members(starts);
      var i :| 0 <= i < |starts| && starts[i] == b;
      assert all[i] in all;
    }
    forall i | 0 <= i < |all| ensures IsKline(all[i], trades, bucketMs) {
      assert starts[i] in Members(starts);
      BucketsNonEmpty(trades, bucketMs, starts[i]);
    }
  }

  lemma LastOf(all: seq<Kline>, n: nat, b: int, k: Kline)
    requires Oldest(all) && n <= |all| && HasKline(all, b) && k in all[|all| - n..] && !HasKline(all[|all| - n..], b)
    ensures b < k.openTime
  {
    var from := |all| - n;
    var j :| 0 <= j < |all| && all[j].openTime == b;
    var i :| 0 <= i < n && all[from..][i] == k;
  }

  lemma LastKlines(trades: seq<Trade>, bucketMs: Interval, limit: int)
    requires limit >= 1
    ensures NewestBuckets(SliceFromEnd(AllKlines(trades, bucketMs), limit), trades, bucketMs, limit)
  {
    var all := AllKlines(trades, bucketMs);
    var n := if |all| <= limit then |all| else limit;
    var r := SliceFromEnd(all, limit);
    AllAreKlines(trades, bucketMs);
    SliceIsTail(all, limit, n);
    TailOldest(all, n);
    hide *;
    TailLeavesOutOlder(all, n, trades, bucketMs);
    BucketsShown(r, all, trades, bucketMs, limit);
  }

  lemma BucketsShown(r: seq<Kline>, all: seq<Kline>, trades: seq<Trade>, bucketMs: Interval, limit: int)
    requires |all| == |Buckets(trades, bucketMs)| && |r| == if |all| <= limit then |all| else limit
    requires Oldest(r) && LeavesOutOlder(r, trades, bucketMs)
    requires (forall k :: k in r ==> k in all) && forall k :: k in all ==> IsKline(k, trades, bucketMs)
    ensures NewestBuckets(r, trades, bucketMs, limit)
  {
    hide Oldest, LeavesOutOlder, IsKline, Buckets;
  }

  lemma TailLeavesOutOlder(all: seq<Kline>, n: nat, trades: seq<Trade>, bucketMs: Interval)
    requires Oldest(all) && n <= |all|
    requires forall b :: b in Buckets(trades, bucketMs) ==> HasKline(all, b)
    ensures LeavesOutOlder(all[|all| - n..], trades, bucketMs)
  {
    var r := all[|all| - n..];
    forall t, k | t in trades && k in r && !HasKline(r, BucketStart(t.time, bucketMs))
      ensures BucketStart(t.time, bucketMs) < k.openTime
    {
      assert BucketStart(t.time, bucketMs) in Buckets(trades, bucketMs);
      hide *;
      LastOf(all, n, BucketStart(t.time, bucketMs), k);
    }
  }

  lemma SliceIsTail<T>(s: seq<T>, limit: int, n: nat)
    requires limit >= 1 && n == if |s| <= limit then |s| else limit
    ensures SliceFromEnd(s, limit) == s[|s| - n..]
  {
  }

  lemma TailOldest(all: seq<Kline>, n: nat)
    requires Oldest(all) && n <= |all|
    ensures Oldest(all[|all| - n..]) && forall k :: k in all[|all| - n..] ==> k in all
  {
  }

  /** The result is the group-by: one candle per non-empty bucket, oldest first, the last `limit`. */
  method AggregateKlines(trades: seq<Trade>, bucketMs: Interval, limit: int) returns (klines: seq<Kline>)
    ensures klines == SliceFromEnd(AllKlines(trades, bucketMs), limit)
    ensures limit >= 1 ==> NewestBuckets(klines, trades, bucketMs, limit)
  {
    klines := GroupTrades(trades, bucketMs, limit);
    hide *;
    if limit >= 1 { LastKlines(trades, bucketMs, limit); }
  }

  method GroupTrades(trades: seq<Trade>, bucketMs: Interval, limit: int) returns (klines: seq<Kline>)
    ensures klines == SliceFromEnd(AllKlines(trades, bucketMs), limit)
  {
    if trades == [] {
      assert Buckets([], bucketMs) == {};
      assert Ordered({}) == [];
      return [];
    }
    var buckets: map<int, Candle> := map[];
    for i := 0 to |trades|
      invariant Grouped(buckets, trades[..i], bucketMs)
    {
      var t := trades[i];
      var b := BucketStart(t.time, bucketMs);
      assert trades[..i + 1] == trades[..i] + [t];
      GroupedOneMore(buckets, trades[..i], t, bucketMs);
      if b in buckets {
        buckets := buckets[b := WithTrade(buckets[b], t)];
      } else {
        buckets := buckets[b := Candle(t.price, t.price, t.price, t.price, t.quantity)];
      }
    }
    assert trades[..|trades|] == trades;
    var starts := Sorted(buckets.Keys);
    assert forall x :: x in starts <==> x in Members(starts);
    var all := seq(|starts|, i requires 0 <= i < |starts| && starts[i] in buckets => Kline(starts[i], buckets[starts[i]]));
    assert all == AllKlines(trades, bucketMs);
    klines := SliceFromEnd(all, limit);
  }

  ghost function AllKlines(trades: seq<Trade>, bucketMs: Interval): (r: seq<Kline>)
    ensures |r| == |Ordered(Buckets(trades, bucketMs))|
  {
    var starts := Ordered(Buckets(trades, bucketMs));
    assert forall x :: x in starts ==> x in Members(starts);
    KlinesOf(trades, bucketMs, starts)
  }

  lemma CandleOfOne(ts: seq<Trade>, t: Trade)
    requires ts == [t]
    ensures CandleOf(ts) == Candle(t.price, t.price, t.price, t.price, t.quantity)
  {
    assert ts[..|ts| - 1] == [];
    assert Volume(ts) == Volume(ts[..|ts| - 1]) + t.quantity;
  }

  lemma CandleOneMore(ts: seq<Trade>, t: Trade)
    ensures ts != [] ==> CandleOf(ts + [t]) == WithTrade(CandleOf(ts), t)
    ensures CandleOf([t]) == Candle(t.price, t.price, t.price, t.price, t.quantity)
    ensures Volume(ts + [t]) == Volume(ts) + t.quantity
  {
    assert (ts + [t])[..|ts|] == ts;
    CandleOfOne([t], t);
  }

  /** For trades in time order a bucket's candle opens at its earliest price, closes at its latest,
      and its high and low are its extreme prices. */
  lemma CandleMeaning(trades: seq<Trade>, bucketMs: Interval, b: int)
    requires TimeSorted(trades) && b in Buckets(trades, bucketMs)
    ensures var ts := TradesIn(trades, bucketMs, b);
            && ts != []
            && var c := CandleOf(ts);
            && (forall t :: t in trades && BucketStart(t.time, bucketMs) == b ==>
                  ts[0].time <= t.time <= ts[|ts| - 1].time && c.low <= t.price <= c.high)
            && ts[0] in trades && c.open == ts[0].price
            && ts[|ts| - 1] in trades && c.close == ts[|ts| - 1].price
            && (exists t :: t in ts && t.price == c.high) && (exists t :: t in ts && t.price == c.low)
  {
    BucketsNonEmpty(trades, bucketMs, b);
    TradesInProperties(trades, bucketMs, b);
    TradesInSorted(trades, bucketMs, b);
    var ts := TradesIn(trades, bucketMs, b);
    Extremes(ts);
    FirstAndLast(ts);
    hide TradesIn, Low, High, BucketStart, Buckets, TimeSorted;
  }

  lemma FirstAndLast(ts: seq<Trade>)
    requires ts != [] && TimeSorted(ts)
    ensures ts[0] in ts && ts[|ts| - 1] in ts
    ensures forall t :: t in ts ==> ts[0].time <= t.time <= ts[|ts| - 1].time
  {
  }

  /** Output times: strictly ascending multiples of the interval. */
  lemma KlineTimes(trades: seq<Trade>, bucketMs: Interval, limit: int)
    ensures var r := SliceFromEnd(AllKlines(trades, bucketMs), limit);
            && (forall i, j :: 0 <= i < j < |r| ==> r[i].openTime < r[j].openTime)
            && (forall i :: 0 <= i < |r| ==> r[i].openTime % bucketMs == 0)
            && (limit >= 1 ==> |r| <= limit)
            && (limit == 0 ==> r == AllKlines(trades, bucketMs))
  {
    var starts := Ordered(Buckets(trades, bucketMs));
    forall i | 0 <= i < |starts| ensures starts[i] % bucketMs == 0 {
      assert starts[i] in Members(starts);
      var t :| t in trades && BucketStart(t.time, bucketMs) == starts[i];
      BucketStartProperties(t.time, bucketMs);
    }
  }

  function TotalVolume(klines: seq<Kline>): real {
    if klines == [] then 0.0 else TotalVolume(klines[..|klines| - 1]) + klines[|klines| - 1].candle.volume
  }

  ghost function VolumeOver(trades: seq<Trade>, bucketMs: Interval, starts: seq<int>): real {
    if starts == [] then 0.0
    else VolumeOver(trades, bucketMs, starts[..|starts| - 1]) + Volume(TradesIn(trades, bucketMs, starts[|starts| - 1]))
  }

  lemma VolumeOneMore(trades: seq<Trade>, t: Trade, bucketMs: Interval, b: int)
    ensures Volume(TradesIn(trades + [t], bucketMs, b))
            == Volume(TradesIn(trades, bucketMs, b)) + (if BucketStart(t.time, bucketMs) == b then t.quantity else 0.0)
  {
    TradesInOneMore(trades, t, bucketMs, b);
    CandleOneMore(TradesIn(trades, bucketMs, b), t);
  }

  lemma {:induction false} VolumeOverOneMore(trades: seq<Trade>, t: Trade, bucketMs: Interval, starts: seq<int>)
    requires StrictlyAscending(starts)
    ensures VolumeOver(trades + [t], bucketMs, starts)
            == VolumeOver(trades, bucketMs, starts) + (if BucketStart(t.time, bucketMs) in starts then t.quantity else 0.0)
  {
    if starts != [] {
      var last := |starts| - 1;
      VolumeOverOneMore(trades, t, bucketMs, starts[..last]);
      VolumeOneMore(trades, t, bucketMs, starts[last]);
      assert starts == starts[..last] + [starts[last]];
    }
  }

  lemma {:induction false} VolumeOverAll(trades: seq<Trade>, bucketMs: Interval, starts: seq<int>)
    requires StrictlyAscending(starts)
    requires forall t :: t in trades ==> BucketStart(t.time, bucketMs) in starts
    ensures VolumeOver(trades, bucketMs, starts) == Volume(trades)
  {
    if trades == [] {
      VolumeOverNone(bucketMs, starts);
    } else {
      var last := |trades| - 1;
      assert trades == trades[..last] + [trades[last]];
      VolumeOverAll(trades[..last], bucketMs, starts);
      VolumeOverOneMore(trades[..last], trades[last], bucketMs, starts);
    }
  }

  lemma VolumeOverNone(bucketMs: Interval, starts: seq<int>)
    ensures VolumeOver([], bucketMs, starts) == 0.0
  {
  }

  lemma {:induction false} TotalVolumeOf(trades: seq<Trade>, bucketMs: Interval, starts: seq<int>)
    requires forall i :: 0 <= i < |starts| ==> starts[i] in Buckets(trades, bucketMs)
    ensures TotalVolume(KlinesOf(trades, bucketMs, starts)) == VolumeOver(trades, bucketMs, starts)
  {
    if starts != [] {
      var last := |starts| - 1;
      TotalVolumeOf(trades, bucketMs, starts[..last]);
      assert KlinesOf(trades, bucketMs, starts)[..last] == KlinesOf(trades, bucketMs, starts[..last]);
    }
  }

  /** No traded quantity is lost or counted twice. */
  lemma VolumeConserved(trades: seq<Trade>, bucketMs: Interval)
    ensures TotalVolume(AllKlines(trades, bucketMs)) == Volume(trades)
  {
    var starts := Ordered(Buckets(trades, bucketMs));
    assert forall x :: x in starts <==> x in Members(starts);
    TotalVolumeOf(trades, bucketMs, starts);
    VolumeOverAll(trades, bucketMs, starts);
  }
}
