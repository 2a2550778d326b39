/** The ticker process: which symbols it wants and how it groups their streams into connections. */
module Ticker {
  import opened Utf16
  import opened PriceFanout
  import PriceCoherence

  const MAX_STREAMS_PER_CONNECTION := 200

  /** Baseline plus every symbol whose counter is positive. */
  function DesiredSymbols(p: Platform, baseline: set<Text>, symref: map<Text, int>): set<Text> {
    baseline + set s | s in symref && symref[s] > 0 :: p.upper(s)
  }

  ghost function AllSubscribed(clients: map<nat, Client>): set<Text> {
    set id, s | id in clients && s in clients[id].symbols :: s
  }

  /** Symbols are stored upper-cased, and upper-casing twice changes nothing more. */
  ghost predicate UpperIsStable(p: Platform) {
    forall x :: p.upper(p.upper(x)) == p.upper(x)
  }

  lemma {:induction false} SubscribedAreUpper(p: Platform, states: seq<State>, events: seq<Event>, k: nat)
    requires IsRun(p, states, events) && k < |states| && UpperIsStable(p)
    ensures forall s :: s in AllSubscribed(states[k].clients) ==> p.upper(s) == s
  {
    if k > 0 {
      SubscribedAreUpper(p, states, events, k - 1);
      var s, s' := states[k - 1], states[k];
      assert Step(p, s, events[k - 1], s');
      forall id, sym | id in s'.clients && sym in s'.clients[id].symbols
        ensures p.upper(sym) == sym
      {
        if id in s.clients && sym in s.clients[id].symbols {
          assert sym in AllSubscribed(s.clients);
        } else {
          assert events[k - 1].Subscribe?;
        }
      }
    }
  }

  /** Once all increments have landed, the ticker wants exactly the baseline and everything any
      connected socket is subscribed to. */
  lemma DesiredIsDemand(p: Platform, baseline: set<Text>, states: seq<State>, events: seq<Event>, k: nat)
    requires IsRun(p, states, events) && k < |states| && UpperIsStable(p) && states[k].inFlight == []
    ensures DesiredSymbols(p, baseline, states[k].symref) == baseline + AllSubscribed(states[k].clients)
  {
    SubscribedAreUpper(p, states, events, k);
    var s := states[k];
    forall sym
      ensures sym in AllSubscribed(s.clients) <==> sym in s.symref && s.symref[sym] > 0
    {
      PriceCoherence.LandedCounterIsDemand(p, states, events, k, sym);
      var subs := PriceCoherence.Subscribers(s.clients, sym);
      if sym in AllSubscribed(s.clients) {
        var id :| id in s.clients && sym in s.clients[id].symbols;
        assert id in subs;
      } else {
        assert subs == {};
      }
    }
  }

  function Concat<T>(groups: seq<seq<T>>): seq<T> {
    if groups == [] then [] else Concat(groups[..|groups| - 1]) + groups[|groups| - 1]
  }

  /** Consecutive groups of `size`, the last one possibly shorter, never empty. */
  method Chunk<T>(arr: seq<T>, size: nat) returns (out: seq<seq<T>>)
    requires size > 0
    ensures Concat(out) == arr
    ensures forall g :: 0 <= g < |out| ==> 0 < |out[g]| <= size
    ensures forall g :: 0 <= g < |out| - 1 ==> |out[g]| == size
  {
    out := [];
    var i := 0;
    while i < |arr|
      invariant Concat(out) == arr[..if i <= |arr| then i else |arr|]
      invariant forall g :: 0 <= g < |out| ==> 0 < |out[g]| <= size
      invariant forall g :: 0 <= g < |out| - 1 ==> |out[g]| == size
      invariant i < |arr| && out != [] ==> |out[|out| - 1]| == size
    {
      var end := if i + size <= |arr| then i + size else |arr|;
      ghost var was := out;
      out := out + [arr[i..end]];
      assert out[..|out| - 1] == was;
      assert arr[..i] + arr[i..end] == arr[..end];
      i := i + size;
    }
    assert arr[..|arr|] == arr;
  }

  const USDT: Text := [0x55, 0x53, 0x44, 0x54]
  const TICKER: Text := [0x40, 0x74, 0x69, 0x63, 0x6B, 0x65, 0x72]

  predicate EndsWith(t: Text, suffix: Text) {
    |suffix| <= |t| && t[|t| - |suffix|..] == suffix
  }

  function StreamOf(p: Platform, lower: Text -> Text, symbol: Text): Text {
    var s := p.upper(p.trim(symbol));
    (if EndsWith(s, USDT) then lower(s) else lower(s + USDT)) + TICKER
  }

  /** The stream groups of one reconnect: one connection per group, every wanted symbol's stream
      listed once per symbol, in groups of at most 200. */
  method ConnectGroups(p: Platform, lower: Text -> Text, symbols: seq<Text>) returns (active: seq<Text>, groups: seq<seq<Text>>)
    ensures Elements(active) == Normalised(p, symbols)
    ensures forall i, j :: 0 <= i < j < |active| ==> active[i] != active[j]
    ensures Concat(groups) == seq(|active|, i requires 0 <= i < |active| => StreamOf(p, lower, active[i]))
    ensures forall g :: 0 <= g < |groups| ==> 0 < |groups[g]| <= MAX_STREAMS_PER_CONNECTION
    ensures groups == [] <==> Normalised(p, symbols) == {}
  {
    active := [];
    var streams: seq<Text> := [];
    for k := 0 to |symbols|
      invariant Elements(active) == Normalised(p, symbols[..k])
      invariant forall i, j :: 0 <= i < j < |active| ==> active[i] != active[j]
      invariant streams == seq(|active|, i requires 0 <= i < |active| => StreamOf(p, lower, active[i]))
    {
      var s := p.upper(p.trim(symbols[k]));
      assert symbols[..k + 1] == symbols[..k] + [symbols[k]];
      assert Normalised(p, symbols[..k + 1]) == Normalised(p, symbols[..k]) + (if s != [] then {s} else {});
      if s != [] && s !in active {
        active := active + [s];
        streams := streams + [StreamOf(p, lower, s)];
      }
    }
    assert symbols[..|symbols|] == symbols;
    groups := Chunk(streams, MAX_STREAMS_PER_CONNECTION);
    if groups == [] {
      assert active == [];
    } else {
      ConcatNonEmpty(groups);
      assert active[0] in Elements(active);
    }
  }

  lemma ConcatNonEmpty<T>(groups: seq<seq<T>>)
    requires groups != [] && forall g :: 0 <= g < |groups| ==> |groups[g]| > 0
    ensures Concat(groups) != []
  {
    assert |groups[|groups| - 1]| > 0;
  }

  /** The symbol quoted in dollars: as it is when it ends in USDT already, else with USDT after it. */
  function Quoted(symbol: Text): Text {
    if |symbol| >= 4 && symbol[|symbol| - 4..] == [0x55, 0x53, 0x44, 0x54] then symbol
    else symbol + [0x55, 0x53, 0x44, 0x54]
  }

  /** A normalised symbol's stream is its dollar quote in small letters with @ticker after it. */
  lemma StreamName(p: Platform, lower: Text -> Text, symbol: Text)
    requires p.upper(p.trim(symbol)) == symbol
    ensures StreamOf(p, lower, symbol) == lower(Quoted(symbol)) + [0x40, 0x74, 0x69, 0x63, 0x6B, 0x65, 0x72]
  {
  }

  /** Two wanted symbols share a stream exactly when they are equal or one is the other with USDT after it. */
  lemma SameStreamIff(p: Platform, lower: Text -> Text, a: Text, b: Text)
    requires p.upper(p.trim(a)) == a && p.upper(p.trim(b)) == b
    requires lower(Quoted(a)) == lower(Quoted(b)) ==> Quoted(a) == Quoted(b)
    ensures StreamOf(p, lower, a) == StreamOf(p, lower, b) <==> a == b || Quoted(a) == b || Quoted(b) == a
  {
    StreamName(p, lower, a);
    StreamName(p, lower, b);
    var tail: Text := [0x40, 0x74, 0x69, 0x63, 0x6B, 0x65, 0x72];
    var x, y := lower(Quoted(a)), lower(Quoted(b));
    if x + tail == y + tail {
      assert |x| == |y| && x == (x + tail)[..|x|] && y == (y + tail)[..|y|];
      QuotedTwice(a);
      QuotedTwice(b);
      if Quoted(a) != a && Quoted(b) != b {
        assert a == Quoted(a)[..|a|] && b == Quoted(b)[..|b|];
      }
    }
    QuotedTwice(a);
    QuotedTwice(b);
  }

  lemma QuotedTwice(a: Text)
    ensures Quoted(Quoted(a)) == Quoted(a)
  {
  }
}
