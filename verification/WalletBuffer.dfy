/** Wallet events gathered per address and chain and flushed together when a timer fires. */
module WalletBuffer {
  import opened Basics

  datatype WalletEvent = WalletEvent(userId: string, address: string, chain: string, txHash: string)

  /** What one flush takes: its key and its events. */
  datatype Batch = Batch(key: string, events: seq<WalletEvent>)

  /** The two maps of the aggregator, with the history of arrivals and flushes. */
  datatype State = State(buffer: map<string, seq<WalletEvent>>, timers: set<string>, arrived: seq<WalletEvent>, batches: seq<Batch>)

  datatype Step = Ingest(event: WalletEvent) | TimerFires(key: string)

  const EMPTY := State(map[], {}, [], [])

  function KeyOf(e: WalletEvent): string {
    e.address + ":" + e.chain
  }

  function Buffered(buffer: map<string, seq<WalletEvent>>, key: string): seq<WalletEvent> {
    if key in buffer then buffer[key] else []
  }

  function AfterIngest(s: State, e: WalletEvent): State {
    var key := KeyOf(e);
    State(s.buffer[key := Buffered(s.buffer, key) + [e]], s.timers + {key}, s.arrived + [e], s.batches)
  }

  /** The timer callback up to its first wait: an empty or missing list is dropped without a batch. */
  function AfterTimer(s: State, key: string): State {
    var events := Buffered(s.buffer, key);
    State(s.buffer - {key}, s.timers - {key}, s.arrived, if events == [] then s.batches else s.batches + [Batch(key, events)])
  }

  function After(s: State, step: Step): State {
    match step
    case Ingest(e) => AfterIngest(s, e)
    case TimerFires(key) => if key in s.timers then AfterTimer(s, key) else s
  }

  function Run(s: State, steps: seq<Step>): State
    decreases |steps|
  {
    if steps == [] then s else Run(After(s, steps[0]), steps[1..])
  }

  // ---- Conservation ----

  /** The events of a key among these, in order. */
  function OfKey(events: seq<WalletEvent>, key: string): seq<WalletEvent> {
    if events == [] then []
    else
      var before, e := OfKey(events[..|events| - 1], key), events[|events| - 1];
      if KeyOf(e) == key then before + [e] else before
  }

  /** The events flushed for a key, in the order of their batches. */
  function Flushed(batches: seq<Batch>, key: string): seq<WalletEvent> {
    if batches == [] then []
    else
      var before, b := Flushed(batches[..|batches| - 1], key), batches[|batches| - 1];
      if b.key == key then before + b.events else before
  }

  /** Buffer keys are timer keys, no buffered list or batch is empty, and for each key what arrived is
      what was flushed followed by what is buffered. */
  ghost predicate Conserved(s: State) {
    && s.buffer.Keys == s.timers
    && (forall key :: key in s.buffer ==> s.buffer[key] != [])
    && (forall i :: 0 <= i < |s.batches| ==> s.batches[i].events != [])
    && (forall key :: OfKey(s.arrived, key) == Flushed(s.batches, key) + Buffered(s.buffer, key))
  }

  lemma IngestConserves(s: State, e: WalletEvent)
    requires Conserved(s)
    ensures Conserved(AfterIngest(s, e))
  {
    var t := AfterIngest(s, e);
    forall key ensures OfKey(t.arrived, key) == Flushed(t.batches, key) + Buffered(t.buffer, key) {
      assert t.arrived[..|s.arrived|] == s.arrived;
      assert OfKey(s.arrived, key) == Flushed(s.batches, key) + Buffered(s.buffer, key);
      var added: seq<WalletEvent> := if KeyOf(e) == key then [e] else [];
      assert Buffered(t.buffer, key) == Buffered(s.buffer, key) + added;
      assert Flushed(s.batches, key) + Buffered(s.buffer, key) + added == Flushed(s.batches, key) + (Buffered(s.buffer, key) + added);
    }
  }

  lemma TimerConserves(s: State, key: string)
    requires Conserved(s) && key in s.timers
    ensures Conserved(AfterTimer(s, key)) && AfterTimer(s, key).batches == s.batches + [Batch(key, s.buffer[key])]
  {
    var t := AfterTimer(s, key);
    var b := Batch(key, s.buffer[key]);
    assert t.batches == s.batches + [b];
    forall k ensures OfKey(t.arrived, k) == Flushed(t.batches, k) + Buffered(t.buffer, k) {
      assert t.batches[..|s.batches|] == s.batches;
      assert OfKey(s.arrived, k) == Flushed(s.batches, k) + Buffered(s.buffer, k);
      if k == key {
        assert Flushed(s.batches, k) + b.events + [] == Flushed(s.batches, k) + Buffered(s.buffer, k);
      } else {
        assert Buffered(t.buffer, k) == Buffered(s.buffer, k);
      }
    }
  }

  /** Over every run each event that arrived is in exactly one place, a batch or the buffer, and events
      of one key leave in the order they came. */
  lemma {:induction false} EveryRunConserves(s: State, steps: seq<Step>)
    requires Conserved(s)
    ensures Conserved(Run(s, steps))
    decreases |steps|
  {
    if steps != [] {
      var step := steps[0];
      if step.Ingest? {
        IngestConserves(s, step.event);
      } else if step.key in s.timers {
        TimerConserves(s, step.key);
      }
      EveryRunConserves(After(s, step), steps[1..]);
    }
  }

  function TimerFirings(keys: seq<string>): seq<Step> {
    seq(|keys|, i requires 0 <= i < |keys| => TimerFires(keys[i]))
  }

  /** When all pending timers have fired, everything that arrived has been flushed. */
  lemma {:induction false} DrainedWhenTimersFire(s: State, keys: seq<string>)
    requires Conserved(s) && forall key :: key in s.timers ==> key in keys
    ensures var t := Run(s, TimerFirings(keys));
            && t.arrived == s.arrived && t.buffer == map[] && t.timers == {}
            && forall key :: Flushed(t.batches, key) == OfKey(s.arrived, key)
    decreases |keys|
  {
    if keys == [] {
      assert s.timers == {};
      assert s.buffer == map[];
      forall key ensures Flushed(s.batches, key) == OfKey(s.arrived, key) {
        assert Flushed(s.batches, key) + [] == Flushed(s.batches, key);
      }
    } else {
      var first := TimerFires(keys[0]);
      assert TimerFirings(keys) == [first] + TimerFirings(keys[1..]);
      if keys[0] in s.timers { TimerConserves(s, keys[0]); }
      var t := After(s, first);
      assert forall key :: key in t.timers ==> key in keys && key != keys[0];
      assert keys == [keys[0]] + keys[1..];
      DrainedWhenTimersFire(t, keys[1..]);
    }
  }

  // ---- Reading address and chain back from the key ----

  /** The text up to its first colon. */
  function UntilColon(t: string): string {
    if t == "" || t[0] == ':' then "" else [t[0]] + UntilColon(t[1..])
  }

  /** `const [address, chain] = key.split(':')` */
  function Parsed(key: string): (string, Option<string>) {
    var address := UntilColon(key);
    (address, if |address| < |key| then Some(UntilColon(key[|address| + 1..])) else None)
  }

  lemma {:induction false} UntilColonIs(t: string, rest: string)
    ensures UntilColon(t + ":" + rest) == UntilColon(t)
    ensures UntilColon(t) == t <==> ':' !in t
    ensures |UntilColon(t)| <= |t|
    ensures ':' in t ==> |UntilColon(t)| < |t|
  {
    if t == "" {
      assert t + ":" + rest == ":" + rest;
    } else {
      assert (t + ":" + rest)[1..] == t[1..] + ":" + rest;
      UntilColonIs(t[1..], rest);
      assert t == [t[0]] + t[1..];
    }
  }

  /** A flush reads back the address and chain of its events exactly when neither has a colon. */
  lemma ParsedBackIff(e: WalletEvent)
    ensures Parsed(KeyOf(e)) == (e.address, Some(e.chain)) <==> ':' !in e.address && ':' !in e.chain
  {
    var key := KeyOf(e);
    UntilColonIs(e.address, e.chain);
    UntilColonIs(e.chain, "");
    if ':' !in e.address {
      assert UntilColon(key) == e.address;
      assert key[|e.address| + 1..] == e.chain;
    }
  }

  /** Without colons, a key belongs to one address and chain. */
  lemma KeysApart(d: WalletEvent, e: WalletEvent)
    requires ':' !in d.address && ':' !in d.chain && ':' !in e.address && ':' !in e.chain
    ensures KeyOf(d) == KeyOf(e) <==> d.address == e.address && d.chain == e.chain
  {
    ParsedBackIff(d);
    ParsedBackIff(e);
  }

  // ---- The aggregator ----

  class Aggregator {
    var eventBuffer: map<string, seq<WalletEvent>>
    var flushTimers: set<string>
    ghost var arrived: seq<WalletEvent>
    ghost var batches: seq<Batch>

    ghost function View(): State
      reads this
    {
      State(eventBuffer, flushTimers, arrived, batches)
    }

    constructor ()
      ensures View() == EMPTY && Conserved(View())
    {
      eventBuffer, flushTimers, arrived, batches := map[], {}, [], [];
    }

    method IngestWalletEvent(event: WalletEvent)
      modifies this
      ensures View() == After(old(View()), Ingest(event))
    {
      var key := event.address + ":" + event.chain;
      var existing := if key in eventBuffer then eventBuffer[key] else [];
      eventBuffer := eventBuffer[key := existing + [event]];
      ScheduleFlush(key);
      arrived := arrived + [event];
    }

    method ScheduleFlush(key: string)
      modifies this`flushTimers
      ensures flushTimers == old(flushTimers) + {key}
    {
      if key in flushTimers { return; }
      flushTimers := flushTimers + {key};
    }

    /** The timer callback; `events` is the batch it goes on with. */
    method TimerCallback(key: string) returns (events: seq<WalletEvent>)
      requires Conserved(View()) && key in flushTimers
      modifies this
      ensures View() == After(old(View()), TimerFires(key)) && Conserved(View())
      ensures events == old(eventBuffer[key]) && events != []
      ensures batches == old(batches) + [Batch(key, events)]
    {
      TimerConserves(View(), key);
      flushTimers := flushTimers - {key};
      events := if key in eventBuffer then eventBuffer[key] else [];
      eventBuffer := eventBuffer - {key};
      batches := if events == [] then batches else batches + [Batch(key, events)];
    }
  }
}
