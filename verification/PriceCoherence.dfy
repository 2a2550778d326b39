/** What holds in every run of the price fan-out: views cohere with the latest prices, and the
    shared demand counter accounts for every subscription. */
module PriceCoherence {
  import opened Utf16
  import opened SymbolKey
  import opened PriceFanout

  // ----- Coherence -----

  /** Every subscribed symbol with a price is dirty or known to the client at that price. */
  ghost predicate Knows(latest: map<Text, Quote>, dirty: set<Text>, c: Client) {
    forall s :: s in c.symbols && s in latest && s !in dirty ==> s in c.view && c.view[s] == latest[s]
  }

  ghost predicate Coherent(s: State) {
    forall id :: id in s.clients && s.clients[id].open ==> Knows(s.latest, s.dirty, s.clients[id])
  }

  ghost predicate FlushScheduled(s: State) {
    s.dirty != {} ==> s.flushPending
  }

  ghost predicate AllNulFree(symbols: set<Text>) {
    forall s :: s in symbols ==> NulFree(s)
  }

  /** No item of a batch throws, and no subscription names a symbol with NUL in it. */
  ghost predicate WellTyped(p: Platform, e: Event) {
    match e
    case PricesMessage(Batch(updates)) => Broken !in updates
    case Subscribe(_, list) => AllNulFree(Normalised(p, list))
    case _ => true
  }

  lemma {:induction false} CleanKeepsPrice(p: Platform, latest: map<Text, Quote>, updates: seq<Update>, s: Text)
    requires s !in DirtyAfter(p, {}, updates)
    ensures s in PricesAfter(p, latest, updates) <==> s in latest
    ensures s in latest ==> PricesAfter(p, latest, updates)[s] == latest[s]
  {
    if updates != [] {
      var last := |updates| - 1;
      assert updates[last] in updates;
      assert forall u :: u in updates[..last] ==> u in updates;
      CleanKeepsPrice(p, latest, updates[..last], s);
    }
  }

  lemma MessageKeepsCoherent(p: Platform, s: State, m: Message)
    requires Coherent(s)
    ensures Coherent(AfterMessage(p, s, m))
  {
    if m.Batch? {
      var applied := Applied(m.updates);
      forall sym | sym !in DirtyAfter(p, s.dirty, applied)
        ensures sym in PricesAfter(p, s.latest, applied) <==> sym in s.latest
        ensures sym in s.latest ==> PricesAfter(p, s.latest, applied)[sym] == s.latest[sym]
      {
        CleanKeepsPrice(p, s.latest, applied, sym);
      }
    }
  }

  /** Filtering by the split group key is filtering by the client's own symbols. */
  lemma FlushMatchesNaiveFilter(latest: map<Text, Quote>, dirty: set<Text>, c: Client)
    requires AllNulFree(c.symbols) && c.open
    ensures Flushed(latest, dirty, c) == c.(view := c.view + Changed(latest, dirty, c.symbols))
  {
    PiecesExact(c.symbols);
    assert c.symbols == {} ==> c.view + Changed(latest, dirty, c.symbols) == c.view;
  }

  lemma FlushKeepsCoherent(s: State)
    requires Coherent(s) && forall id :: id in s.clients ==> AllNulFree(s.clients[id].symbols)
    ensures Coherent(AfterFlush(s))
  {
    forall id | id in s.clients && s.clients[id].open && s.dirty != {}
      ensures Knows(s.latest, {}, Flushed(s.latest, s.dirty, s.clients[id]))
    {
      FlushMatchesNaiveFilter(s.latest, s.dirty, s.clients[id]);
    }
  }

  /** After a flush every open client knows everything, whatever was dirty. */
  ghost predicate FlushServes(symbols: set<Text>) {
    forall latest, dirty, view :: Knows(latest, dirty, Client(true, symbols, view)) ==>
                                    Knows(latest, {}, Flushed(latest, dirty, Client(true, symbols, view)))
  }

  /** The flush serves a subscription exactly when no symbol in it contains NUL: with one that
      does, a changed price is marked clean and never sent. */
  lemma FlushServesExactlyNulFree(symbols: set<Text>)
    ensures FlushServes(symbols) <==> AllNulFree(symbols)
  {
    if AllNulFree(symbols) {
      forall latest, dirty, view | Knows(latest, dirty, Client(true, symbols, view))
        ensures Knows(latest, {}, Flushed(latest, dirty, Client(true, symbols, view)))
      {
        FlushMatchesNaiveFilter(latest, dirty, Client(true, symbols, view));
      }
    } else {
      var s :| s in symbols && !NulFree(s);
      forall t | t in symbols { SplitNulFree(t); }
      assert s !in Pieces(symbols);
      var latest, dirty, view := map[s := Quote(1.0, 0.0)], {s}, map[];
      assert Knows(latest, dirty, Client(true, symbols, view));
      assert s in Flushed(latest, dirty, Client(true, symbols, view)).symbols && s in latest;
      assert s !in Flushed(latest, dirty, Client(true, symbols, view)).view;
    }
  }

  /** A batch leaves its changes without a scheduled flush exactly when no flush was pending, an item
      threw, and an item before it named a symbol. */
  lemma ScheduleLostExactly(p: Platform, s: State, updates: seq<Update>)
    requires FlushScheduled(s)
    ensures FlushScheduled(AfterMessage(p, s, Batch(updates))) <==>
            s.flushPending || Broken !in updates || forall u :: u in Applied(updates) ==> !Names(u)
  {
    var s' := AfterMessage(p, s, Batch(updates));
    if !s.flushPending {
      DirtyExactly(p, Applied(updates));
      assert s'.dirty == DirtyAfter(p, {}, Applied(updates));
    }
  }

  lemma DirtyExactly(p: Platform, updates: seq<Update>)
    ensures DirtyAfter(p, {}, updates) == {} <==> forall u :: u in updates ==> !Names(u)
  {
    forall u | u in updates && Names(u) ensures p.upper(u.symbol) in DirtyAfter(p, {}, updates) {
    }
  }

  // ----- Demand -----

  ghost function Subscribers(clients: map<nat, Client>, s: Text): set<nat> {
    set id | id in clients && s in clients[id].symbols
  }

  /** Counter plus increments in flight equals the number of subscribed sockets. */
  ghost predicate Balanced(s: State) {
    forall sym :: Ref(s.symref, sym) + InFlightFor(s.inFlight, sym) == |Subscribers(s.clients, sym)|
  }

  lemma {:induction false} InFlightAppend(a: seq<Increment>, b: seq<Increment>, s: Text)
    ensures InFlightFor(a + b, s) == InFlightFor(a, s) + InFlightFor(b, s)
  {
    if b == [] {
      assert a + b == a;
    } else {
      assert (a + b)[..|a + b| - 1] == a + b[..|b| - 1];
      InFlightAppend(a, b[..|b| - 1], s);
    }
  }

  lemma InFlightRemove(q: seq<Increment>, i: nat, s: Text)
    requires i < |q|
    ensures InFlightFor(q, s) == InFlightFor(q[..i] + q[i + 1..], s) + (if q[i].symbol == s then q[i].delta else 0)
  {
    assert q == q[..i] + [q[i]] + q[i + 1..];
    assert [q[i]][..0] == [];
    InFlightAppend(q[..i] + [q[i]], q[i + 1..], s);
    InFlightAppend(q[..i], [q[i]], s);
    InFlightAppend(q[..i], q[i + 1..], s);
  }

  lemma SubscribersChange(clients: map<nat, Client>, id: nat, c: Client, s: Text)
    requires id in clients
    ensures |Subscribers(clients[id := c], s)| == |Subscribers(clients, s)| + Delta(clients[id].symbols, c.symbols, s)
    ensures |Subscribers(clients - {id}, s)| == |Subscribers(clients, s)| + Delta(clients[id].symbols, {}, s)
  {
    var before, without := Subscribers(clients, s), Subscribers(clients - {id}, s);
    assert without == before - {id};
    assert Subscribers(clients[id := c], s) == without + (if s in c.symbols then {id} else {});
  }

  lemma SubscribeKeepsBalance(p: Platform, s: State, id: nat, list: seq<Text>, q: seq<Increment>)
    requires Balanced(s) && id in s.clients && Announces(q, s.clients[id].symbols, Normalised(p, list))
    ensures Balanced(AfterSubscribe(p, s, id, list, q))
  {
    var s' := AfterSubscribe(p, s, id, list, q);
    forall sym ensures Ref(s'.symref, sym) + InFlightFor(s'.inFlight, sym) == |Subscribers(s'.clients, sym)| {
      InFlightAppend(s.inFlight, q, sym);
      SubscribersChange(s.clients, id, s'.clients[id], sym);
    }
  }

  lemma CloseKeepsBalance(s: State, id: nat, q: seq<Increment>)
    requires Balanced(s) && id in s.clients && Announces(q, s.clients[id].symbols, {})
    ensures Balanced(AfterClosed(s, id, q))
  {
    var s' := AfterClosed(s, id, q);
    forall sym ensures Ref(s'.symref, sym) + InFlightFor(s'.inFlight, sym) == |Subscribers(s'.clients, sym)| {
      InFlightAppend(s.inFlight, q, sym);
      SubscribersChange(s.clients, id, s.clients[id], sym);
    }
  }

  lemma LandingKeepsBalance(s: State, i: nat)
    requires Balanced(s) && i < |s.inFlight|
    ensures Balanced(AfterLanding(s, i))
  {
    forall sym ensures InFlightFor(s.inFlight, sym)
                       == InFlightFor(AfterLanding(s, i).inFlight, sym) + (if s.inFlight[i].symbol == sym then s.inFlight[i].delta else 0) {
      InFlightRemove(s.inFlight, i, sym);
    }
  }

  // ----- Runs -----

  ghost predicate Inv(s: State) {
    && Coherent(s)
    && FlushScheduled(s)
    && Balanced(s)
    && forall id :: id in s.clients ==> AllNulFree(s.clients[id].symbols)
  }

  lemma StepKeepsCoherent(p: Platform, s: State, e: Event, s': State)
    requires Inv(s) && WellTyped(p, e) && Step(p, s, e, s')
    ensures Coherent(s')
    ensures forall id :: id in s'.clients ==> AllNulFree(s'.clients[id].symbols)
  {
    match e {
      case PricesMessage(m) => MessageKeepsCoherent(p, s, m);
      case FlushTimer => FlushKeepsCoherent(s);
      case _ =>
    }
  }

  lemma StepKeepsBalanced(p: Platform, s: State, e: Event, s': State)
    requires Balanced(s) && Step(p, s, e, s')
    ensures Balanced(s')
  {
    match e {
      case Subscribe(id, list) =>
        var q :| Announces(q, s.clients[id].symbols, Normalised(p, list)) && s' == AfterSubscribe(p, s, id, list, q);
        SubscribeKeepsBalance(p, s, id, list, q);
      case Closed(id) =>
        var q :| Announces(q, s.clients[id].symbols, {}) && s' == AfterClosed(s, id, q);
        CloseKeepsBalance(s, id, q);
      case IncrementLands(i) => LandingKeepsBalance(s, i);
      case _ => assert forall sym :: Subscribers(s.clients, sym) == Subscribers(s'.clients, sym);
    }
  }

  lemma StepKeepsScheduled(p: Platform, s: State, e: Event, s': State)
    requires Inv(s) && WellTyped(p, e) && Step(p, s, e, s')
    ensures FlushScheduled(s')
  {
    if e.PricesMessage? && e.message.Batch? {
      ScheduleLostExactly(p, s, e.message.updates);
    }
  }

  lemma {:induction false} RunKeepsInv(p: Platform, states: seq<State>, events: seq<Event>, k: nat)
    requires IsRun(p, states, events) && k < |states|
    requires forall i :: 0 <= i < |events| ==> WellTyped(p, events[i])
    ensures Inv(states[k])
  {
    if k > 0 {
      RunKeepsInv(p, states, events, k - 1);
      StepKeepsCoherent(p, states[k - 1], events[k - 1], states[k]);
      StepKeepsScheduled(p, states[k - 1], events[k - 1], states[k]);
      StepKeepsBalanced(p, states[k - 1], events[k - 1], states[k]);
    } else {
      assert forall s :: Subscribers(INIT.clients, s) == {};
    }
  }

  /** In every state of every run with well-typed batches and NUL-free symbols: an open client knows
      the latest price of each subscribed symbol unless the symbol is dirty, dirty symbols have a
      flush coming, and counter plus in-flight increments equal the subscribed sockets. */
  lemma EveryRunCoherent(p: Platform, states: seq<State>, events: seq<Event>, k: nat, id: nat, sym: Text)
    requires IsRun(p, states, events) && k < |states|
    requires forall i :: 0 <= i < |events| ==> WellTyped(p, events[i])
    ensures var s := states[k];
            && (id in s.clients && s.clients[id].open && sym in s.clients[id].symbols && sym in s.latest ==>
                  sym in s.dirty || (sym in s.clients[id].view && s.clients[id].view[sym] == s.latest[sym]))
            && (s.dirty != {} ==> s.flushPending)
            && Ref(s.symref, sym) + InFlightFor(s.inFlight, sym) == |Subscribers(s.clients, sym)|
  {
    RunKeepsInv(p, states, events, k);
    if id in states[k].clients && states[k].clients[id].open {
      assert Knows(states[k].latest, states[k].dirty, states[k].clients[id]);
    }
  }

  /** Once every increment has landed the counter is the number of subscribed sockets. */
  lemma LandedCounterIsDemand(p: Platform, states: seq<State>, events: seq<Event>, k: nat, sym: Text)
    requires IsRun(p, states, events) && k < |states| && states[k].inFlight == []
    ensures Ref(states[k].symref, sym) == |Subscribers(states[k].clients, sym)|
  {
    RunKeepsBalanced(p, states, events, k);
  }

  /** The balance needs no assumption on batches or symbols. */
  lemma {:induction false} RunKeepsBalanced(p: Platform, states: seq<State>, events: seq<Event>, k: nat)
    requires IsRun(p, states, events) && k < |states|
    ensures Balanced(states[k])
  {
    if k > 0 {
      RunKeepsBalanced(p, states, events, k - 1);
      StepKeepsBalanced(p, states[k - 1], events[k - 1], states[k]);
    } else {
      assert forall s :: Subscribers(INIT.clients, s) == {};
    }
  }
}
