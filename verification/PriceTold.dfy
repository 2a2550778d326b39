/** What clients are told: prices that were the latest at some moment, of symbols they had asked for. */
module PriceTold {
  import opened Utf16
  import opened SymbolKey
  import opened PriceFanout
  import opened PriceCoherence

  /** In this state the price is the latest of a symbol the client asks for. */
  predicate Current(s: State, id: nat, sym: Text, q: Quote) {
    && id in s.clients && sym in s.clients[id].symbols
    && sym in s.latest && s.latest[sym] == q
  }

  /** A price that is new in a view was current when it was told. */
  lemma ToldIsCurrent(p: Platform, s: State, e: Event, s': State, id: nat, sym: Text)
    requires Step(p, s, e, s') && id in s'.clients && sym in s'.clients[id].view
    requires id in s.clients ==> AllNulFree(s.clients[id].symbols)
    ensures (id in s.clients && sym in s.clients[id].view && s.clients[id].view[sym] == s'.clients[id].view[sym])
            || Current(s, id, sym, s'.clients[id].view[sym]) || Current(s', id, sym, s'.clients[id].view[sym])
  {
    match e {
      case FlushTimer => FlushTells(s, s', id, sym);
      case _ =>
    }
  }

  lemma FlushTells(s: State, s': State, id: nat, sym: Text)
    requires s' == AfterFlush(s) && id in s'.clients && sym in s'.clients[id].view && AllNulFree(s.clients[id].symbols)
    ensures (sym in s.clients[id].view && s.clients[id].view[sym] == s'.clients[id].view[sym])
            || Current(s, id, sym, s'.clients[id].view[sym])
  {
    PiecesExact(s.clients[id].symbols);
  }

  lemma {:induction false} RunKeepsNulFree(p: Platform, states: seq<State>, events: seq<Event>, k: nat)
    requires IsRun(p, states, events) && k < |states|
    requires forall i :: 0 <= i < |events| ==> WellTyped(p, events[i])
    ensures forall id :: id in states[k].clients ==> AllNulFree(states[k].clients[id].symbols)
  {
    RunKeepsInv(p, states, events, k);
  }

  /** In every run without NUL in a symbol, each price in a client's view was the latest one of a symbol
      that client was subscribed to, at that moment or before. */
  lemma {:induction false} EveryPriceWasCurrent(p: Platform, states: seq<State>, events: seq<Event>, k: nat, id: nat, sym: Text)
    requires IsRun(p, states, events) && k < |states|
    requires forall i :: 0 <= i < |events| ==> WellTyped(p, events[i])
    requires id in states[k].clients && sym in states[k].clients[id].view
    ensures exists j :: 0 <= j <= k && Current(states[j], id, sym, states[k].clients[id].view[sym])
  {
    if k > 0 {
      RunKeepsNulFree(p, states, events, k - 1);
      assert Step(p, states[k - 1], events[k - 1], states[k]);
      ToldIsCurrent(p, states[k - 1], events[k - 1], states[k], id, sym);
      var q := states[k].clients[id].view[sym];
      if !Current(states[k - 1], id, sym, q) && !Current(states[k], id, sym, q) {
        EveryPriceWasCurrent(p, states, events, k - 1, id, sym);
      }
    }
  }

  /** A message adds nothing that its items do not say: the latest price of a symbol afterwards is the one
      before, or that of the last item before a throwing one that names the symbol. */
  lemma {:induction false} LatestFromLastItem(p: Platform, latest: map<Text, Quote>, updates: seq<Update>, sym: Text)
    requires forall i :: 0 <= i < |updates| ==> updates[i].Update?
    ensures var after := PricesAfter(p, latest, updates);
            if exists i :: NamesAt(p, updates, i, sym) then
              sym in after && exists i :: NamesAt(p, updates, i, sym) && after[sym] == updates[i].quote
                                          && forall j :: i < j < |updates| ==> !NamesAt(p, updates, j, sym)
            else (sym in after <==> sym in latest) && (sym in after ==> after[sym] == latest[sym])
  {
    if updates != [] {
      var last := |updates| - 1;
      var init := updates[..last];
      LatestFromLastItem(p, latest, init, sym);
      assert forall i :: 0 <= i < last ==> (NamesAt(p, init, i, sym) <==> NamesAt(p, updates, i, sym));
      if NamesAt(p, updates, last, sym) {
        assert PricesAfter(p, latest, updates)[sym] == updates[last].quote;
      }
    }
  }

  predicate NamesAt(p: Platform, updates: seq<Update>, i: int, sym: Text) {
    0 <= i < |updates| && updates[i].Update? && updates[i].symbol != [] && p.upper(updates[i].symbol) == sym
  }

  predicate IsOpen(s: State, id: nat) {
    id in s.clients && s.clients[id].open
  }

  /** A socket is open exactly from its connection until it starts to close. */
  lemma OpenIff(p: Platform, s: State, e: Event, s': State, id: nat)
    requires Step(p, s, e, s')
    ensures IsOpen(s', id) <==> e == Connect(id) || (IsOpen(s, id) && e != StartClosing(id) && e != Closed(id))
  {
  }

  /** A flush is pending exactly from a batch that no item cuts short until the timer fires. */
  lemma PendingIff(p: Platform, s: State, e: Event, s': State)
    requires Step(p, s, e, s')
    ensures s'.flushPending <==>
            (e.PricesMessage? && e.message.Batch? && forall u :: u in e.message.updates ==> u.Update?)
            || (s.flushPending && !e.FlushTimer?)
  {
  }

  /** The timer leaves nothing dirty, tells of dirty symbols only, and tells closing sockets nothing. */
  lemma FlushSettles(p: Platform, s: State, s': State, id: nat, sym: Text)
    requires Step(p, s, FlushTimer, s') && id in s.clients
    ensures s'.dirty == {} && s'.latest == s.latest && id in s'.clients
    ensures var view, told := s.clients[id].view, s'.clients[id].view;
            || ((sym in told <==> sym in view) && (sym in view ==> told[sym] == view[sym]))
            || (IsOpen(s, id) && sym in s.dirty && sym in s.latest && sym in told && told[sym] == s.latest[sym])
  {
  }
}
