/** The handlers of the price fan-out over the module's mutable state. Each is proved to take the
    step the state machine allows. */
module PriceServer {
  import opened Utf16
  import opened SymbolKey
  import opened PriceFanout

  /** Sorted listing of a set. */
  method Listed(symbols: set<Text>) returns (r: seq<Text>)
    ensures Elements(r) == symbols && Ascending(r)
  {
    r := [];
    var todo := symbols;
    while todo != {}
      invariant todo <= symbols && Elements(r) == symbols - todo && Ascending(r)
      decreases todo
    {
      var s :| s in todo;
      assert s !in Elements(r);
      InsertProperties(s, r);
      r := Insert(s, r);
      todo := todo - {s};
    }
  }

  /** How many items are applied before one throws. */
  lemma {:induction false} AppliedLength(updates: seq<Update>) returns (n: nat)
    ensures n <= |updates| && Applied(updates) == updates[..n]
    ensures n < |updates| ==> updates[n].Broken?
    ensures forall i :: 0 <= i < n ==> !updates[i].Broken?
    ensures n == |updates| <==> Broken !in updates
  {
    if updates == [] || updates[0].Broken? {
      n := 0;
    } else {
      var rest := AppliedLength(updates[1..]);
      n := rest + 1;
      assert updates == [updates[0]] + updates[1..];
      assert updates[..n] == [updates[0]] + updates[1..][..rest];
      assert forall i :: 0 < i < n ==> updates[i] == updates[1..][i - 1];
    }
  }

  lemma OneMore(p: Platform, latest: map<Text, Quote>, dirty: set<Text>, updates: seq<Update>, u: Update)
    requires u.Update?
    ensures DirtyAfter(p, dirty, updates + [u])
            == DirtyAfter(p, dirty, updates) + (if u.symbol != [] then {p.upper(u.symbol)} else {})
    ensures PricesAfter(p, latest, updates + [u])
            == if u.symbol != [] then PricesAfter(p, latest, updates)[p.upper(u.symbol) := u.quote] else PricesAfter(p, latest, updates)
  {
    assert (updates + [u])[..|updates|] == updates;
    assert forall v :: v in updates + [u] <==> v in updates || v == u;
  }

  /** A batch whose items before index `n` are applied. */
  lemma BatchResult(p: Platform, s: State, updates: seq<Update>, n: nat)
    requires n <= |updates| && Applied(updates) == updates[..n] && (n == |updates| <==> Broken !in updates)
    ensures AfterMessage(p, s, Batch(updates))
            == s.(latest := PricesAfter(p, s.latest, updates[..n]), dirty := DirtyAfter(p, s.dirty, updates[..n]),
                  flushPending := s.flushPending || n == |updates|)
  {
  }

  lemma NothingApplied(p: Platform, latest: map<Text, Quote>, dirty: set<Text>)
    ensures PricesAfter(p, latest, []) == latest && DirtyAfter(p, dirty, []) == dirty
  {
  }

  predicate Served(c: Client) {
    c.open && c.symbols != {}
  }

  /** `group` inverts `keyOf`, which gives every served client of `seen` a key that reads back as
      the pieces of its symbols. */
  ghost predicate Grouped(clients: map<nat, Client>, group: map<Text, set<nat>>, keyOf: map<nat, Text>, seen: set<nat>) {
    && (forall id :: id in keyOf <==> id in seen && id in clients && Served(clients[id]))
    && (forall id :: id in keyOf ==>
          && Elements(Split(keyOf[id])) == Pieces(clients[id].symbols)
          && keyOf[id] in group && id in group[keyOf[id]])
    && (forall k, id :: k in group && id in group[k] ==> id in keyOf && keyOf[id] == k)
  }

  /** Sending a group its updates is flushing each of its clients. */
  lemma GroupFlushed(clients: map<nat, Client>, group: map<Text, set<nat>>, keyOf: map<nat, Text>, key: Text,
                     latest: map<Text, Quote>, affected: set<Text>, updates: map<Text, Quote>)
    requires Grouped(clients, group, keyOf, clients.Keys) && key in group
    requires updates == Changed(latest, affected, Elements(Split(key)))
    ensures forall id :: id in group[key] <==> id in keyOf && keyOf[id] == key
    ensures forall id :: id in group[key] ==>
              && id in clients && clients[id].open
              && Flushed(latest, affected, clients[id]) == clients[id].(view := clients[id].view + updates)
  {
    hide Changed, Pieces, Split, Elements;
  }

  lemma OthersKeep(clients: map<nat, Client>, group: map<Text, set<nat>>, keyOf: map<nat, Text>,
                   latest: map<Text, Quote>, affected: set<Text>)
    requires Grouped(clients, group, keyOf, clients.Keys)
    ensures forall id :: id in clients && id !in keyOf ==> Flushed(latest, affected, clients[id]) == clients[id]
  {
    hide Changed, Pieces, Split, Elements;
  }

  class Server {
    const p: Platform
    var latest: map<Text, Quote>
    var dirty: set<Text>
    var flushPending: bool
    var clients: map<nat, Client>
    var symref: map<Text, int>
    var inFlight: seq<Increment>

    constructor (p: Platform)
      ensures this.p == p && Value() == INIT
    {
      this.p := p;
      latest, dirty, flushPending, clients, symref, inFlight := map[], {}, false, map[], map[], [];
    }

    function Value(): State
      reads this
    {
      State(latest, dirty, flushPending, clients, symref, inFlight)
    }

    method SchedulePriceFlush()
      modifies this`flushPending
      ensures flushPending
    {
      if flushPending { return; }
      flushPending := true;
    }

    /** Items are applied one by one until one throws; only a batch applied to the end schedules. */
    method ApplyRedisPricesMessage(m: Message)
      modifies this`latest, this`dirty, this`flushPending
      ensures Value() == AfterMessage(p, old(Value()), m)
    {
      if m.Unusable? { return; }
      var finished, n := ApplyItems(m.updates);
      BatchResult(p, old(Value()), m.updates, n);
      hide AfterMessage, Applied, PricesAfter, DirtyAfter;
      if finished { SchedulePriceFlush(); }
    }

    /** The loop over the items, up to the first one that throws. */
    method ApplyItems(updates: seq<Update>) returns (finished: bool, ghost n: nat)
      modifies this`latest, this`dirty
      ensures n <= |updates| && Applied(updates) == updates[..n] && (n == |updates| <==> Broken !in updates)
      ensures finished <==> n == |updates|
      ensures latest == PricesAfter(p, old(latest), updates[..n]) && dirty == DirtyAfter(p, old(dirty), updates[..n])
    {
      n := AppliedLength(updates);
      NothingApplied(p, latest, dirty);
      assert updates[..0] == [];
      hide *;
      for i := 0 to |updates|
        invariant i <= n
        invariant latest == PricesAfter(p, old(latest), updates[..i]) && dirty == DirtyAfter(p, old(dirty), updates[..i])
      {
        if updates[i].Broken? {
          finished := false;
          return;
        }
        var u := updates[i];
        assert updates[..i + 1] == updates[..i] + [u];
        OneMore(p, old(latest), old(dirty), updates[..i], u);
        if u.symbol != [] {
          var sym := p.upper(u.symbol);
          latest := latest[sym := u.quote];
          dirty := dirty + {sym};
        }
      }
      finished := true;
    }

    method GroupClients() returns (group: map<Text, set<nat>>, ghost keyOf: map<nat, Text>)
      ensures Grouped(clients, group, keyOf, clients.Keys)
      ensures forall k, id :: k in group && id in group[k] ==>
                id in clients && Served(clients[id]) && Elements(Split(k)) == Pieces(clients[id].symbols)
      ensures forall id :: id in clients && Served(clients[id]) ==> exists k :: k in group && id in group[k]
    {
      group, keyOf := map[], map[];
      var todo := clients.Keys;
      while todo != {}
        invariant todo <= clients.Keys
        invariant Grouped(clients, group, keyOf, clients.Keys - todo)
        decreases todo
      {
        var id :| id in todo;
        var c := clients[id];
        if c.open && c.symbols != {} {
          var sorted := Listed(c.symbols);
          var key := Join(sorted);
          assert sorted != [];
          SplitOfJoin(sorted);
          group := group[key := (if key in group then group[key] else {}) + {id}];
          keyOf := keyOf[id := key];
        }
        todo := todo - {id};
      }
    }

    /** The updates of one group's message. */
    method UpdatesFor(key: Text, affected: set<Text>) returns (updates: map<Text, Quote>)
      ensures updates == Changed(latest, affected, Elements(Split(key)))
    {
      updates := map[];
      var parts := Split(key);
      for i := 0 to |parts|
        invariant updates == Changed(latest, affected, Elements(parts[..i]))
      {
        var s := parts[i];
        assert parts[..i + 1] == parts[..i] + [s];
        assert Elements(parts[..i + 1]) == Elements(parts[..i]) + {s};
        if s in affected && s in latest {
          updates := updates[s := latest[s]];
        }
      }
      assert parts[..|parts|] == parts;
    }

    method SendToGroup(ids: set<nat>, updates: map<Text, Quote>)
      modifies this`clients
      ensures clients.Keys == old(clients).Keys
      ensures forall id :: id in clients ==>
                clients[id] == if id in ids && old(clients)[id].open
                               then old(clients)[id].(view := old(clients)[id].view + updates) else old(clients)[id]
    {
      var todo := ids;
      while todo != {}
        invariant todo <= ids && clients.Keys == old(clients).Keys
        invariant forall id :: id in clients ==>
            clients[id] == if id in ids && id !in todo && old(clients)[id].open
                           then old(clients)[id].(view := old(clients)[id].view + updates) else old(clients)[id]
        decreases todo
      {
        var id :| id in todo;
        if id in clients && clients[id].open {
          clients := clients[id := clients[id].(view := clients[id].view + updates)];
        }
        todo := todo - {id};
      }
    }

    method FlushPriceUpdates()
      modifies this
      ensures Value() == AfterFlush(old(Value())).(flushPending := old(flushPending))
    {
      if dirty == {} { return; }
      var affected := dirty;
      dirty := {};
      SendUpdates(affected);
    }

    /** Group by group, every client gets what changed. */
    method SendUpdates(affected: set<Text>)
      modifies this`clients
      ensures clients == map id | id in old(clients) :: Flushed(latest, affected, old(clients)[id])
    {
      var group, keyOf := GroupClients();
      ghost var before := clients;
      OthersKeep(before, group, keyOf, latest, affected);
      assert forall id :: id in keyOf ==> keyOf[id] in group.Keys;
      hide *;
      var todo := group.Keys;
      while todo != {}
        invariant todo <= group.Keys && clients.Keys == before.Keys
        invariant forall id :: id in clients ==>
            clients[id] == if id in keyOf && keyOf[id] !in todo
                           then Flushed(latest, affected, before[id]) else before[id]
        decreases todo
      {
        var key :| key in todo;
        var updates := UpdatesFor(key, affected);
        GroupFlushed(before, group, keyOf, key, latest, affected, updates);
        SendToGroup(group[key], updates);
        todo := todo - {key};
      }
    }

    /** The timer callback. */
    method FlushTimerFires()
      modifies this
      ensures Value() == AfterFlush(old(Value()))
    {
      flushPending := false;
      FlushPriceUpdates();
    }

    method SymrefDelta(symbol: Text, delta: int)
      modifies this`inFlight
      ensures inFlight == old(inFlight) + [Increment(symbol, delta)]
    {
      inFlight := inFlight + [Increment(symbol, delta)];
    }

    /** Removes what is no longer wanted and adds what is new, announcing each change. */
    method ReplaceClientSymbols(id: nat, list: seq<Text>)
      requires id in clients
      modifies this
      ensures exists q :: Announces(q, old(clients)[id].symbols, Normalised(p, list)) && inFlight == old(inFlight) + q
      ensures clients == old(clients)[id := old(clients)[id].(symbols := Normalised(p, list))]
      ensures latest == old(latest) && dirty == old(dirty) && flushPending == old(flushPending) && symref == old(symref)
    {
      var newSet := Normalised(p, list);
      var was := clients[id].symbols;
      var gone := was - newSet;
      ghost var q: seq<Increment> := [];
      assert newSet * was + gone == was && clients[id := clients[id].(symbols := was)] == clients;
      while gone != {}
        invariant gone <= was - newSet
        invariant clients == old(clients)[id := old(clients)[id].(symbols := newSet * was + gone)]
        invariant inFlight == old(inFlight) + q && Announces(q, was, newSet * was + gone)
        invariant latest == old(latest) && dirty == old(dirty) && flushPending == old(flushPending) && symref == old(symref)
        decreases gone
      {
        var s :| s in gone;
        clients := clients[id := clients[id].(symbols := clients[id].symbols - {s})];
        assert newSet * was + gone - {s} == newSet * was + (gone - {s});
        SymrefDelta(s, -1);
        AnnouncesOne(q, was, newSet * was + gone, newSet * was + (gone - {s}), s, -1);
        q := q + [Increment(s, -1)];
        gone := gone - {s};
      }
      var added := newSet - was;
      assert newSet * was + {} == newSet - added;
      while added != {}
        invariant added <= newSet - was
        invariant clients == old(clients)[id := old(clients)[id].(symbols := newSet - added)]
        invariant inFlight == old(inFlight) + q && Announces(q, was, newSet - added)
        invariant latest == old(latest) && dirty == old(dirty) && flushPending == old(flushPending) && symref == old(symref)
        decreases added
      {
        var s :| s in added;
        clients := clients[id := clients[id].(symbols := clients[id].symbols + {s})];
        assert newSet - added + {s} == newSet - (added - {s});
        SymrefDelta(s, 1);
        AnnouncesOne(q, was, newSet - added, newSet - (added - {s}), s, 1);
        q := q + [Increment(s, 1)];
        added := added - {s};
      }
      assert newSet - {} == newSet;
    }

    method SendFilteredSnapshot(id: nat)
      requires id in clients
      modifies this`clients
      ensures clients == if old(clients)[id].open
                         then old(clients)[id := old(clients)[id].(view := Snapshot(latest, old(clients)[id].symbols))]
                         else old(clients)
    {
      var c := clients[id];
      var prices: map<Text, Quote> := map[];
      var todo := c.symbols;
      while todo != {}
        invariant todo <= c.symbols && prices == Snapshot(latest, c.symbols - todo)
        decreases todo
      {
        var s :| s in todo;
        if s in latest { prices := prices[s := latest[s]]; }
        todo := todo - {s};
      }
      assert c.symbols - {} == c.symbols;
      if c.open {
        clients := clients[id := c.(view := prices)];
      }
    }

    /** The subscribe message; `list` are its non-empty strings. */
    method SubscribeMessage(id: nat, list: seq<Text>)
      requires id in clients && forall x :: x in list ==> x != []
      modifies this
      ensures Step(p, old(Value()), Subscribe(id, list), Value())
    {
      ReplaceClientSymbols(id, list);
      ghost var q :| Announces(q, old(clients)[id].symbols, Normalised(p, list)) && inFlight == old(inFlight) + q;
      if list != [] {
        SendFilteredSnapshot(id);
      }
      assert Value() == AfterSubscribe(p, old(Value()), id, list, q);
    }

    /** The close event withdraws every subscription of the socket. */
    method CloseHandler(id: nat)
      requires id in clients
      modifies this
      ensures Step(p, old(Value()), Closed(id), Value())
    {
      var was := clients[id].symbols;
      var todo := was;
      ghost var q: seq<Increment> := [];
      while todo != {}
        invariant todo <= was
        invariant inFlight == old(inFlight) + q && Announces(q, was, todo)
        invariant clients == old(clients) && latest == old(latest) && dirty == old(dirty)
        invariant flushPending == old(flushPending) && symref == old(symref)
        decreases todo
      {
        var s :| s in todo;
        SymrefDelta(s, -1);
        AnnouncesOne(q, was, todo, todo - {s}, s, -1);
        q := q + [Increment(s, -1)];
        todo := todo - {s};
      }
      clients := clients - {id};
      assert Value() == AfterClosed(old(Value()), id, q);
    }
  }

  lemma AnnouncesOne(q: seq<Increment>, was: set<Text>, mid: set<Text>, next: set<Text>, s: Text, delta: int)
    requires Announces(q, was, mid)
    requires (delta == 1 && s !in mid && next == mid + {s}) || (delta == -1 && s in mid && next == mid - {s})
    ensures Announces(q + [Increment(s, delta)], was, next)
  {
    var q' := q + [Increment(s, delta)];
    assert q'[..|q'| - 1] == q;
    forall t ensures InFlightFor(q', t) == Delta(was, next, t) {
      assert InFlightFor(q, t) == Delta(was, mid, t);
    }
  }
}
