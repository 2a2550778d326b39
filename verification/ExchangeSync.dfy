/** Serial synchronisation of one exchange connection's trades. */
module ExchangeSync {
  import opened Basics

  datatype Phase = Backfill | Live

  /** The connection row, the idempotency claims and the stored events of this connection. `unsaved`
      holds the claimed trades whose event this connection did not store. */
  datatype State = State(phase: Phase, lastTradeId: Option<nat>, backfillCursor: Option<nat>,
                         claims: set<nat>, events: seq<nat>, unsaved: set<nat>)

  /** What one run meets: the page it is given (None when it does not get that far or the request
      fails; a row without an identifier is None in it), the trades another connection of the user
      already stored, and after how many commands it dies. `unset` says whether an update clears a
      field set to undefined. */
  datatype Run = Run(page: Option<seq<Option<nat>>>, backfillEnabled: bool, taken: set<nat>, budget: nat, unset: bool)

  function Cursor(s: State): Option<nat> {
    if s.lastTradeId.Some? then s.lastTradeId else s.backfillCursor
  }

  predicate AtMost(a: Option<nat>, b: Option<nat>) {
    a.Some? ==> b.Some? && a.value <= b.value
  }

  function MaxId(a: nat, b: nat): nat { if a > b then a else b }

  function MaxSeen(cursor: Option<nat>, page: seq<Option<nat>>): Option<nat> {
    if page == [] then cursor
    else
      var before, row := MaxSeen(cursor, page[..|page| - 1]), page[|page| - 1];
      if row.None? then before else if before.None? then row else Some(MaxId(before.value, row.value))
  }

  datatype Persisted = Persisted(s: State, budget: nat, aborted: bool)

  /** `persistCoindcxTrade`: a claim and then an event, each a command of its own. */
  function PersistOne(s: State, row: Option<nat>, budget: nat, taken: set<nat>): Persisted {
    if row.None? then Persisted(s, budget, false)
    else if budget == 0 then Persisted(s, 0, true)
    else if row.value in s.claims then Persisted(s, budget - 1, false)
    else
      var id := row.value;
      var claimed := s.(claims := s.claims + {id}, unsaved := s.unsaved + {id});
      if budget == 1 then Persisted(claimed, 0, true)
      else if id in taken then Persisted(claimed, budget - 2, false)
      else Persisted(claimed.(events := s.events + [id], unsaved := s.unsaved), budget - 2, false)
  }

  function Persist(s: State, page: seq<Option<nat>>, budget: nat, taken: set<nat>): Persisted {
    if page == [] then Persisted(s, budget, false)
    else
      var p := Persist(s, page[..|page| - 1], budget, taken);
      if p.aborted then p else PersistOne(p.s, page[|page| - 1], p.budget, taken)
  }

  function Undefined(before: Option<nat>, unset: bool): Option<nat> {
    if unset then None else before
  }

  /** The cursor update and the end of the backfill, each a command of its own. */
  function Finish(s: State, r: Run, page: seq<Option<nat>>, cursor: Option<nat>, budget: nat, limit: nat): State {
    var maxSeen := MaxSeen(cursor, page);
    if maxSeen.Some? && budget == 0 then s
    else
      var moved := if maxSeen.None? then s
                   else s.(lastTradeId := maxSeen,
                           backfillCursor := if s.phase.Backfill? then maxSeen else Undefined(s.backfillCursor, r.unset));
      var left := if maxSeen.None? then budget else budget - 1;
      if s.phase.Backfill? && |page| < limit && left > 0 then
        moved.(phase := Live, backfillCursor := Undefined(moved.backfillCursor, r.unset))
      else moved
  }

  function SyncTrades(s: State, r: Run, budget: nat, limit: nat): State {
    if r.page.None? then s
    else if r.page.value == [] then
      if s.phase.Backfill? && budget > 0 then s.(phase := Live, backfillCursor := Undefined(s.backfillCursor, r.unset)) else s
    else
      var p := Persist(s, r.page.value, budget, r.taken);
      if p.aborted then p.s else Finish(p.s, r, r.page.value, Cursor(s), p.budget, limit)
  }

  predicate SkipsBackfill(s: State, r: Run) {
    s.phase.Backfill? && !r.backfillEnabled
  }

  /** One run of the trades half. */
  function Sync(s: State, r: Run, limit: nat): State {
    if !SkipsBackfill(s, r) then SyncTrades(s, r, r.budget, limit)
    else if r.budget == 0 then s
    else SyncTrades(s.(phase := Live), r, r.budget - 1, limit)
  }

  const FRESH := State(Backfill, None, None, {}, [], {})

  // ---- What every run keeps ----

  ghost predicate Inv(s: State) {
    && (forall i, j :: 0 <= i < j < |s.events| ==> s.events[i] != s.events[j])
    && (forall id :: id in s.claims <==> id in s.events || id in s.unsaved)
    && (forall id :: id in s.events ==> id !in s.unsaved)
    && AtMost(s.backfillCursor, s.lastTradeId)
  }

  /** What a run may only add to. */
  ghost predicate Onward(s: State, t: State) {
    && s.claims <= t.claims
    && s.events <= t.events
    && s.unsaved <= t.unsaved
    && AtMost(Cursor(s), Cursor(t))
    && (s.phase.Live? ==> t.phase.Live?)
  }

  ghost predicate SameRow(s: State, t: State) {
    s.phase == t.phase && s.lastTradeId == t.lastTradeId && s.backfillCursor == t.backfillCursor
  }

  lemma PersistOneKeeps(s: State, row: Option<nat>, budget: nat, taken: set<nat>)
    requires Inv(s)
    ensures var p := PersistOne(s, row, budget, taken);
            && Inv(p.s) && Onward(s, p.s) && SameRow(s, p.s)
            && (row.Some? && !p.aborted ==> row.value in p.s.claims)
  {
  }

  lemma {:induction false} PersistKeeps(s: State, page: seq<Option<nat>>, budget: nat, taken: set<nat>)
    requires Inv(s)
    ensures var p := Persist(s, page, budget, taken);
            && Inv(p.s) && Onward(s, p.s) && SameRow(s, p.s)
            && (!p.aborted ==> forall id :: Some(id) in page ==> id in p.s.claims)
  {
    if page != [] {
      var init, row := page[..|page| - 1], page[|page| - 1];
      PersistKeeps(s, init, budget, taken);
      var p := Persist(s, init, budget, taken);
      if !p.aborted {
        PersistOneKeeps(p.s, row, p.budget, taken);
        assert page == init + [row];
      }
    }
  }

  lemma {:induction false} MaxSeenBounds(cursor: Option<nat>, page: seq<Option<nat>>)
    ensures AtMost(cursor, MaxSeen(cursor, page))
    ensures forall id :: Some(id) in page ==> AtMost(Some(id), MaxSeen(cursor, page))
    ensures MaxSeen(cursor, page) == cursor || (MaxSeen(cursor, page).Some? && MaxSeen(cursor, page) in page)
  {
    if page != [] {
      MaxSeenBounds(cursor, page[..|page| - 1]);
      assert page == page[..|page| - 1] + [page[|page| - 1]];
    }
  }

  lemma FinishKeeps(s: State, r: Run, page: seq<Option<nat>>, budget: nat, limit: nat)
    requires Inv(s)
    ensures var t := Finish(s, r, page, Cursor(s), budget, limit);
            Inv(t) && Onward(s, t) && t.claims == s.claims && Cursor(t) in {Cursor(s), MaxSeen(Cursor(s), page)}
  {
    MaxSeenBounds(Cursor(s), page);
  }

  /** No run, wherever it dies, stores a trade twice, forgets a claim, moves the cursor back or leaves
      the live phase. */
  lemma SyncKeeps(s: State, r: Run, limit: nat)
    requires Inv(s)
    ensures Inv(Sync(s, r, limit)) && Onward(s, Sync(s, r, limit))
  {
    if !SkipsBackfill(s, r) {
      SyncTradesKeeps(s, r, r.budget, limit);
    } else if r.budget > 0 {
      SyncTradesKeeps(s.(phase := Live), r, r.budget - 1, limit);
    }
  }

  lemma SyncTradesKeeps(s: State, r: Run, budget: nat, limit: nat)
    requires Inv(s)
    ensures Inv(SyncTrades(s, r, budget, limit)) && Onward(s, SyncTrades(s, r, budget, limit))
  {
    if r.page.Some? && r.page.value != [] {
      var page := r.page.value;
      PersistKeeps(s, page, budget, r.taken);
      var p := Persist(s, page, budget, r.taken);
      if !p.aborted { FinishKeeps(p.s, r, page, p.budget, limit); }
    }
  }

  // ---- Nothing is skipped ----

  /** From where the exchange is asked: from the cursor, else from the beginning while backfilling,
      else from the start of a time window. The exchange may or may not repeat the trade asked from. */
  function From(s: State, r: Run, window: nat): nat {
    if Cursor(s).Some? then Cursor(s).value
    else if s.phase.Backfill? && r.backfillEnabled then 0
    else window
  }

  /** The page holds the first trades of the exchange from there on. */
  ghost predicate FirstFrom(page: seq<Option<nat>>, ledger: set<nat>, from: nat, cursor: Option<nat>) {
    && (forall i :: 0 <= i < |page| ==> page[i].Some? && page[i].value in ledger && page[i].value >= from)
    && (forall id, last :: id in ledger && from <= id && cursor != Some(id) && Some(last) in page && id <= last ==> Some(id) in page)
  }

  /** Trades that appear at the exchange later have larger identifiers than the cursor. */
  ghost predicate LedgerGrows(before: set<nat>, after: set<nat>, cursor: Option<nat>) {
    before <= after && forall id :: id in after && id !in before && cursor.Some? ==> id > cursor.value
  }

  ghost predicate Covered(s: State, ledger: set<nat>, origin: nat) {
    Cursor(s).Some? ==> forall id :: id in ledger && origin <= id <= Cursor(s).value ==> id in s.claims
  }

  datatype Tick = Tick(run: Run, ledger: set<nat>, window: nat)

  ghost predicate Fed(s: State, before: set<nat>, t: Tick, origin: nat) {
    && LedgerGrows(before, t.ledger, Cursor(s))
    && (t.run.page.Some? ==> FirstFrom(t.run.page.value, t.ledger, From(s, t.run, t.window), Cursor(s)))
    && (Cursor(s).None? ==> From(s, t.run, t.window) <= origin)
  }

  lemma SyncCovers(s: State, before: set<nat>, t: Tick, origin: nat, limit: nat)
    requires Inv(s) && Covered(s, before, origin) && Fed(s, before, t, origin)
    ensures Covered(Sync(s, t.run, limit), t.ledger, origin)
  {
    var r := t.run;
    assert Covered(s, t.ledger, origin);
    if SkipsBackfill(s, r) {
      if r.budget > 0 { SyncTradesCovers(s.(phase := Live), r, r.budget - 1, t.ledger, From(s, r, t.window), origin, limit); }
    } else {
      SyncTradesCovers(s, r, r.budget, t.ledger, From(s, r, t.window), origin, limit);
    }
  }

  lemma SyncTradesCovers(s: State, r: Run, budget: nat, ledger: set<nat>, from: nat, origin: nat, limit: nat)
    requires Inv(s) && Covered(s, ledger, origin)
    requires r.page.Some? ==> FirstFrom(r.page.value, ledger, from, Cursor(s))
    requires if Cursor(s).Some? then from == Cursor(s).value else from <= origin
    ensures Covered(SyncTrades(s, r, budget, limit), ledger, origin)
  {
    if r.page.Some? && r.page.value != [] {
      var page := r.page.value;
      PersistKeeps(s, page, budget, r.taken);
      var p := Persist(s, page, budget, r.taken);
      if !p.aborted {
        FinishKeeps(p.s, r, page, p.budget, limit);
        MaxSeenBounds(Cursor(s), page);
        var t := Finish(p.s, r, page, Cursor(s), p.budget, limit);
        forall id | Cursor(t).Some? && id in ledger && origin <= id <= Cursor(t).value ensures id in t.claims {
          if Cursor(s).None? || id > Cursor(s).value {
            assert Cursor(t) in page;
            assert Some(id) in page;
          }
        }
      }
    }
  }

  // ---- Whole histories ----

  function After(s: State, ticks: seq<Tick>, limit: nat): State
    decreases |ticks|
  {
    if ticks == [] then s else After(Sync(s, ticks[0].run, limit), ticks[1..], limit)
  }

  ghost predicate AllFed(s: State, before: set<nat>, ticks: seq<Tick>, origin: nat, limit: nat)
    decreases |ticks|
  {
    ticks != [] ==>
      Fed(s, before, ticks[0], origin)
      && AllFed(Sync(s, ticks[0].run, limit), ticks[0].ledger, ticks[1..], origin, limit)
  }

  /** Over every serial history, dying runs included: each claimed trade is stored once or unsaved, and
      claims, events, cursor and phase only move on. */
  lemma {:induction false} EveryHistoryKeeps(s: State, ticks: seq<Tick>, limit: nat)
    requires Inv(s)
    ensures Inv(After(s, ticks, limit)) && Onward(s, After(s, ticks, limit))
    decreases |ticks|
  {
    if ticks != [] {
      SyncKeeps(s, ticks[0].run, limit);
      var t := Sync(s, ticks[0].run, limit);
      EveryHistoryKeeps(t, ticks[1..], limit);
    }
  }

  /** Every trade the exchange has from `origin` up to the cursor has been claimed, where `origin` is
      where the latest cursorless request may start: 0 when those are all backfill requests. */
  lemma {:induction false} EveryHistoryCovers(s: State, before: set<nat>, ticks: seq<Tick>, origin: nat, limit: nat)
    requires Inv(s) && Covered(s, before, origin) && AllFed(s, before, ticks, origin, limit)
    ensures Covered(After(s, ticks, limit), if ticks == [] then before else ticks[|ticks| - 1].ledger, origin)
    decreases |ticks|
  {
    if ticks != [] {
      SyncKeeps(s, ticks[0].run, limit);
      SyncCovers(s, before, ticks[0], origin, limit);
      EveryHistoryCovers(Sync(s, ticks[0].run, limit), ticks[0].ledger, ticks[1..], origin, limit);
    }
  }

  /** A run that dies between claim and event leaves a trade that later runs pass over: claimed, below
      the cursor, never stored. */
  lemma ClaimedButNeverStored()
    ensures var dies := Run(Some([Some(7)]), true, {}, 1, false);
            var again := Run(Some([Some(7)]), true, {}, 9, false);
            var t := Sync(Sync(FRESH, dies, 500), again, 500);
            7 in t.claims && 7 !in t.events && Cursor(t) == Some(7)
  {
    var dies := Run(Some([Some(7)]), true, {}, 1, false);
    var again := Run(Some([Some(7)]), true, {}, 9, false);
    var page: seq<Option<nat>> := [Some(7)];
    assert page[..0] == [];
    var claimed := FRESH.(claims := {7}, unsaved := {7});
    assert {} + {7} == {7 as nat};
    assert Persist(FRESH, page, 1, {}) == Persisted(claimed, 0, true);
    assert Sync(FRESH, dies, 500) == claimed;
    assert Persist(claimed, page, 9, {}) == Persisted(claimed, 8, false);
    assert MaxSeen(None, page) == Some(7);
  }

  /** With the backfill switched off the first request starts at a time window, and trades before it
      stay unclaimed below the cursor. */
  lemma WindowSkipsOlderTrades()
    ensures var t := Sync(FRESH, Run(Some([Some(12)]), false, {}, 9, false), 500);
            Cursor(t) == Some(12) && 5 !in t.claims
            && FirstFrom([Some(12)], {5, 12}, From(FRESH, Run(Some([Some(12)]), false, {}, 9, false), 10), None)
  {
    var page: seq<Option<nat>> := [Some(12)];
    assert page[..0] == [];
    var live := FRESH.(phase := Live);
    var stored := live.(claims := {12}, events := [12]);
    assert {} + {12} == {12 as nat} && [] + [12] == [12 as nat];
    assert Persist(live, page, 8, {}) == Persisted(stored, 6, false);
    assert MaxSeen(None, page) == Some(12);
  }

  // ---- The job ----

  class Connection {
    var phase: Phase
    var lastTradeId: Option<nat>
    var backfillCursor: Option<nat>
    var claims: set<nat>
    var events: seq<nat>
    ghost var unsaved: set<nat>

    ghost function View(): State
      reads this
    {
      State(phase, lastTradeId, backfillCursor, claims, events, unsaved)
    }

    constructor ()
      ensures View() == FRESH
    {
      phase, lastTradeId, backfillCursor, claims, events, unsaved := Backfill, None, None, {}, [], {};
    }

    method PersistCoindcxTrade(row: Option<nat>, budget: nat, taken: set<nat>) returns (left: nat, aborted: bool)
      modifies this`claims, this`events, this`unsaved
      ensures Persisted(View(), left, aborted) == PersistOne(old(View()), row, budget, taken)
    {
      left, aborted := budget, false;
      if row.None? { return; }
      if left == 0 { return 0, true; }
      left := left - 1;
      if row.value in claims { return; }
      claims, unsaved := claims + {row.value}, unsaved + {row.value};
      if left == 0 { return 0, true; }
      left := left - 1;
      if row.value in taken { return; }
      events, unsaved := events + [row.value], old(unsaved);
    }

    /** `runCoindcxSyncForConnection`, the trades half. */
    method RunSync(r: Run, limit: nat)
      modifies this
      ensures View() == Sync(old(View()), r, limit)
    {
      var left := r.budget;
      if phase.Backfill? && !r.backfillEnabled {
        if left == 0 { return; }
        phase, left := Live, left - 1;
      }
      if r.page.None? { return; }
      var trades := r.page.value;
      if trades == [] {
        if phase.Backfill? && left > 0 { phase, backfillCursor := Live, Undefined(backfillCursor, r.unset); }
        return;
      }
      var cursor := if lastTradeId.Some? then lastTradeId else backfillCursor;
      var maxSeen := MaxSeenInPage(cursor, trades);
      var aborted;
      left, aborted := PersistPage(trades, left, r.taken);
      if aborted { return; }
      if maxSeen.Some? {
        if left == 0 { return; }
        left := left - 1;
        lastTradeId, backfillCursor := maxSeen, if phase.Backfill? then maxSeen else Undefined(backfillCursor, r.unset);
      }
      if phase.Backfill? && |trades| < limit && left > 0 {
        phase, backfillCursor := Live, Undefined(backfillCursor, r.unset);
      }
    }

    method PersistPage(trades: seq<Option<nat>>, budget: nat, taken: set<nat>) returns (left: nat, aborted: bool)
      modifies this`claims, this`events, this`unsaved
      ensures Persisted(View(), left, aborted) == Persist(old(View()), trades, budget, taken)
    {
      left, aborted := budget, false;
      var i := 0;
      while i < |trades|
        invariant i <= |trades| && !aborted
        invariant Persisted(View(), left, false) == Persist(old(View()), trades[..i], budget, taken)
      {
        assert trades[..i + 1][..i] == trades[..i];
        left, aborted := PersistCoindcxTrade(trades[i], left, taken);
        if aborted {
          PersistStopped(old(View()), trades, i + 1, budget, taken);
          return;
        }
        i := i + 1;
      }
      assert trades[..|trades|] == trades;
    }
  }

  /** A run that died persisting a prefix of the page died persisting the page. */
  lemma {:induction false} PersistStopped(s: State, page: seq<Option<nat>>, n: nat, budget: nat, taken: set<nat>)
    requires n <= |page| && Persist(s, page[..n], budget, taken).aborted
    ensures Persist(s, page, budget, taken) == Persist(s, page[..n], budget, taken)
  {
    if n == |page| {
      assert page[..n] == page;
    } else {
      assert page[..|page| - 1][..n] == page[..n];
      PersistStopped(s, page[..|page| - 1], n, budget, taken);
    }
  }

  method MaxSeenInPage(cursor: Option<nat>, trades: seq<Option<nat>>) returns (maxSeen: Option<nat>)
    ensures maxSeen == MaxSeen(cursor, trades)
  {
    maxSeen := cursor;
    for i := 0 to |trades|
      invariant maxSeen == MaxSeen(cursor, trades[..i])
    {
      assert trades[..i + 1][..i] == trades[..i];
      if trades[i].Some? {
        maxSeen := if maxSeen.Some? then Some(MaxId(maxSeen.value, trades[i].value)) else trades[i];
      }
    }
    assert trades[..|trades|] == trades;
  }
}
