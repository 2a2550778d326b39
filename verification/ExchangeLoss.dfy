/** Exactly when a run of the trade sync claims a trade it never stores, that such a trade stays
    unstored, and exactly when a time window skips trades. */
module ExchangeLoss {
  import opened Basics
  import opened ExchangeSync

  ghost function Ids(page: seq<Option<nat>>): set<nat> {
    set row | row in page && row.Some? :: row.value
  }

  /** The row's trade is claimed neither before the run nor by an earlier row. */
  predicate IsNew(claims: set<nat>, page: seq<Option<nat>>, i: nat)
    requires i < |page|
  {
    page[i].Some? && page[i].value !in claims && page[i] !in page[..i]
  }

  /** Commands it takes to persist the page: a claim for each trade, and an event for each new one. */
  function Commands(claims: set<nat>, page: seq<Option<nat>>): nat {
    if page == [] then 0
    else
      var last := |page| - 1;
      Commands(claims, page[..last]) + (if page[last].None? then 0 else if IsNew(claims, page, last) then 2 else 1)
  }

  /** A new row that is reached is not stored elsewhere, and the run outlives its event. */
  predicate RowStored(claims: set<nat>, page: seq<Option<nat>>, budget: nat, taken: set<nat>, i: nat)
    requires i < |page|
  {
    var before := Commands(claims, page[..i]);
    IsNew(claims, page, i) && before < budget ==> page[i].value !in taken && before + 1 < budget
  }

  predicate StoresAll(claims: set<nat>, page: seq<Option<nat>>, budget: nat, taken: set<nat>) {
    forall i :: 0 <= i < |page| ==> RowStored(claims, page, budget, taken, i)
  }

  lemma StoresAllSplit(claims: set<nat>, page: seq<Option<nat>>, budget: nat, taken: set<nat>)
    requires page != []
    ensures var last := |page| - 1;
            StoresAll(claims, page, budget, taken) <==>
            StoresAll(claims, page[..last], budget, taken) && RowStored(claims, page, budget, taken, last)
  {
    var last := |page| - 1;
    forall i | 0 <= i < last
      ensures RowStored(claims, page[..last], budget, taken, i) <==> RowStored(claims, page, budget, taken, i)
    {
      assert page[..last][..i] == page[..i];
    }
  }

  lemma IdsSplit(page: seq<Option<nat>>)
    requires page != []
    ensures var last := |page| - 1;
            && Ids(page) == Ids(page[..last]) + (if page[last].Some? then {page[last].value} else {})
            && (page[last].Some? ==> (page[last].value in Ids(page[..last]) <==> page[last] in page[..last]))
  {
    assert page == page[..|page| - 1] + [page[|page| - 1]];
  }

  /** What persisting a page comes to: whether the run survives it, the commands left, the claims made. */
  ghost predicate Tallied(s: State, page: seq<Option<nat>>, budget: nat, p: Persisted) {
    && (p.aborted <==> Commands(s.claims, page) > budget)
    && (!p.aborted ==> p.budget == budget - Commands(s.claims, page) && p.s.claims == s.claims + Ids(page))
  }

  lemma {:induction false} PersistTallied(s: State, page: seq<Option<nat>>, budget: nat, taken: set<nat>)
    ensures Tallied(s, page, budget, Persist(s, page, budget, taken))
  {
    if page != [] {
      PersistTallied(s, page[..|page| - 1], budget, taken);
      IdsSplit(page);
      hide Ids;
    } else {
      assert Ids(page) == {};
    }
  }

  lemma RowLosesIff(s: State, row: Option<nat>, budget: nat, taken: set<nat>)
    requires Inv(s)
    ensures PersistOne(s, row, budget, taken).s.unsaved == s.unsaved <==>
            (row.Some? && row.value !in s.claims && budget > 0 ==> row.value !in taken && budget > 1)
  {
  }

  lemma {:induction false} PageLosesIff(s: State, page: seq<Option<nat>>, budget: nat, taken: set<nat>)
    requires Inv(s)
    ensures Persist(s, page, budget, taken).s.unsaved == s.unsaved <==> StoresAll(s.claims, page, budget, taken)
  {
    if page != [] {
      var init, last := page[..|page| - 1], |page| - 1;
      var p := Persist(s, init, budget, taken);
      PageLosesIff(s, init, budget, taken);
      PersistKeeps(s, init, budget, taken);
      PersistTallied(s, init, budget, taken);
      StoresAllSplit(s.claims, page, budget, taken);
      IdsSplit(page);
      if !p.aborted {
        RowLosesIff(p.s, page[last], p.budget, taken);
        PersistOneKeeps(p.s, page[last], p.budget, taken);
      }
      hide Ids, PersistOne, Inv, StoresAll;
    }
  }

  lemma FinishKeepsUnsaved(s: State, r: Run, page: seq<Option<nat>>, cursor: Option<nat>, budget: nat, limit: nat)
    ensures Finish(s, r, page, cursor, budget, limit).unsaved == s.unsaved
  {
  }

  /** Commands left for the page once the phase has been switched. */
  function Allowance(s: State, r: Run): nat {
    if SkipsBackfill(s, r) && r.budget > 0 then r.budget - 1 else r.budget
  }

  /** The run stores every trade it claims. */
  predicate StoresClaims(s: State, r: Run) {
    r.page.None? || StoresAll(s.claims, r.page.value, Allowance(s, r), r.taken)
  }

  lemma TradesLoseIff(s: State, r: Run, budget: nat, limit: nat)
    requires Inv(s) && r.page.Some?
    ensures SyncTrades(s, r, budget, limit).unsaved == s.unsaved <==> StoresAll(s.claims, r.page.value, budget, r.taken)
  {
    var page := r.page.value;
    PageLosesIff(s, page, budget, r.taken);
    var p := Persist(s, page, budget, r.taken);
    FinishKeepsUnsaved(p.s, r, page, Cursor(s), p.budget, limit);
  }

  /** A run leaves no claim unstored if and only if no new trade it reaches is already stored through
      another connection and it does not die between the claim of a new trade and its event. */
  lemma SyncLosesNothingIff(s: State, r: Run, limit: nat)
    requires Inv(s)
    ensures Sync(s, r, limit).unsaved == s.unsaved <==> StoresClaims(s, r)
  {
    if r.page.Some? {
      if !SkipsBackfill(s, r) { TradesLoseIff(s, r, r.budget, limit); }
      else if r.budget > 0 { TradesLoseIff(s.(phase := Live), r, r.budget - 1, limit); }
    }
  }

  predicate AnyLoss(s: State, ticks: seq<Tick>, limit: nat)
    decreases |ticks|
  {
    ticks != [] && (!StoresClaims(s, ticks[0].run) || AnyLoss(Sync(s, ticks[0].run, limit), ticks[1..], limit))
  }

  lemma {:induction false} HistoryLosesIff(s: State, ticks: seq<Tick>, limit: nat)
    requires Inv(s)
    ensures After(s, ticks, limit).unsaved == s.unsaved <==> !AnyLoss(s, ticks, limit)
    decreases |ticks|
  {
    if ticks != [] {
      var t := Sync(s, ticks[0].run, limit);
      SyncKeeps(s, ticks[0].run, limit);
      SyncLosesNothingIff(s, ticks[0].run, limit);
      EveryHistoryKeeps(t, ticks[1..], limit);
      HistoryLosesIff(t, ticks[1..], limit);
      hide Inv, Sync, StoresClaims;
    }
  }

  lemma FreshInv()
    ensures Inv(FRESH) && FRESH.unsaved == {} && forall ledger, origin :: Covered(FRESH, ledger, origin)
  {
  }

  /** A connection's whole history, dying runs included, stores every trade it claims if and only if each
      of its runs does. */
  lemma EveryClaimStoredIff(ticks: seq<Tick>, limit: nat)
    ensures var t := After(FRESH, ticks, limit);
            (forall id :: id in t.claims ==> id in t.events) <==> !AnyLoss(FRESH, ticks, limit)
  {
    FreshInv();
    EveryHistoryKeeps(FRESH, ticks, limit);
    HistoryLosesIff(FRESH, ticks, limit);
    var t := After(FRESH, ticks, limit);
    hide After, AnyLoss;
    assert (forall id :: id in t.claims ==> id in t.events) ==> t.unsaved == {};
  }

  /** A trade claimed but not stored is never stored, whatever runs follow. */
  lemma LostForEver(s: State, ticks: seq<Tick>, limit: nat, id: nat)
    requires Inv(s) && id in s.claims && id !in s.events
    ensures var t := After(s, ticks, limit); id in t.claims && id !in t.events
  {
    EveryHistoryKeeps(s, ticks, limit);
  }

  // ---- The time window ----

  lemma MovedFromNone(s: State, r: Run, budget: nat, limit: nat)
    requires Cursor(s).None? && Cursor(SyncTrades(s, r, budget, limit)).Some?
    ensures r.page.Some?
    ensures var t := SyncTrades(s, r, budget, limit);
            t.claims == s.claims + Ids(r.page.value) && Cursor(t) == MaxSeen(None, r.page.value)
  {
    assert r.page.Some? && r.page.value != [];
    var page := r.page.value;
    PersistTallied(s, page, budget, r.taken);
    PersistSameRow(s, page, budget, r.taken);
  }

  lemma {:induction false} PersistSameRow(s: State, page: seq<Option<nat>>, budget: nat, taken: set<nat>)
    ensures SameRow(s, Persist(s, page, budget, taken).s)
  {
    if page != [] { PersistSameRow(s, page[..|page| - 1], budget, taken); }
  }

  lemma WindowTradesIff(s: State, r: Run, budget: nat, ledger: set<nat>, from: nat, limit: nat)
    requires Cursor(s).None? && Cursor(SyncTrades(s, r, budget, limit)).Some?
    requires r.page.Some? ==> FirstFrom(r.page.value, ledger, from, None)
    ensures Covered(SyncTrades(s, r, budget, limit), ledger, 0) <==>
            forall id :: id in ledger && id < from ==> id in s.claims
  {
    MovedFromNone(s, r, budget, limit);
    var page, t := r.page.value, SyncTrades(s, r, budget, limit);
    MaxSeenBounds(None, page);
    var last := Cursor(t).value;
    assert Some(last) in page && last >= from;
    forall id | id in ledger && id <= last ensures id in t.claims <==> id in s.claims || id >= from {
      if id >= from { assert Some(id) in page; }
    }
  }

  /** The first run that gets a cursor has claimed everything up to it if and only if every trade the
      exchange has from before the request's start was claimed already: nothing, when it is a backfill. */
  lemma WindowCoversIff(s: State, t: Tick, limit: nat)
    requires Inv(s) && Cursor(s).None? && Cursor(Sync(s, t.run, limit)).Some?
    requires t.run.page.Some? ==> FirstFrom(t.run.page.value, t.ledger, From(s, t.run, t.window), None)
    ensures Covered(Sync(s, t.run, limit), t.ledger, 0) <==>
            forall id :: id in t.ledger && id < From(s, t.run, t.window) ==> id in s.claims
  {
    var r, from := t.run, From(s, t.run, t.window);
    if !SkipsBackfill(s, r) {
      WindowTradesIff(s, r, r.budget, t.ledger, from, limit);
    } else {
      WindowTradesIff(s.(phase := Live), r, r.budget - 1, t.ledger, from, limit);
    }
  }

  // ---- What the coverage of a history asks of the exchange ----

  /** Trades the exchange has, none of them before `from`, and with each of them every earlier one from
      there on except perhaps the trade at the cursor. */
  ghost predicate NextTrades(page: seq<Option<nat>>, ledger: set<nat>, from: nat, cursor: Option<nat>) {
    && (forall row :: row in page ==> row.Some? && row.value in ledger && row.value >= from)
    && (forall id, last :: id in ledger && from <= id <= last && Some(last) in page && Some(id) != cursor ==> Some(id) in page)
  }

  /** A backfilling connection without a cursor asks from the very first trade: after its run every trade up
      to the cursor, from identifier 0 on, has been claimed. */
  lemma BackfillCoversFromStart(s: State, before: set<nat>, t: Tick, limit: nat)
    requires Inv(s) && Cursor(s).None? && s.phase.Backfill? && t.run.backfillEnabled && before <= t.ledger
    requires t.run.page.Some? ==> NextTrades(t.run.page.value, t.ledger, 0, None)
    ensures var u := Sync(s, t.run, limit);
            forall id :: id in t.ledger && Cursor(u).Some? && id <= Cursor(u).value ==> id in u.claims
  {
    assert Fed(s, before, t, 0);
    SyncCovers(s, before, t, 0, limit);
  }

  /** With a cursor the exchange is asked from there on: what was claimed up to the cursor before the run
      is claimed up to the new one after it. */
  lemma CursorCoversOn(s: State, before: set<nat>, t: Tick, limit: nat, k: nat)
    requires Inv(s) && Cursor(s) == Some(k) && before <= t.ledger
    requires forall id :: id in t.ledger && id !in before ==> id > k
    requires t.run.page.Some? ==> NextTrades(t.run.page.value, t.ledger, k, Some(k))
    requires forall id :: id in before && id <= k ==> id in s.claims
    ensures var u := Sync(s, t.run, limit);
            forall id :: id in t.ledger && Cursor(u).Some? && id <= Cursor(u).value ==> id in u.claims
  {
    assert Fed(s, before, t, 0);
    SyncCovers(s, before, t, 0, limit);
  }

  // ---- Phase and cursor after a run ----

  ghost predicate HasId(page: seq<Option<nat>>) {
    exists row :: row in page && row.Some?
  }

  /** Commands up to and including the cursor update: it is made when there is anything to write. */
  ghost function CommandsToCursor(s: State, page: seq<Option<nat>>): nat {
    Commands(s.claims, page) + (if page != [] && (HasId(page) || Cursor(s).Some?) then 1 else 0)
  }

  /** The backfill is over: a page that is empty or shorter than the limit was handled, and one more
      command was left. */
  ghost predicate EndsBackfill(s: State, r: Run, limit: nat) {
    && r.page.Some? && (r.page.value == [] || |r.page.value| < limit)
    && CommandsToCursor(s, r.page.value) < r.budget
  }

  lemma {:induction false} SeenIff(cursor: Option<nat>, page: seq<Option<nat>>)
    ensures MaxSeen(cursor, page).Some? <==> HasId(page) || cursor.Some?
  {
    MaxSeenBounds(cursor, page);
    if HasId(page) {
      var row :| row in page && row.Some?;
      assert Some(row.value) in page;
    }
  }

  /** A connection is live after a run exactly when it was before, or the backfill is switched off and the
      run lives to note it, or the run ends the backfill. */
  lemma LiveIff(s: State, r: Run, limit: nat)
    ensures Sync(s, r, limit).phase.Live? <==>
            s.phase.Live? || (!r.backfillEnabled && r.budget > 0) || (r.backfillEnabled && EndsBackfill(s, r, limit))
  {
    if s.phase.Backfill? && r.backfillEnabled {
      if r.page.Some? { TradesEnd(s, r, r.budget, limit); }
    } else if r.page.Some? {
      var live := s.(phase := Live);
      TradesEnd(live, r, if SkipsBackfill(s, r) && r.budget > 0 then r.budget - 1 else r.budget, limit);
      if s.phase.Live? { assert live == s; }
    }
  }

  lemma TradesEnd(s: State, r: Run, budget: nat, limit: nat)
    requires r.page.Some?
    ensures var t, page := SyncTrades(s, r, budget, limit), r.page.value;
            && (t.phase.Live? <==>
                  s.phase.Live? || ((page == [] || |page| < limit) && CommandsToCursor(s, page) < budget))
            && (page != [] && CommandsToCursor(s, page) <= budget && MaxSeen(Cursor(s), page).Some? ==>
                  t.lastTradeId == MaxSeen(Cursor(s), page)
                  && (t.phase.Backfill? ==> t.backfillCursor == t.lastTradeId))
            && (page == [] || CommandsToCursor(s, page) > budget || MaxSeen(Cursor(s), page).None? ==>
                  t.lastTradeId == s.lastTradeId && (t.phase == s.phase ==> t.backfillCursor == s.backfillCursor))
  {
    var page := r.page.value;
    if page != [] {
      PersistTallied(s, page, budget, r.taken);
      PersistSameRow(s, page, budget, r.taken);
      SeenIff(Cursor(s), page);
      hide Ids, Persist, MaxSeen, HasId, Commands;
    }
  }

  /** A run that lives through its page and the write after it leaves the largest identifier it knows as
      cursor, while backfilling in both fields; any other run leaves the cursor where it was. */
  lemma CursorIff(s: State, r: Run, limit: nat)
    requires r.page.Some? && !SkipsBackfill(s, r)
    ensures var t, page := Sync(s, r, limit), r.page.value;
            if page != [] && CommandsToCursor(s, page) <= r.budget && (HasId(page) || Cursor(s).Some?) then
              && t.lastTradeId.Some? && (t.phase.Backfill? ==> t.backfillCursor == t.lastTradeId)
              && (forall id :: Some(id) in page || Cursor(s) == Some(id) ==> id <= t.lastTradeId.value)
              && (t.lastTradeId in page || t.lastTradeId == Cursor(s))
            else t.lastTradeId == s.lastTradeId && (t.phase == s.phase ==> t.backfillCursor == s.backfillCursor)
  {
    TradesEnd(s, r, r.budget, limit);
    SeenIff(Cursor(s), r.page.value);
    MaxSeenBounds(Cursor(s), r.page.value);
    hide SyncTrades, MaxSeen, HasId, CommandsToCursor;
  }
}
