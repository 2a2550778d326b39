/** The response cache with its map of fetches in flight, as a machine over the points at which a
    request waits: the cache read, the fetch, the cache write and the shared promise. */
module SingleFlight {
  import opened Basics

  datatype Result = Ok(data: nat) | Failed

  /** The promise in the in-flight map: fetching, then storing, then settled. */
  datatype Progress = Fetching | Storing(data: nat) | Settled(result: Result)
  datatype Fetch = Fetch(key: string, progress: Progress)

  /** A request: reading the cache, waiting for a fetch, or answered (by that fetch, or by the cache). */
  datatype Caller = Reading(key: string) | Waiting(key: string, fetch: nat) | Answered(key: string, result: Result, source: Option<nat>)

  datatype State = State(callers: map<nat, Caller>, fetches: seq<Fetch>, inflight: map<string, nat>,
                         cache: map<string, nat>, fetched: set<(string, nat)>)

  /** `throws` is a fetcher that throws before it returns a promise. */
  datatype Event =
    | Ask(caller: nat, key: string)
    | ReadReturns(caller: nat, readable: bool, throws: bool)
    | FetchReturns(fetch: nat, result: Result)
    | StoreReturns(fetch: nat, stored: bool)
    | Resume(caller: nat)
    | Evict(key: string)

  const INITIAL := State(map[], [], map[], map[], {})

  predicate Running(f: Fetch) { !f.progress.Settled? }

  function Answer(s: State, c: nat, key: string, r: Result, f: Option<nat>): State {
    s.(callers := s.callers[c := Answered(key, r, f)])
  }

  /** After a miss: join the fetch in flight, or start one and enter it in the map. */
  function JoinOrStart(s: State, c: nat, key: string, throws: bool): State {
    if key in s.inflight then s.(callers := s.callers[c := Waiting(key, s.inflight[key])])
    else
      s.(callers := s.callers[c := Waiting(key, |s.fetches|)],
         fetches := s.fetches + [Fetch(key, if throws then Settled(Failed) else Fetching)],
         inflight := s.inflight[key := |s.fetches|])
  }

  /** The `finally` block: the entry of the key is deleted and the promise settles. */
  function Settle(s: State, f: nat, r: Result): State
    requires f < |s.fetches|
  {
    var key := s.fetches[f].key;
    s.(fetches := s.fetches[f := Fetch(key, Settled(r))], inflight := s.inflight - {key})
  }

  predicate Waits(s: State, c: nat) {
    c in s.callers && s.callers[c].Waiting? && s.callers[c].fetch < |s.fetches|
  }

  function Step(s: State, e: Event): State {
    match e
    case Ask(c, key) => if c in s.callers then s else s.(callers := s.callers[c := Reading(key)])
    case ReadReturns(c, readable, throws) =>
      if c !in s.callers || !s.callers[c].Reading? then s
      else
        var key := s.callers[c].key;
        if readable && key in s.cache then Answer(s, c, key, Ok(s.cache[key]), None)
        else JoinOrStart(s, c, key, throws)
    case FetchReturns(f, r) =>
      if f >= |s.fetches| || !s.fetches[f].progress.Fetching? then s
      else if r.Failed? then Settle(s, f, Failed)
      else
        var key := s.fetches[f].key;
        s.(fetches := s.fetches[f := Fetch(key, Storing(r.data))], fetched := s.fetched + {(key, r.data)})
    case StoreReturns(f, stored) =>
      if f >= |s.fetches| || !s.fetches[f].progress.Storing? then s
      else
        var key, data := s.fetches[f].key, s.fetches[f].progress.data;
        Settle(if stored then s.(cache := s.cache[key := data]) else s, f, Ok(data))
    case Resume(c) =>
      if !Waits(s, c) || Running(s.fetches[s.callers[c].fetch]) then s
      else Answer(s, c, s.callers[c].key, s.fetches[s.callers[c].fetch].progress.result, Some(s.callers[c].fetch))
    case Evict(key) => s.(cache := s.cache - {key})
  }

  function Run(s: State, events: seq<Event>): State
    decreases |events|
  {
    if events == [] then s else Run(Step(s, events[0]), events[1..])
  }

  // ---- What holds with every fetcher ----

  ghost predicate KnownData(s: State, key: string, r: Result) {
    r.Ok? ==> (key, r.data) in s.fetched
  }

  ghost predicate CallerOk(s: State, c: Caller) {
    match c
    case Reading(_) => true
    case Waiting(key, f) => f < |s.fetches| && s.fetches[f].key == key
    case Answered(key, r, None) => KnownData(s, key, r)
    case Answered(key, r, Some(f)) => f < |s.fetches| && s.fetches[f] == Fetch(key, Settled(r))
  }

  ghost predicate FetchOk(s: State, f: Fetch) {
    match f.progress
    case Fetching => true
    case Storing(data) => (f.key, data) in s.fetched
    case Settled(r) => KnownData(s, f.key, r)
  }

  /** Callers see the result of the fetch they joined, and all data was fetched for its key. */
  ghost predicate Faithful(s: State) {
    && (forall c :: c in s.callers ==> CallerOk(s, s.callers[c]))
    && (forall f :: 0 <= f < |s.fetches| ==> FetchOk(s, s.fetches[f]))
    && (forall key :: key in s.cache ==> (key, s.cache[key]) in s.fetched)
    && (forall key :: key in s.inflight ==> s.inflight[key] < |s.fetches| && s.fetches[s.inflight[key]].key == key)
  }

  /** Every running fetch is the one in the map for its key. */
  ghost predicate OneFlight(s: State) {
    forall f :: 0 <= f < |s.fetches| && Running(s.fetches[f]) ==>
                  s.fetches[f].key in s.inflight && s.inflight[s.fetches[f].key] == f
  }

  /** Every entry of the map is a running fetch. */
  ghost predicate NoStaleEntry(s: State) {
    forall key :: key in s.inflight ==> s.inflight[key] < |s.fetches| && Running(s.fetches[s.inflight[key]])
  }

  /** Fetches keep their keys and results, and fetched data stays fetched. */
  ghost predicate Grows(s: State, t: State) {
    && s.fetched <= t.fetched && |s.fetches| <= |t.fetches|
    && (forall f :: 0 <= f < |s.fetches| ==> t.fetches[f].key == s.fetches[f].key)
    && (forall f :: 0 <= f < |s.fetches| && s.fetches[f].progress.Settled? ==> t.fetches[f] == s.fetches[f])
  }

  /** Before the first request all of it holds. */
  lemma InitiallyOneFlight()
    ensures Faithful(INITIAL) && OneFlight(INITIAL) && NoStaleEntry(INITIAL)
  {
  }

  lemma StepGrows(s: State, e: Event)
    ensures Grows(s, Step(s, e))
  {
  }

  lemma CallerKept(s: State, t: State, c: Caller)
    requires Grows(s, t) && CallerOk(s, c)
    ensures CallerOk(t, c)
  {
  }

  lemma StepCallers(s: State, e: Event)
    requires Faithful(s)
    ensures forall c :: c in Step(s, e).callers ==> CallerOk(Step(s, e), Step(s, e).callers[c])
  {
    var t := Step(s, e);
    StepGrows(s, e);
    forall c | c in t.callers ensures CallerOk(t, t.callers[c]) {
      if c in s.callers && t.callers[c] == s.callers[c] {
        CallerKept(s, t, s.callers[c]);
      } else {
        assert c in s.callers ==> CallerOk(s, s.callers[c]);
      }
    }
  }

  lemma FetchKept(s: State, t: State, f: nat)
    requires Faithful(s) && f < |s.fetches| && Grows(s, t)
    ensures FetchOk(t, s.fetches[f])
  {
    assert FetchOk(s, s.fetches[f]);
    hide Faithful;
  }

  lemma StepFetches(s: State, e: Event)
    requires Faithful(s)
    ensures forall f :: 0 <= f < |Step(s, e).fetches| ==> FetchOk(Step(s, e), Step(s, e).fetches[f])
  {
    var t := Step(s, e);
    StepGrows(s, e);
    forall f | 0 <= f < |t.fetches| ensures FetchOk(t, t.fetches[f]) {
      if f < |s.fetches| && t.fetches[f] == s.fetches[f] {
        hide *;
        FetchKept(s, t, f);
      } else {
        assert f < |s.fetches| ==> FetchOk(s, s.fetches[f]);
        hide CallerOk;
      }
    }
  }

  lemma StepMaps(s: State, e: Event)
    requires Faithful(s)
    ensures var t := Step(s, e);
            && (forall key :: key in t.cache ==> (key, t.cache[key]) in t.fetched)
            && (forall key :: key in t.inflight ==> t.inflight[key] < |t.fetches| && t.fetches[t.inflight[key]].key == key)
  {
    StepGrows(s, e);
    if e.StoreReturns? && e.fetch < |s.fetches| { assert FetchOk(s, s.fetches[e.fetch]); }
  }

  lemma StepFaithful(s: State, e: Event)
    requires Faithful(s)
    ensures Faithful(Step(s, e))
  {
    StepCallers(s, e);
    StepFetches(s, e);
    StepMaps(s, e);
  }

  lemma StepOneFlight(s: State, e: Event)
    requires Faithful(s) && OneFlight(s)
    ensures OneFlight(Step(s, e))
  {
  }

  /** Under every interleaving there is at most one running fetch per key, every caller that joined a
      fetch gets its result, and cache and callers hold only data fetched for their key. */
  lemma {:induction false} AlwaysOneFlight(s: State, events: seq<Event>)
    requires Faithful(s) && OneFlight(s)
    ensures Faithful(Run(s, events)) && OneFlight(Run(s, events))
    decreases |events|
  {
    if events != [] {
      StepFaithful(s, events[0]);
      StepOneFlight(s, events[0]);
      AlwaysOneFlight(Step(s, events[0]), events[1..]);
    }
  }

  // ---- What needs fetchers that return promises ----

  /** The event starts a fetcher that throws before returning a promise. */
  predicate Poisons(s: State, e: Event) {
    && e.ReadReturns? && e.throws && e.caller in s.callers && s.callers[e.caller].Reading?
    && !(e.readable && s.callers[e.caller].key in s.cache)
    && s.callers[e.caller].key !in s.inflight
  }

  predicate EverPoisons(s: State, events: seq<Event>)
    decreases |events|
  {
    events != [] && (Poisons(s, events[0]) || EverPoisons(Step(s, events[0]), events[1..]))
  }

  /** The map keeps an entry whose promise has already failed. */
  predicate Poisoned(s: State, key: string) {
    key in s.inflight && s.inflight[key] < |s.fetches| && s.fetches[s.inflight[key]] == Fetch(key, Settled(Failed))
  }

  lemma StepKeepsPoison(s: State, e: Event, key: string)
    requires Faithful(s) && OneFlight(s) && Poisoned(s, key)
    ensures Poisoned(Step(s, e), key)
  {
    var g := s.inflight[key];
    var t := Step(s, e);
    match e
    case FetchReturns(f, _) => {
      if f < |s.fetches| && s.fetches[f].progress.Fetching? { assert s.inflight[s.fetches[f].key] == f; }
    }
    case StoreReturns(f, _) => {
      if f < |s.fetches| && s.fetches[f].progress.Storing? { assert s.inflight[s.fetches[f].key] == f; }
    }
    case _ => {}
  }

  lemma {:induction false} PoisonStays(s: State, events: seq<Event>, key: string)
    requires Faithful(s) && OneFlight(s) && Poisoned(s, key)
    ensures Poisoned(Run(s, events), key)
    decreases |events|
  {
    if events != [] {
      StepFaithful(s, events[0]);
      StepOneFlight(s, events[0]);
      StepKeepsPoison(s, events[0], key);
      PoisonStays(Step(s, events[0]), events[1..], key);
    }
  }

  lemma StepClean(s: State, e: Event)
    requires Faithful(s) && OneFlight(s) && NoStaleEntry(s)
    ensures !Poisons(s, e) ==> NoStaleEntry(Step(s, e))
    ensures Poisons(s, e) ==> Poisoned(Step(s, e), s.callers[e.caller].key)
  {
    var t := Step(s, e);
    if !Poisons(s, e) {
      forall key | key in t.inflight ensures t.inflight[key] < |t.fetches| && Running(t.fetches[t.inflight[key]]) {
        assert key in s.inflight ==> Running(s.fetches[s.inflight[key]]) && s.fetches[s.inflight[key]].key == key;
      }
    }
  }

  /** The map holds exactly the running fetches after a run if and only if no fetcher in it threw
      before returning a promise; such a throw leaves a failed entry behind for good. */
  lemma {:induction false} EntriesAreRunningIff(s: State, events: seq<Event>)
    requires Faithful(s) && OneFlight(s) && NoStaleEntry(s)
    ensures NoStaleEntry(Run(s, events)) <==> !EverPoisons(s, events)
    decreases |events|
  {
    if events != [] {
      var e, t := events[0], Step(s, events[0]);
      StepFaithful(s, e);
      StepOneFlight(s, e);
      StepClean(s, e);
      if Poisons(s, e) {
        PoisonStays(t, events[1..], s.callers[e.caller].key);
      } else {
        EntriesAreRunningIff(t, events[1..]);
      }
    }
  }

  /** Once a key is poisoned, every later request that misses the cache fails. */
  lemma PoisonedRequestsFail(s: State, c: nat, key: string, readable: bool, throws: bool)
    requires Faithful(s) && Poisoned(s, key) && c in s.callers && s.callers[c] == Reading(key)
    requires !readable || key !in s.cache
    ensures Step(Step(s, ReadReturns(c, readable, throws)), Resume(c)).callers[c] ==
            Answered(key, Failed, Some(s.inflight[key]))
  {
  }

  // ---- What a stored result is for ----

  /** A fetch that ends well with its result stored leaves it in the cache under its key. */
  lemma StoredIsCached(s: State, f: nat, stored: bool)
    requires f < |s.fetches| && s.fetches[f].progress.Storing?
    ensures var t, key, data := Step(s, StoreReturns(f, stored)), s.fetches[f].key, s.fetches[f].progress.data;
            && (stored ==> key in t.cache && t.cache[key] == data)
            && (!stored ==> t.cache == s.cache)
            && (forall other :: other != key ==> (other in t.cache <==> other in s.cache)
                                                 && (other in s.cache ==> t.cache[other] == s.cache[other]))
            && t.fetches[f] == Fetch(key, Settled(Ok(data)))
  {
  }

  /** The event stores a result of the key or evicts it. */
  predicate Replaces(s: State, e: Event, key: string) {
    e == Evict(key) || (e.StoreReturns? && e.fetch < |s.fetches| && s.fetches[e.fetch].key == key)
  }

  predicate EverReplaced(s: State, events: seq<Event>, key: string)
    decreases |events|
  {
    events != [] && (Replaces(s, events[0], key) || EverReplaced(Step(s, events[0]), events[1..], key))
  }

  /** What is cached stays until it is evicted or another result of the key arrives. */
  lemma {:induction false} CachedStays(s: State, events: seq<Event>, key: string)
    requires key in s.cache && !EverReplaced(s, events, key)
    ensures key in Run(s, events).cache && Run(s, events).cache[key] == s.cache[key]
    decreases |events|
  {
    if events != [] { CachedStays(Step(s, events[0]), events[1..], key); }
  }

  /** From then on a request that can read the cache is answered with the stored result, and starts and
      joins no fetch. */
  lemma StoredIsServed(s: State, f: nat, events: seq<Event>, c: nat, throws: bool)
    requires f < |s.fetches| && s.fetches[f].progress.Storing?
    requires var u := Step(s, StoreReturns(f, true)); !EverReplaced(u, events, s.fetches[f].key)
    requires var t := Run(Step(s, StoreReturns(f, true)), events);
             c in t.callers && t.callers[c] == Reading(s.fetches[f].key)
    ensures var t := Run(Step(s, StoreReturns(f, true)), events);
            var t' := Step(t, ReadReturns(c, true, throws));
            && t'.callers[c] == Answered(s.fetches[f].key, Ok(s.fetches[f].progress.data), None)
            && t'.fetches == t.fetches && t'.inflight == t.inflight && t'.cache == t.cache
  {
    StoredIsCached(s, f, true);
    CachedStays(Step(s, StoreReturns(f, true)), events, s.fetches[f].key);
    hide Run, EverReplaced;
  }

  /** A new request that misses the cache, whatever else is going on: it joins the fetch in flight for its
      key, or starts one, and when that fetch ends it is answered with the fetch's result. */
  lemma RequestIsAnswered(s: State, c: nat, key: string, result: Result, stored: bool)
    requires c !in s.callers
    requires key in s.inflight ==> s.inflight[key] < |s.fetches| && s.fetches[s.inflight[key]] == Fetch(key, Fetching)
    ensures var f := if key in s.inflight then s.inflight[key] else |s.fetches|;
            var asked := Step(Step(s, Ask(c, key)), ReadReturns(c, false, false));
            var ended := Step(Step(asked, FetchReturns(f, result)), StoreReturns(f, stored));
            && c in asked.callers && asked.callers[c] == Waiting(key, f)
            && |asked.fetches| == |s.fetches| + (if key in s.inflight then 0 else 1)
            && key !in ended.inflight
            && var t := Step(ended, Resume(c)); c in t.callers && t.callers[c] == Answered(key, result, Some(f))
  {
    var f := if key in s.inflight then s.inflight[key] else |s.fetches|;
    var asked := Step(Step(s, Ask(c, key)), ReadReturns(c, false, false));
    assert asked.callers[c] == Waiting(key, f) && asked.fetches[f] == Fetch(key, Fetching);
    var returned := Step(asked, FetchReturns(f, result));
    assert returned.callers == asked.callers;
    var ended := Step(returned, StoreReturns(f, stored));
    assert ended.callers == asked.callers && ended.fetches[f] == Fetch(key, Settled(result));
  }
}
