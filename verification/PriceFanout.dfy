/** Price fan-out to WebSocket clients as a step machine: batches arrive, symbols become dirty, a
    debounced flush sends what changed, and a subscription sends a snapshot. Alongside runs the
    demand counter shared with the ticker process. */
module PriceFanout {
  import opened Utf16
  import opened SymbolKey

  datatype Quote = Quote(price: real, percentChange24h: real)

  /** `Broken` is an item on which reading or upper-casing the symbol throws. */
  datatype Update = Update(symbol: Text, quote: Quote) | Broken

  /** A message that is not JSON or has no update list changes nothing. */
  datatype Message = Unusable | Batch(updates: seq<Update>)

  /** `view` is what the client has been told: its last snapshot with later updates merged in. */
  datatype Client = Client(open: bool, symbols: set<Text>, view: map<Text, Quote>)

  /** A counter increment sent to Redis and not yet applied there. */
  datatype Increment = Increment(symbol: Text, delta: int)

  /** The string functions of the platform. */
  datatype Platform = Platform(upper: Text -> Text, trim: Text -> Text)

  /** `clients` holds every socket from its connection to its close event. */
  datatype State = State(
    latest: map<Text, Quote>,
    dirty: set<Text>,
    flushPending: bool,
    clients: map<nat, Client>,
    symref: map<Text, int>,
    inFlight: seq<Increment>)

  datatype Event =
    | Connect(id: nat)
    | PricesMessage(message: Message)
    | FlushTimer
    | Subscribe(id: nat, symbols: seq<Text>)
    | StartClosing(id: nat)
    | Closed(id: nat)
    | IncrementLands(index: nat)

  const INIT := State(map[], {}, false, map[], map[], [])

  // ----- Batches -----

  /** The items before the first one that throws. */
  function Applied(updates: seq<Update>): seq<Update> {
    if updates == [] || updates[0].Broken? then [] else [updates[0]] + Applied(updates[1..])
  }

  function PricesAfter(p: Platform, latest: map<Text, Quote>, updates: seq<Update>): map<Text, Quote> {
    if updates == [] then latest
    else
      var before := PricesAfter(p, latest, updates[..|updates| - 1]);
      match updates[|updates| - 1]
      case Update(symbol, quote) => if symbol == [] then before else before[p.upper(symbol) := quote]
      case Broken => before
  }

  predicate Names(u: Update) {
    u.Update? && u.symbol != []
  }

  function DirtyAfter(p: Platform, dirty: set<Text>, updates: seq<Update>): set<Text> {
    dirty + set u | u in updates && Names(u) :: p.upper(u.symbol)
  }

  function AfterMessage(p: Platform, s: State, m: Message): State {
    match m
    case Unusable => s
    case Batch(updates) =>
      var applied := Applied(updates);
      s.(latest := PricesAfter(p, s.latest, applied),
         dirty := DirtyAfter(p, s.dirty, applied),
         flushPending := s.flushPending || Broken !in updates)
  }

  // ----- Flush -----

  /** The prices in `latest` of those symbols of `wanted` that changed. */
  ghost function Changed(latest: map<Text, Quote>, dirty: set<Text>, wanted: set<Text>): map<Text, Quote> {
    map s | s in wanted && s in dirty && s in latest :: latest[s]
  }

  /** A client's view after a flush that filters by the split group key. */
  ghost function Flushed(latest: map<Text, Quote>, dirty: set<Text>, c: Client): Client {
    if c.open && c.symbols != {} then c.(view := c.view + Changed(latest, dirty, Pieces(c.symbols))) else c
  }

  ghost function AfterFlush(s: State): State {
    var fired := s.(flushPending := false);
    if s.dirty == {} then fired
    else fired.(dirty := {}, clients := map id | id in s.clients :: Flushed(s.latest, s.dirty, s.clients[id]))
  }

  // ----- Subscriptions -----

  function Normalised(p: Platform, list: seq<Text>): set<Text> {
    set x | x in list && p.upper(p.trim(x)) != [] :: p.upper(p.trim(x))
  }

  /** The change of one symbol's demand when a client's set changes. */
  function Delta(before: set<Text>, after: set<Text>, s: Text): int {
    (if s in after then 1 else 0) - (if s in before then 1 else 0)
  }

  /** Total of the increments still in flight for one symbol. */
  function InFlightFor(q: seq<Increment>, s: Text): int {
    if q == [] then 0
    else InFlightFor(q[..|q| - 1], s) + (if q[|q| - 1].symbol == s then q[|q| - 1].delta else 0)
  }

  function Ref(symref: map<Text, int>, s: Text): int {
    if s in symref then symref[s] else 0
  }

  /** `q` are increments that together change the demand of every symbol from `before` to `after`. */
  ghost predicate Announces(q: seq<Increment>, before: set<Text>, after: set<Text>) {
    forall s :: InFlightFor(q, s) == Delta(before, after, s)
  }

  function Snapshot(latest: map<Text, Quote>, symbols: set<Text>): map<Text, Quote> {
    map s | s in symbols && s in latest :: latest[s]
  }

  /** A non-empty list is answered by a snapshot; every list replaces the client's symbols. The
      increments sent, in whatever order the sets are walked, are `q`. */
  function AfterSubscribe(p: Platform, s: State, id: nat, list: seq<Text>, q: seq<Increment>): State
    requires id in s.clients
  {
    var c := s.clients[id];
    var symbols := Normalised(p, list);
    var view := if list != [] && c.open then Snapshot(s.latest, symbols) else c.view;
    s.(clients := s.clients[id := c.(symbols := symbols, view := view)], inFlight := s.inFlight + q)
  }

  function AfterClosed(s: State, id: nat, q: seq<Increment>): State {
    s.(clients := s.clients - {id}, inFlight := s.inFlight + q)
  }

  function AfterLanding(s: State, i: nat): State
    requires i < |s.inFlight|
  {
    var inc := s.inFlight[i];
    s.(symref := s.symref[inc.symbol := Ref(s.symref, inc.symbol) + inc.delta],
       inFlight := s.inFlight[..i] + s.inFlight[i + 1..])
  }

  /** One step; the increments of a subscription or close may be sent in any order. */
  ghost predicate Step(p: Platform, s: State, e: Event, s': State) {
    match e
    case Connect(id) => id !in s.clients && s' == s.(clients := s.clients[id := Client(true, {}, map[])])
    case PricesMessage(m) => s' == AfterMessage(p, s, m)
    case FlushTimer => s.flushPending && s' == AfterFlush(s)
    case Subscribe(id, list) =>
      && id in s.clients && (forall x :: x in list ==> x != [])
      && exists q :: Announces(q, s.clients[id].symbols, Normalised(p, list)) && s' == AfterSubscribe(p, s, id, list, q)
    case StartClosing(id) => id in s.clients && s' == s.(clients := s.clients[id := s.clients[id].(open := false)])
    case Closed(id) =>
      && id in s.clients
      && exists q :: Announces(q, s.clients[id].symbols, {}) && s' == AfterClosed(s, id, q)
    case IncrementLands(i) => i < |s.inFlight| && s' == AfterLanding(s, i)
  }

  /** A run: `states[0]` is the initial state and each event leads to the next state. */
  ghost predicate IsRun(p: Platform, states: seq<State>, events: seq<Event>) {
    && |states| == |events| + 1
    && states[0] == INIT
    && forall i :: 0 <= i < |events| ==> Step(p, states[i], events[i], states[i + 1])
  }
}
