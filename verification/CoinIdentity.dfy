/** The backfill of internal coin identifiers: a trusted map from symbols to identifiers, and its
    application to collections that lack them. */
module CoinIdentity {
  import opened Basics

  /** `id` is the document's `_id`; `symbol` and `coinId` are as stored. */
  datatype Row = Row(id: nat, coinId: Option<string>, symbol: string)

  /** The canonical registry and the secondary collections, each in the order a cursor returns it. */
  datatype Db = Db(canonical: seq<Row>, targets: seq<seq<Row>>)

  /** `normalizeSymbol` (trimmed, upper case) and `trim`. */
  datatype Norms = Norms(symbol: string -> string, trim: string -> string)

  ghost predicate Idempotent(n: Norms) {
    forall x :: n.trim(n.trim(x)) == n.trim(x)
  }

  /** The pair of symbol and identifier a row vouches for. */
  function Vouched(n: Norms, r: Row): Option<(string, string)> {
    if r.coinId.None? || n.trim(r.coinId.value) == "" || n.symbol(r.symbol) == "" then None
    else Some((n.symbol(r.symbol), n.trim(r.coinId.value)))
  }

  ghost function Pairs(n: Norms, rows: seq<Row>): set<(string, string)> {
    set r | r in rows && Vouched(n, r).Some? :: Vouched(n, r).value
  }

  ghost function TargetPairs(n: Norms, targets: seq<seq<Row>>): set<(string, string)> {
    set rows, p | rows in targets && p in Pairs(n, rows) :: p
  }

  ghost function CanonicalSymbols(n: Norms, db: Db): set<string> {
    set p | p in Pairs(n, db.canonical) :: p.0
  }

  /** All identifiers vouched for a symbol anywhere. */
  ghost function Evidence(n: Norms, db: Db, symbol: string): set<string> {
    set p | p in Pairs(n, db.canonical) + TargetPairs(n, db.targets) && p.0 == symbol :: p.1
  }

  datatype Trusted = Trusted(ids: map<string, string>, ambiguous: set<string>)

  /** A symbol is mapped exactly when the registry knows it and all its evidence is one identifier,
      and ambiguous exactly when the registry knows it and there is more. */
  ghost predicate IsTrusted(n: Norms, db: Db, t: Trusted) {
    && (forall s :: s in t.ids <==> s in CanonicalSymbols(n, db) && exists id :: Evidence(n, db, s) == {id})
    && (forall s :: s in t.ids ==> Evidence(n, db, s) == {t.ids[s]})
    && (forall s :: s in t.ambiguous <==> s in CanonicalSymbols(n, db) && s !in t.ids)
  }

  /** The same evidence in another order gives the same result. */
  lemma TrustedIsDetermined(n: Norms, a: Db, b: Db, t: Trusted, u: Trusted)
    requires IsTrusted(n, a, t) && IsTrusted(n, b, u)
    requires Pairs(n, a.canonical) == Pairs(n, b.canonical)
    requires TargetPairs(n, a.targets) == TargetPairs(n, b.targets)
    ensures t == u
  {
    assert CanonicalSymbols(n, a) == CanonicalSymbols(n, b);
    assert forall s :: Evidence(n, a, s) == Evidence(n, b, s);
    forall s | s in t.ids ensures s in u.ids && u.ids[s] == t.ids[s] {
      assert t.ids[s] in Evidence(n, b, s);
      assert u.ids[s] in Evidence(n, b, s);
    }
    assert t.ids == u.ids;
    assert t.ambiguous == u.ambiguous;
  }

  lemma PairsOfRows(n: Norms, a: seq<Row>, b: seq<Row>)
    requires forall r :: r in a <==> r in b
    ensures Pairs(n, a) == Pairs(n, b)
  {
  }

  ghost predicate InSome(targets: seq<seq<Row>>, r: Row) {
    exists rows :: rows in targets && r in rows
  }

  /** Reading rows and secondary collections in any order gives the same trusted map. */
  lemma OrderDoesNotMatter(n: Norms, a: Db, b: Db, t: Trusted, u: Trusted)
    requires IsTrusted(n, a, t) && IsTrusted(n, b, u)
    requires forall r :: r in a.canonical <==> r in b.canonical
    requires forall r :: InSome(a.targets, r) <==> InSome(b.targets, r)
    ensures t == u
  {
    PairsOfRows(n, a.canonical, b.canonical);
    forall p ensures p in TargetPairs(n, a.targets) <==> p in TargetPairs(n, b.targets) {
      TargetPairIn(n, a.targets, p);
      TargetPairIn(n, b.targets, p);
    }
    TrustedIsDetermined(n, a, b, t, u);
  }

  lemma TargetPairIn(n: Norms, targets: seq<seq<Row>>, p: (string, string))
    ensures p in TargetPairs(n, targets) <==>
            exists r :: InSome(targets, r) && Vouched(n, r) == Some(p)
  {
    if p in TargetPairs(n, targets) {
      var rows :| rows in targets && p in Pairs(n, rows);
      var r :| r in rows && Vouched(n, r) == Some(p);
      assert InSome(targets, r);
    }
    if exists r :: InSome(targets, r) && Vouched(n, r) == Some(p) {
      var r :| InSome(targets, r) && Vouched(n, r) == Some(p);
      var rows :| rows in targets && r in rows;
      assert p in Pairs(n, rows);
    }
  }

  // ---- Applying the map to one collection ----

  datatype Verdict = Missing | Ambiguous | Direct(coinId: string) | Unknown

  function Judge(n: Norms, t: Trusted, r: Row): Verdict {
    var s := n.symbol(r.symbol);
    if s == "" then Missing
    else if s in t.ambiguous then Ambiguous
    else if s in t.ids && t.ids[s] != "" then Direct(t.ids[s])
    else Unknown
  }

  predicate Updates(n: Norms, t: Trusted, r: Row) {
    r.coinId.None? && Judge(n, t, r).Direct?
  }

  /** A row after the backfill. */
  function Filled(n: Norms, t: Trusted, r: Row): Row {
    if Updates(n, t, r) then r.(coinId := Some(Judge(n, t, r).coinId)) else r
  }

  function Apply(n: Norms, t: Trusted, rows: seq<Row>): seq<Row> {
    seq(|rows|, i requires 0 <= i < |rows| => Filled(n, t, rows[i]))
  }

  function ApplyAll(n: Norms, t: Trusted, db: Db): Db {
    Db(db.canonical, seq(|db.targets|, i requires 0 <= i < |db.targets| => Apply(n, t, db.targets[i])))
  }

  /** An update vouches only for what the trusted map says already. */
  lemma FilledVouches(n: Norms, db: Db, t: Trusted, r: Row)
    requires Idempotent(n) && IsTrusted(n, db, t)
    ensures Vouched(n, Filled(n, t, r)) == Vouched(n, r) ||
            (Vouched(n, r).None? && Vouched(n, Filled(n, t, r)).Some?
             && var p := Vouched(n, Filled(n, t, r)).value; p.0 in t.ids && p.1 == t.ids[p.0])
  {
    if Updates(n, t, r) {
      var s := n.symbol(r.symbol);
      assert t.ids[s] in Evidence(n, db, s);
      EvidenceTrimmed(n, db, s, t.ids[s]);
    }
  }

  lemma EvidenceTrimmed(n: Norms, db: Db, s: string, id: string)
    requires Idempotent(n) && id in Evidence(n, db, s)
    ensures n.trim(id) == id && id != ""
  {
    var p :| p in Pairs(n, db.canonical) + TargetPairs(n, db.targets) && p == (s, id);
    if p in Pairs(n, db.canonical) {
      var r :| r in db.canonical && Vouched(n, r) == Some(p);
      assert n.trim(n.trim(r.coinId.value)) == n.trim(r.coinId.value);
    } else {
      TargetPairIn(n, db.targets, p);
      var r :| InSome(db.targets, r) && Vouched(n, r) == Some(p);
      assert n.trim(n.trim(r.coinId.value)) == n.trim(r.coinId.value);
    }
  }

  lemma FilledPairs(n: Norms, db: Db, t: Trusted, rows: seq<Row>)
    requires Idempotent(n) && IsTrusted(n, db, t)
    ensures Pairs(n, rows) <= Pairs(n, Apply(n, t, rows))
    ensures forall p :: p in Pairs(n, Apply(n, t, rows)) ==> p in Pairs(n, rows) || (p.0 in t.ids && p.1 == t.ids[p.0])
  {
    var out := Apply(n, t, rows);
    forall p | p in Pairs(n, rows) ensures p in Pairs(n, out) {
      var r :| r in rows && Vouched(n, r) == Some(p);
      FilledVouches(n, db, t, r);
      var i :| 0 <= i < |rows| && rows[i] == r;
      assert out[i] == Filled(n, t, r) && out[i] in out;
    }
    forall p | p in Pairs(n, out) ensures p in Pairs(n, rows) || (p.0 in t.ids && p.1 == t.ids[p.0]) {
      var q :| q in out && Vouched(n, q) == Some(p);
      var i :| 0 <= i < |out| && out[i] == q;
      FilledVouches(n, db, t, rows[i]);
      assert rows[i] in rows;
    }
  }

  /** Applying the trusted map changes no evidence, */
  lemma ApplyKeepsEvidence(n: Norms, db: Db, t: Trusted, s: string)
    requires Idempotent(n) && IsTrusted(n, db, t)
    ensures Evidence(n, ApplyAll(n, t, db), s) == Evidence(n, db, s)
    ensures CanonicalSymbols(n, ApplyAll(n, t, db)) == CanonicalSymbols(n, db)
  {
    var after := ApplyAll(n, t, db);
    forall id | id in Evidence(n, db, s) ensures id in Evidence(n, after, s) {
      if (s, id) !in Pairs(n, db.canonical) {
        assert (s, id) in TargetPairs(n, db.targets);
        var rows :| rows in db.targets && (s, id) in Pairs(n, rows);
        var i :| 0 <= i < |db.targets| && db.targets[i] == rows;
        FilledPairs(n, db, t, rows);
        assert after.targets[i] == Apply(n, t, rows) && after.targets[i] in after.targets;
        assert (s, id) in TargetPairs(n, after.targets);
      }
    }
    forall id | id in Evidence(n, after, s) ensures id in Evidence(n, db, s) {
      if (s, id) !in Pairs(n, db.canonical) {
        assert (s, id) in TargetPairs(n, after.targets);
        var out :| out in after.targets && (s, id) in Pairs(n, out);
        var i :| 0 <= i < |after.targets| && after.targets[i] == out;
        FilledPairs(n, db, t, db.targets[i]);
        assert db.targets[i] in db.targets;
        assert (s, id) in Pairs(n, db.targets[i]) ==> (s, id) in TargetPairs(n, db.targets);
        assert s in t.ids && id == t.ids[s] ==> id in Evidence(n, db, s);
      }
    }
  }

  /** so the map loaded again is the same. */
  lemma ReloadIsFixpoint(n: Norms, db: Db, t: Trusted)
    requires Idempotent(n) && IsTrusted(n, db, t)
    ensures IsTrusted(n, ApplyAll(n, t, db), t)
  {
    forall s {
      ApplyKeepsEvidence(n, db, t, s);
    }
  }

  /** A second application updates no row of any collection. */
  lemma SecondApplyUpdatesNothing(n: Norms, t: Trusted, db: Db)
    ensures ApplyAll(n, t, ApplyAll(n, t, db)) == ApplyAll(n, t, db)
    ensures forall rows, r :: rows in ApplyAll(n, t, db).targets && r in rows ==> !Updates(n, t, r)
  {
    var once := ApplyAll(n, t, db);
    var twice := ApplyAll(n, t, once);
    forall i | 0 <= i < |db.targets| ensures twice.targets[i] == once.targets[i] {
      assert once.targets[i] == Apply(n, t, db.targets[i]);
      assert twice.targets[i] == Apply(n, t, once.targets[i]);
      assert forall j :: 0 <= j < |db.targets[i]| ==> twice.targets[i][j] == once.targets[i][j];
    }
    assert twice.targets == once.targets;
    forall rows, r | rows in once.targets && r in rows ensures !Updates(n, t, r) {
      var i :| 0 <= i < |once.targets| && once.targets[i] == rows;
      var j :| 0 <= j < |rows| && rows[j] == r;
      assert r == Filled(n, t, db.targets[i][j]);
    }
  }

  // ---- Counting ----

  function NullCount(rows: seq<Row>): nat {
    if rows == [] then 0 else NullCount(rows[..|rows| - 1]) + (if rows[|rows| - 1].coinId.None? then 1 else 0)
  }

  /** How many rows are queued for review instead of updated. */
  function QueueCount(n: Norms, t: Trusted, rows: seq<Row>): nat {
    if rows == [] then 0
    else
      var r := rows[|rows| - 1];
      QueueCount(n, t, rows[..|rows| - 1]) + (if r.coinId.None? && !Updates(n, t, r) then 1 else 0)
  }

  function DirectCount(n: Norms, t: Trusted, rows: seq<Row>): nat {
    if rows == [] then 0
    else DirectCount(n, t, rows[..|rows| - 1]) + (if Updates(n, t, rows[|rows| - 1]) then 1 else 0)
  }

  /** The number of empty identifiers a dry run predicts is the number an application leaves, and each
      of those rows is queued, the second time as well as the first. */
  lemma {:induction false} PredictionHolds(n: Norms, t: Trusted, rows: seq<Row>)
    ensures NullCount(Apply(n, t, rows)) == NullCount(rows) - DirectCount(n, t, rows)
    ensures QueueCount(n, t, rows) == NullCount(Apply(n, t, rows))
    ensures QueueCount(n, t, Apply(n, t, rows)) == NullCount(Apply(n, t, rows))
  {
    if rows != [] {
      var last := |rows| - 1;
      PredictionHolds(n, t, rows[..last]);
      assert Apply(n, t, rows)[..last] == Apply(n, t, rows[..last]);
    }
  }

  /** A second application writes nothing at all exactly when no row was left without an identifier:
      rows it cannot resolve are queued again. */
  lemma SecondApplyWritesIff(n: Norms, t: Trusted, rows: seq<Row>)
    ensures DirectCount(n, t, Apply(n, t, rows)) == 0
    ensures QueueCount(n, t, Apply(n, t, rows)) == 0 <==> forall r :: r in rows && r.coinId.None? ==> Updates(n, t, r)
  {
    PredictionHolds(n, t, rows);
    NoDirects(n, t, Apply(n, t, rows));
    QueueZero(n, t, rows);
  }

  lemma {:induction false} NoDirects(n: Norms, t: Trusted, rows: seq<Row>)
    ensures (forall i :: 0 <= i < |rows| ==> !Updates(n, t, rows[i])) ==> DirectCount(n, t, rows) == 0
  {
    if rows != [] { NoDirects(n, t, rows[..|rows| - 1]); }
  }

  lemma {:induction false} QueueZero(n: Norms, t: Trusted, rows: seq<Row>)
    ensures QueueCount(n, t, rows) == 0 <==> forall r :: r in rows && r.coinId.None? ==> Updates(n, t, r)
  {
    if rows != [] {
      QueueZero(n, t, rows[..|rows| - 1]);
      assert rows == rows[..|rows| - 1] + [rows[|rows| - 1]];
    }
  }

  // ---- The map, on the fields of the rows ----

  /** The row has an identifier that is not blank, and a symbol that is not either. */
  predicate Vouches(n: Norms, r: Row, symbol: string, id: string) {
    && r.coinId.Some? && id == n.trim(r.coinId.value) && |id| > 0
    && symbol == n.symbol(r.symbol) && |symbol| > 0
  }

  ghost predicate InDb(db: Db, r: Row) {
    r in db.canonical || InSome(db.targets, r)
  }

  lemma EvidenceMeans(n: Norms, db: Db, symbol: string, id: string)
    ensures id in Evidence(n, db, symbol) <==> exists r :: InDb(db, r) && Vouches(n, r, symbol, id)
    ensures symbol in CanonicalSymbols(n, db) <==> exists r, x :: r in db.canonical && Vouches(n, r, symbol, x)
  {
    var p := (symbol, id);
    assert forall r, x :: Vouches(n, r, symbol, x) <==> Vouched(n, r) == Some((symbol, x));
    assert id in Evidence(n, db, symbol) <==> p in Pairs(n, db.canonical) || p in TargetPairs(n, db.targets);
    TargetPairIn(n, db.targets, p);
    assert p in Pairs(n, db.canonical) <==> exists r :: r in db.canonical && Vouched(n, r) == Some(p);
    if symbol in CanonicalSymbols(n, db) {
      var q :| q in Pairs(n, db.canonical) && q.0 == symbol;
      var r :| r in db.canonical && Vouched(n, r) == Some(q);
      assert Vouches(n, r, symbol, q.1);
    }
    if r, x :| r in db.canonical && Vouches(n, r, symbol, x) {
      assert (symbol, x) in Pairs(n, db.canonical);
    }
  }

  /** A symbol is mapped to an identifier exactly when some row of the registry vouches for that pair and no
      row anywhere vouches for another identifier of the symbol; it is ambiguous exactly when a row of the
      registry vouches for it and some two rows vouch for different identifiers. */
  lemma TrustedMeans(n: Norms, db: Db, t: Trusted, symbol: string, id: string)
    requires IsTrusted(n, db, t)
    ensures symbol in t.ids && t.ids[symbol] == id <==>
            && (exists r :: r in db.canonical && Vouches(n, r, symbol, id))
            && forall r, x :: InDb(db, r) && Vouches(n, r, symbol, x) ==> x == id
    ensures symbol in t.ambiguous <==>
            && (exists r, x :: r in db.canonical && Vouches(n, r, symbol, x))
            && exists r, q, x, y :: InDb(db, r) && InDb(db, q) && Vouches(n, r, symbol, x) && Vouches(n, q, symbol, y) && x != y
  {
    MappedIff(n, db, t, symbol, id);
    AmbiguousIff(n, db, t, symbol);
  }

  lemma CanonicalVouches(n: Norms, db: Db, symbol: string, r: Row, x: string)
    requires r in db.canonical && Vouches(n, r, symbol, x)
    ensures symbol in CanonicalSymbols(n, db) && x in Evidence(n, db, symbol)
  {
    assert InDb(db, r);
    EvidenceMeans(n, db, symbol, x);
  }

  lemma MappedIff(n: Norms, db: Db, t: Trusted, symbol: string, id: string)
    requires IsTrusted(n, db, t)
    ensures symbol in t.ids && t.ids[symbol] == id <==>
            && (exists r :: r in db.canonical && Vouches(n, r, symbol, id))
            && forall r, x :: InDb(db, r) && Vouches(n, r, symbol, x) ==> x == id
  {
    var evidence := Evidence(n, db, symbol);
    forall x ensures x in evidence <==> exists r :: InDb(db, r) && Vouches(n, r, symbol, x) {
      EvidenceMeans(n, db, symbol, x);
    }
    if symbol in t.ids && t.ids[symbol] == id {
      EvidenceMeans(n, db, symbol, id);
      var r, x :| r in db.canonical && Vouches(n, r, symbol, x);
      CanonicalVouches(n, db, symbol, r, x);
      assert evidence == {id};
      assert Vouches(n, r, symbol, id);
      forall q, y | InDb(db, q) && Vouches(n, q, symbol, y) ensures y == id {
        assert y in evidence;
      }
    }
    if (exists r :: r in db.canonical && Vouches(n, r, symbol, id)) && forall r, x :: InDb(db, r) && Vouches(n, r, symbol, x) ==> x == id {
      var r :| r in db.canonical && Vouches(n, r, symbol, id);
      CanonicalVouches(n, db, symbol, r, id);
      assert evidence == {id};
    }
  }

  lemma AmbiguousIff(n: Norms, db: Db, t: Trusted, symbol: string)
    requires IsTrusted(n, db, t)
    ensures symbol in t.ambiguous <==>
            && (exists r, x :: r in db.canonical && Vouches(n, r, symbol, x))
            && exists r, q, x, y :: InDb(db, r) && InDb(db, q) && Vouches(n, r, symbol, x) && Vouches(n, q, symbol, y) && x != y
  {
    var evidence := Evidence(n, db, symbol);
    EvidenceMeans(n, db, symbol, "");
    if symbol in t.ambiguous {
      var r, x :| r in db.canonical && Vouches(n, r, symbol, x);
      CanonicalVouches(n, db, symbol, r, x);
      assert evidence != {x};
      var y :| y in evidence && y != x;
      EvidenceMeans(n, db, symbol, y);
      var q :| InDb(db, q) && Vouches(n, q, symbol, y);
      assert InDb(db, r);
    }
    if r, q, x, y :| InDb(db, r) && InDb(db, q) && Vouches(n, r, symbol, x) && Vouches(n, q, symbol, y) && x != y {
      EvidenceMeans(n, db, symbol, x);
      EvidenceMeans(n, db, symbol, y);
      assert symbol !in t.ids;
    }
  }
}
