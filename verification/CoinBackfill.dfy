/** The loops of the backfill: building the trusted map and processing one collection in batches. */
module CoinBackfill {
  import opened Basics
  import opened CoinIdentity

  const BATCH_SIZE := 500

  ghost function IdsOf(pairs: set<(string, string)>, symbol: string): set<string> {
    set p | p in pairs && p.0 == symbol :: p.1
  }

  lemma PairsGrow(n: Norms, rows: seq<Row>, i: nat)
    requires i < |rows|
    ensures Pairs(n, rows[..i + 1]) == Pairs(n, rows[..i]) + (if Vouched(n, rows[i]).Some? then {Vouched(n, rows[i]).value} else {})
  {
    assert rows[..i + 1] == rows[..i] + [rows[i]];
  }

  lemma TargetPairsGrow(n: Norms, targets: seq<seq<Row>>, k: nat)
    requires k < |targets|
    ensures TargetPairs(n, targets[..k + 1]) == TargetPairs(n, targets[..k]) + Pairs(n, targets[k])
  {
    assert targets[..k + 1] == targets[..k] + [targets[k]];
  }

  /** The candidates hold, for each known symbol, the identifiers of these pairs. */
  ghost predicate Holds(candidate: map<string, set<string>>, known: set<string>, pairs: set<(string, string)>) {
    && candidate.Keys == known
    && (forall s :: s in known ==> candidate[s] == IdsOf(pairs, s))
  }

  lemma HoldsMore(candidate: map<string, set<string>>, known: set<string>, pairs: set<(string, string)>, p: (string, string))
    requires Holds(candidate, known, pairs) && p.0 in known
    ensures Holds(candidate[p.0 := candidate[p.0] + {p.1}], known, pairs + {p})
  {
    var more := pairs + {p};
    forall s | s in known ensures IdsOf(more, s) == IdsOf(pairs, s) + (if s == p.0 then {p.1} else {}) {
      assert forall id :: id in IdsOf(more, s) <==> (s, id) in more;
      assert forall id :: id in IdsOf(pairs, s) <==> (s, id) in pairs;
    }
  }

  /** Evidence for a symbol the registry does not know is dropped. */
  lemma HoldsWithout(candidate: map<string, set<string>>, known: set<string>, pairs: set<(string, string)>, p: (string, string))
    requires Holds(candidate, known, pairs) && p.0 !in known
    ensures Holds(candidate, known, pairs + {p})
  {
    forall s | s in known ensures IdsOf(pairs + {p}, s) == IdsOf(pairs, s) {
      assert forall id :: id in IdsOf(pairs + {p}, s) <==> (s, id) in pairs + {p};
      assert forall id :: id in IdsOf(pairs, s) <==> (s, id) in pairs;
    }
  }

  ghost function Symbols(pairs: set<(string, string)>): set<string> {
    set p | p in pairs :: p.0
  }

  /** A symbol seen for the first time has no identifiers yet. */
  lemma HoldsNew(candidate: map<string, set<string>>, pairs: set<(string, string)>, s: string)
    requires Holds(candidate, Symbols(pairs), pairs) && s !in Symbols(pairs)
    ensures Holds(candidate[s := {}], Symbols(pairs) + {s}, pairs)
  {
    assert IdsOf(pairs, s) == {};
  }

  method ReadRegistry(n: Norms, rows: seq<Row>) returns (candidate: map<string, set<string>>, canonicalSymbols: set<string>)
    ensures canonicalSymbols == Symbols(Pairs(n, rows)) && Holds(candidate, canonicalSymbols, Pairs(n, rows))
  {
    candidate, canonicalSymbols := map[], {};
    for i := 0 to |rows|
      invariant canonicalSymbols == Symbols(Pairs(n, rows[..i])) && Holds(candidate, canonicalSymbols, Pairs(n, rows[..i]))
    {
      var p := Vouched(n, rows[i]);
      PairsGrow(n, rows, i);
      if p.Some? {
        var (symbol, coinId) := p.value;
        if symbol !in candidate {
          HoldsNew(candidate, Pairs(n, rows[..i]), symbol);
          candidate := candidate[symbol := {}];
        }
        canonicalSymbols := canonicalSymbols + {symbol};
        HoldsMore(candidate, canonicalSymbols, Pairs(n, rows[..i]), p.value);
        candidate := candidate[symbol := candidate[symbol] + {coinId}];
        assert Symbols(Pairs(n, rows[..i]) + {p.value}) == Symbols(Pairs(n, rows[..i])) + {symbol};
      }
    }
    assert rows[..|rows|] == rows;
  }

  method ReadTarget(n: Norms, rows: seq<Row>, start: map<string, set<string>>, known: set<string>, ghost pairs: set<(string, string)>)
    returns (candidate: map<string, set<string>>)
    requires Holds(start, known, pairs)
    ensures Holds(candidate, known, pairs + Pairs(n, rows))
  {
    candidate := start;
    assert pairs + Pairs(n, []) == pairs;
    for i := 0 to |rows|
      invariant Holds(candidate, known, pairs + Pairs(n, rows[..i]))
    {
      var p := Vouched(n, rows[i]);
      PairsGrow(n, rows, i);
      ghost var before := pairs + Pairs(n, rows[..i]);
      if p.Some? {
        assert before + {p.value} == pairs + Pairs(n, rows[..i + 1]);
        if p.value.0 in known {
          HoldsMore(candidate, known, before, p.value);
          candidate := candidate[p.value.0 := candidate[p.value.0] + {p.value.1}];
        } else {
          HoldsWithout(candidate, known, before, p.value);
        }
      } else {
        assert before == pairs + Pairs(n, rows[..i + 1]);
      }
    }
    assert rows[..|rows|] == rows;
  }

  /** `loadTrustedMap` */
  method LoadTrustedMap(n: Norms, db: Db) returns (t: Trusted)
    ensures IsTrusted(n, db, t)
  {
    var candidate, canonicalSymbols := ReadRegistry(n, db.canonical);
    ghost var base := Pairs(n, db.canonical);
    assert base + TargetPairs(n, []) == base;
    for k := 0 to |db.targets|
      invariant Holds(candidate, canonicalSymbols, base + TargetPairs(n, db.targets[..k]))
    {
      ghost var pairs := base + TargetPairs(n, db.targets[..k]);
      candidate := ReadTarget(n, db.targets[k], candidate, canonicalSymbols, pairs);
      TargetPairsGrow(n, db.targets, k);
      assert pairs + Pairs(n, db.targets[k]) == base + TargetPairs(n, db.targets[..k + 1]);
    }
    assert db.targets[..|db.targets|] == db.targets;
    ghost var all := base + TargetPairs(n, db.targets);
    assert forall s :: IdsOf(all, s) == Evidence(n, db, s);
    assert CanonicalSymbols(n, db) == canonicalSymbols;
    t := Decide(candidate);
    forall s ensures s in t.ids <==> s in CanonicalSymbols(n, db) && exists id :: Evidence(n, db, s) == {id} {
      assert s in candidate ==> candidate[s] == Evidence(n, db, s);
    }
  }

  lemma OneElement(s: set<string>)
    ensures |s| == 1 <==> exists id :: s == {id}
  {
    if |s| == 1 {
      var id :| id in s;
      assert |s - {id}| == 0;
      assert s == {id};
    }
  }

  /** Symbols with one identifier are mapped, the others are ambiguous. */
  method Decide(candidate: map<string, set<string>>) returns (t: Trusted)
    ensures forall s :: s in t.ids <==> s in candidate && exists id :: candidate[s] == {id}
    ensures forall s :: s in t.ids ==> candidate[s] == {t.ids[s]}
    ensures forall s :: s in t.ambiguous <==> s in candidate && s !in t.ids
  {
    var ids: map<string, string>, ambiguous: set<string> := map[], {};
    var rest := candidate.Keys;
    while rest != {}
      invariant rest <= candidate.Keys
      invariant forall s :: s in ids <==> s in candidate && s !in rest && exists id :: candidate[s] == {id}
      invariant forall s :: s in ids ==> candidate[s] == {ids[s]}
      invariant forall s :: s in ambiguous <==> s in candidate && s !in rest && s !in ids
      decreases |rest|
    {
      var s :| s in rest;
      OneElement(candidate[s]);
      if |candidate[s]| == 1 {
        var id :| id in candidate[s];
        assert candidate[s] == {id};
        ids := ids[s := id];
      } else {
        ambiguous := ambiguous + {s};
      }
      rest := rest - {s};
    }
    t := Trusted(ids, ambiguous);
  }

  // ---- One collection, in batches ----

  datatype Op = Op(id: nat, coinId: string)

  /** `updateOne` with the filter `{ _id, internalCoinId: null }`. */
  function ApplyOp(rows: seq<Row>, op: Op): seq<Row> {
    seq(|rows|, i requires 0 <= i < |rows| =>
      if rows[i].id == op.id && rows[i].coinId.None? then rows[i].(coinId := Some(op.coinId)) else rows[i])
  }

  function ApplyOps(rows: seq<Row>, ops: seq<Op>): seq<Row> {
    if ops == [] then rows else ApplyOp(ApplyOps(rows, ops[..|ops| - 1]), ops[|ops| - 1])
  }

  lemma {:induction false} ApplyOpsAppend(rows: seq<Row>, a: seq<Op>, b: seq<Op>)
    ensures ApplyOps(rows, a + b) == ApplyOps(ApplyOps(rows, a), b)
  {
    if b == [] {
      assert a + b == a;
    } else {
      assert (a + b)[..|a + b| - 1] == a + b[..|b| - 1];
      ApplyOpsAppend(rows, a, b[..|b| - 1]);
    }
  }

  function Ops(n: Norms, t: Trusted, rows: seq<Row>): seq<Op> {
    if rows == [] then []
    else
      var before, r := Ops(n, t, rows[..|rows| - 1]), rows[|rows| - 1];
      if Updates(n, t, r) then before + [Op(r.id, Judge(n, t, r).coinId)] else before
  }

  function Queued(n: Norms, t: Trusted, rows: seq<Row>): seq<Row> {
    if rows == [] then []
    else
      var before, r := Queued(n, t, rows[..|rows| - 1]), rows[|rows| - 1];
      if r.coinId.None? && !Updates(n, t, r) then before + [r] else before
  }

  predicate UniqueIds(rows: seq<Row>) {
    forall i, j :: 0 <= i < j < |rows| ==> rows[i].id != rows[j].id
  }

  /** Updating one row of a partly filled collection. */
  lemma OpFills(n: Norms, t: Trusted, rows: seq<Row>, k: nat)
    requires UniqueIds(rows) && k < |rows|
    ensures var before, after := Apply(n, t, rows[..k]) + rows[k..], Apply(n, t, rows[..k + 1]) + rows[k + 1..];
            after == if Updates(n, t, rows[k]) then ApplyOp(before, Op(rows[k].id, Judge(n, t, rows[k]).coinId)) else before
  {
    var before, after := Apply(n, t, rows[..k]) + rows[k..], Apply(n, t, rows[..k + 1]) + rows[k + 1..];
    if !Updates(n, t, rows[k]) {
      assert rows[k..] == [rows[k]] + rows[k + 1..];
      assert Apply(n, t, rows[..k + 1]) == Apply(n, t, rows[..k]) + [rows[k]];
      return;
    }
    var op := Op(rows[k].id, Judge(n, t, rows[k]).coinId);
    forall i | 0 <= i < |rows| ensures ApplyOp(before, op)[i] == after[i] {
      assert before[i].id == rows[i].id;
      assert before[i] == if i < k then Filled(n, t, rows[i]) else rows[i];
      assert after[i] == if i <= k then Filled(n, t, rows[i]) else rows[i];
    }
    assert ApplyOp(before, op) == after;
  }

  /** The updates by identifier, whatever they are batched into, fill exactly the rows they were made for. */
  lemma {:induction false} OpsFill(n: Norms, t: Trusted, rows: seq<Row>, k: nat)
    requires UniqueIds(rows) && k <= |rows|
    ensures ApplyOps(rows, Ops(n, t, rows[..k])) == Apply(n, t, rows[..k]) + rows[k..]
  {
    if k > 0 {
      var r := rows[k - 1];
      OpsFill(n, t, rows, k - 1);
      StepOfLoop(n, t, rows, k - 1);
      OpFills(n, t, rows, k - 1);
      hide *;
      if Updates(n, t, r) { ApplyOpsLast(rows, Ops(n, t, rows[..k - 1]), Op(r.id, Judge(n, t, r).coinId)); }
    }
  }

  /** Each row without an identifier gets the one the map has for its normalised symbol, or stays as it is
      and is queued when the map has none; a row with an identifier is left alone and not queued. */
  ghost predicate FillsExactly(n: Norms, t: Trusted, before: seq<Row>, after: seq<Row>, queue: seq<Row>) {
    && |after| == |before|
    && (forall i :: 0 <= i < |before| ==> FillsRow(n, t, before[i], after[i], queue))
    && (forall r :: r in queue ==> r in before)
  }

  predicate FillsRow(n: Norms, t: Trusted, was: Row, now: Row, queue: seq<Row>) {
    var symbol := n.symbol(was.symbol);
    && now.id == was.id && now.symbol == was.symbol
    && (was.coinId.Some? ==> now.coinId == was.coinId && was !in queue)
    && (was.coinId.None? && symbol in t.ids ==> now.coinId == Some(t.ids[symbol]) && was !in queue)
    && (was.coinId.None? && symbol !in t.ids ==> now.coinId.None? && was in queue)
  }

  lemma {:induction false} QueuedExactly(n: Norms, t: Trusted, rows: seq<Row>)
    ensures forall r :: r in Queued(n, t, rows) <==> r in rows && r.coinId.None? && !Updates(n, t, r)
  {
    if rows != [] {
      QueuedExactly(n, t, rows[..|rows| - 1]);
      assert rows == rows[..|rows| - 1] + [rows[|rows| - 1]];
    }
  }

  lemma {:induction false} QueuedCounted(n: Norms, t: Trusted, rows: seq<Row>)
    ensures |Queued(n, t, rows)| == QueueCount(n, t, rows)
  {
    if rows != [] { QueuedCounted(n, t, rows[..|rows| - 1]); }
  }

  /** The map has an identifier for every symbol it names, and none of these is ambiguous as well. */
  lemma UpdatesExactly(n: Norms, t: Trusted, db: Db, r: Row)
    requires Idempotent(n) && IsTrusted(n, db, t)
    ensures var symbol := n.symbol(r.symbol);
            && (Updates(n, t, r) <==> r.coinId.None? && symbol in t.ids)
            && (Updates(n, t, r) ==> Filled(n, t, r) == r.(coinId := Some(t.ids[symbol])))
  {
    var symbol := n.symbol(r.symbol);
    if symbol in t.ids {
      assert t.ids[symbol] in Evidence(n, db, symbol);
      EvidenceTrimmed(n, db, symbol, t.ids[symbol]);
      var p :| p in Pairs(n, db.canonical) && p.0 == symbol;
      assert symbol != "";
    }
  }

  lemma AppliedFills(n: Norms, t: Trusted, rows: seq<Row>, db: Db)
    requires Idempotent(n) && IsTrusted(n, db, t)
    ensures FillsExactly(n, t, rows, Apply(n, t, rows), Queued(n, t, rows))
  {
    QueuedExactly(n, t, rows);
    forall i | 0 <= i < |rows| ensures FillsRow(n, t, rows[i], Apply(n, t, rows)[i], Queued(n, t, rows)) {
      UpdatesExactly(n, t, db, rows[i]);
      hide IsTrusted, Idempotent, Queued, Judge;
    }
    hide IsTrusted, Idempotent, Queued, FillsRow;
  }

  class Collection {
    var rows: seq<Row>

    constructor (rows: seq<Row>)
      ensures this.rows == rows
    {
      this.rows := rows;
    }

    method BulkWrite(ops: seq<Op>)
      modifies this
      ensures rows == ApplyOps(old(rows), ops)
    {
      for i := 0 to |ops|
        invariant rows == ApplyOps(old(rows), ops[..i])
      {
        assert ops[..i + 1][..i] == ops[..i];
        rows := ApplyOp(rows, ops[i]);
      }
      assert ops[..|ops|] == ops;
    }

    /** `processCollection`: updates and queue entries are collected and written every 500. */
    method Process(n: Norms, t: Trusted, apply: bool) returns (directMatch: nat, queueUpserts: nat, queue: seq<Row>)
      requires UniqueIds(rows)
      modifies this
      ensures forall db :: apply && Idempotent(n) && IsTrusted(n, db, t) ==> FillsExactly(n, t, old(rows), rows, queue)
      ensures apply ==> queueUpserts == |queue|
      ensures rows == if apply then Apply(n, t, old(rows)) else old(rows)
      ensures queue == if apply then Queued(n, t, old(rows)) else []
      ensures directMatch == DirectCount(n, t, old(rows)) && queueUpserts == QueueCount(n, t, old(rows))
    {
      forall db | Idempotent(n) && IsTrusted(n, db, t) { AppliedFills(n, t, rows, db); }
      QueuedCounted(n, t, rows);
      hide *;
      directMatch, queueUpserts, queue := ScanRows(n, t, apply);
    }

    method ScanRows(n: Norms, t: Trusted, apply: bool) returns (directMatch: nat, queueUpserts: nat, queue: seq<Row>)
      requires UniqueIds(rows)
      modifies this
      ensures rows == if apply then Apply(n, t, old(rows)) else old(rows)
      ensures queue == if apply then Queued(n, t, old(rows)) else []
      ensures directMatch == DirectCount(n, t, old(rows)) && queueUpserts == QueueCount(n, t, old(rows))
    {
      hide Ops, Queued, ApplyOps, DirectCount, QueueCount;
      var found := rows;
      var updateOps: seq<Op>, queueOps: seq<Row> := [], [];
      directMatch, queueUpserts, queue := 0, 0, [];
      StartOfLoop(n, t, rows);
      for i := 0 to |found|
        invariant if apply then ApplyOps(rows, updateOps) == ApplyOps(found, Ops(n, t, found[..i])) else rows == found
        invariant apply ==> queue + queueOps == Queued(n, t, found[..i])
        invariant !apply ==> queue == []
        invariant directMatch == DirectCount(n, t, found[..i])
        invariant queueUpserts + |queueOps| == QueueCount(n, t, found[..i])
      {
        StepOfLoop(n, t, found, i);
        var r := found[i];
        if r.coinId.Some? { continue; }
        match Judge(n, t, r) {
          case Direct(coinId) =>
            ApplyOpsLast(rows, updateOps, Op(r.id, coinId));
            ApplyOpsLast(found, Ops(n, t, found[..i]), Op(r.id, coinId));
            updateOps, directMatch := updateOps + [Op(r.id, coinId)], directMatch + 1;
            if |updateOps| >= BATCH_SIZE { updateOps := FlushUpdates(updateOps, apply); }
          case _ =>
            queueOps := queueOps + [r];
            if |queueOps| >= BATCH_SIZE {
              queueUpserts := queueUpserts + |queueOps|;
              queue, queueOps := if apply then queue + queueOps else queue, [];
            }
        }
      }
      assert found[..|found|] == found;
      queueUpserts := queueUpserts + |queueOps|;
      updateOps := FlushUpdates(updateOps, apply);
      queue := if apply then queue + queueOps else queue;
      OpsFill(n, t, found, |found|);
    }

    /** Writing what has been collected, unless this is a dry run. */
    method FlushUpdates(ops: seq<Op>, apply: bool) returns (left: seq<Op>)
      modifies this
      ensures left == []
      ensures rows == if apply then ApplyOps(old(rows), ops) else old(rows)
      ensures apply ==> ApplyOps(rows, left) == rows
    {
      if apply { BulkWrite(ops); }
      left := [];
    }
  }

  lemma ApplyOpsLast(rows: seq<Row>, ops: seq<Op>, op: Op)
    ensures ApplyOps(rows, ops + [op]) == ApplyOp(ApplyOps(rows, ops), op)
  {
    assert (ops + [op])[..|ops|] == ops;
  }

  lemma StartOfLoop(n: Norms, t: Trusted, rows: seq<Row>)
    ensures ApplyOps(rows, []) == rows && Ops(n, t, rows[..0]) == [] && Queued(n, t, rows[..0]) == []
    ensures DirectCount(n, t, rows[..0]) == 0 && QueueCount(n, t, rows[..0]) == 0
  {
  }

  lemma StepOfLoop(n: Norms, t: Trusted, rows: seq<Row>, i: nat)
    requires i < |rows|
    ensures var r, a, b := rows[i], rows[..i], rows[..i + 1];
            if Updates(n, t, r) then
              && Ops(n, t, b) == Ops(n, t, a) + [Op(r.id, Judge(n, t, r).coinId)]
              && Queued(n, t, b) == Queued(n, t, a)
              && DirectCount(n, t, b) == DirectCount(n, t, a) + 1 && QueueCount(n, t, b) == QueueCount(n, t, a)
            else
              && Ops(n, t, b) == Ops(n, t, a)
              && DirectCount(n, t, b) == DirectCount(n, t, a)
              && Queued(n, t, b) == Queued(n, t, a) + (if r.coinId.None? then [r] else [])
              && QueueCount(n, t, b) == QueueCount(n, t, a) + (if r.coinId.None? then 1 else 0)
  {
    assert rows[..i + 1][..i] == rows[..i];
  }
}
