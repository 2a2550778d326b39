/** The group key of a symbol set: its symbols joined by NUL, split again by the flush. */
module SymbolKey {
  import opened Utf16

  const NUL: CodeUnit := 0

  predicate NulFree(s: Text) {
    NUL !in s
  }

  function Join(parts: seq<Text>): Text {
    if parts == [] then []
    else if |parts| == 1 then parts[0]
    else parts[0] + [NUL] + Join(parts[1..])
  }

  function Split(t: Text): (r: seq<Text>)
    ensures r != []
  {
    if t == [] then [[]]
    else
      var rest := Split(t[1..]);
      if t[0] == NUL then [[]] + rest else [[t[0]] + rest[0]] + rest[1..]
  }

  lemma {:induction false} SplitAppend(a: Text, b: Text)
    ensures Split(a + [NUL] + b) == Split(a) + Split(b)
  {
    if a == [] {
      assert a + [NUL] + b == [NUL] + b;
    } else {
      var s, t := a + [NUL] + b, a[1..] + [NUL] + b;
      assert s[0] == a[0] && s[1..] == t;
      SplitAppend(a[1..], b);
    }
  }

  lemma {:induction false} SplitNulFree(t: Text)
    ensures NulFree(t) ==> Split(t) == [t]
    ensures !NulFree(t) ==> t !in Split(t)
    ensures forall p :: p in Split(t) ==> NulFree(p)
  {
    if t != [] {
      SplitNulFree(t[1..]);
      assert t == [t[0]] + t[1..];
      assert forall p :: p in Split(t[1..])[1..] ==> p in Split(t[1..]);
      assert Split(t[1..])[0] in Split(t[1..]);
    }
  }

  /** What a flush reads back from the key of a symbol set. */
  ghost function Pieces(symbols: set<Text>): set<Text> {
    set s, p | s in symbols && p in Split(s) :: p
  }

  lemma {:induction false} SplitOfJoin(parts: seq<Text>)
    requires parts != []
    ensures Elements(Split(Join(parts))) == Pieces(Elements(parts))
  {
    if |parts| == 1 {
      assert Elements(parts) == {parts[0]};
    } else {
      SplitOfJoin(parts[1..]);
      SplitAppend(parts[0], Join(parts[1..]));
      assert parts == [parts[0]] + parts[1..];
      assert Elements(parts) == {parts[0]} + Elements(parts[1..]);
      var head, tail := Split(parts[0]), Split(Join(parts[1..]));
      assert Elements(head + tail) == Elements(head) + Elements(tail);
      assert Pieces(Elements(parts)) == Elements(head) + Pieces(Elements(parts[1..]));
    }
  }

  /** Splitting the key gives the symbols back exactly when none of them contains NUL. */
  lemma PiecesExact(symbols: set<Text>)
    ensures Pieces(symbols) == symbols <==> forall s :: s in symbols ==> NulFree(s)
  {
    forall s | s in symbols { SplitNulFree(s); }
    if forall s :: s in symbols ==> NulFree(s) {
      assert forall p :: p in symbols ==> p in Split(p);
    } else {
      var s :| s in symbols && !NulFree(s);
      assert s !in Pieces(symbols);
    }
  }
}
