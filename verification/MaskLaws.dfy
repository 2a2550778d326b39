/** Finding placeholders in a text, and counting what unmasking takes away. */
module MaskLaws {
  import opened Basics
  import opened Utf16
  import opened Placeholder
  import opened Masking
  import opened MaskTokens
  import opened MaskRoundTrip

  ghost predicate Contains(s: Text, w: Text) {
    exists i :: 0 <= i <= |s| && w <= s[i..]
  }

  lemma ContainsAfter(s: Text, n: nat, w: Text)
    requires n <= |s| && (forall i :: 0 <= i < n ==> !(w <= s[i..]))
    ensures Contains(s, w) <==> Contains(s[n..], w)
  {
    assert forall i :: 0 <= i <= |s| - n ==> s[n..][i..] == s[n + i..];
    if Contains(s, w) {
      var i :| 0 <= i <= |s| && w <= s[i..];
      assert i >= n && w <= s[n..][i - n..];
    }
    if Contains(s[n..], w) {
      var i :| 0 <= i <= |s[n..]| && w <= s[n..][i..];
      assert w <= s[n + i..];
    }
  }

  /** Inside a placeholder no other one starts. */
  lemma NoneInside(s: Text, d: Text, digits: Text, i: nat)
    requires Mark(d) <= s && AllDigits(d) && 0 < i < |Mark(d)|
    ensures !(Mark(digits) <= s[i..])
  {
    if i == 1 {
      assert s[1..][1] == s[2] == Mark(d)[2];
    } else {
      assert s[i..][0] == s[i] == Mark(d)[i];
    }
  }

  /** Reading a text finds a placeholder exactly when the text contains it. */
  lemma {:induction false} FoundIffContained(s: Text, digits: Text)
    requires digits != [] && AllDigits(digits)
    ensures Foreign(digits) in Tokenise(s) <==> Contains(s, Mark(digits))
    decreases |s|
  {
    if s == [] {
      assert forall i :: 0 <= i <= 0 ==> !(Mark(digits) <= s[i..]);
    } else {
      var d := MarkDigits(s);
      if d == [] {
        NoPrefix(s, digits);
        assert s[0..] == s;
        ContainsAfter(s, 1, Mark(digits));
        FoundIffContained(s[1..], digits);
      } else {
        MarkSound(s);
        var n := |d| + 5;
        FoundIffContained(s[n..], digits);
        assert s[0..] == s;
        if d != digits {
          NoPrefix(s, digits);
          forall i | 0 <= i < n ensures !(Mark(digits) <= s[i..]) {
            if i > 0 { NoneInside(s, d, digits, i); }
          }
          ContainsAfter(s, n, Mark(digits));
        } else {
          assert Mark(digits) <= s[0..];
        }
      }
    }
  }

  /** Some `[[Ck]]` with k < n is in the text already. */
  ghost predicate HasNumbered(s: Text, n: nat) {
    exists k: nat :: k < n && Contains(s, Numbered(k))
  }

  lemma NoneForeignIff(s: Text, n: nat)
    ensures NoneForeign(Tokenise(s), n) <==> !HasNumbered(s, n)
  {
    forall k: nat | k < n ensures Foreign(Decimal(k)) in Tokenise(s) <==> Contains(s, Numbered(k)) {
      DecimalDigits(k);
      FoundIffContained(s, Decimal(k));
    }
  }

  // ---- Counting opening brackets ----

  function Opens(s: Text): nat {
    if s == [] then 0 else (if s[0] == OPEN then 1 else 0) + Opens(s[1..])
  }

  lemma {:induction false} OpensAppend(a: Text, b: Text)
    ensures Opens(a + b) == Opens(a) + Opens(b)
  {
    if a == [] {
      assert a + b == b;
    } else {
      assert (a + b)[1..] == a[1..] + b;
      OpensAppend(a[1..], b);
    }
  }

  lemma {:induction false} OpensNone(w: Text)
    requires OPEN !in w
    ensures Opens(w) == 0
  {
    if w != [] { OpensNone(w[1..]); }
  }

  lemma OpensMark(d: Text)
    requires AllDigits(d)
    ensures Opens(Mark(d)) == 2
  {
    OpensAppend([OPEN, OPEN, LETTER_C] + d, [CLOSE, CLOSE]);
    OpensAppend([OPEN, OPEN, LETTER_C], d);
    OpensNone(d);
    assert [OPEN, OPEN, LETTER_C] == [OPEN] + [OPEN] + [LETTER_C];
    OpensAppend([OPEN] + [OPEN], [LETTER_C]);
    OpensAppend([OPEN], [OPEN]);
    OpensNone([LETTER_C]);
    OpensNone([CLOSE, CLOSE]);
  }

  lemma {:induction false} ScanOpens(fold: CodeUnit -> CodeUnit, prev: bool, s: Text, term: Text, i: nat)
    requires FoldsLikeRegExp(fold) && Bracketless(term) && term != []
    ensures var r := Scan(fold, prev, s, term, i); Opens(r.text) == Opens(s) + 2 * |r.originals|
    decreases |s|
  {
    if s == [] {
    } else if MatchesAt(fold, prev, s, term) {
      var n := |term|;
      MatchBracketless(fold, prev, s, term);
      ScanOpens(fold, IsWord(s[n - 1]), s[n..], term, i + 1);
      DecimalDigits(i);
      OpensMark(Decimal(i));
      OpensAppend(Numbered(i), Scan(fold, IsWord(s[n - 1]), s[n..], term, i + 1).text);
      assert s == s[..n] + s[n..];
      OpensAppend(s[..n], s[n..]);
      OpensNone(s[..n]);
    } else {
      ScanOpens(fold, IsWord(s[0]), s[1..], term, i);
      OpensAppend([s[0]], Scan(fold, IsWord(s[0]), s[1..], term, i).text);
      OpensAppend([s[0]], s[1..]);
      assert s == [s[0]] + s[1..];
    }
  }

  /** Each original masked adds two opening brackets. */
  lemma {:induction false} MaskOpens(fold: CodeUnit -> CodeUnit, terms: seq<Text>, m: Masked)
    requires FoldsLikeRegExp(fold) && SafeTerms(terms)
    ensures var r := MaskFrom(fold, terms, m); Opens(r.text) - 2 * |r.originals| == Opens(m.text) - 2 * |m.originals|
    decreases |terms|
  {
    if terms == [] {
    } else if |terms[0]| < 2 {
      MaskOpens(fold, terms[1..], m);
    } else {
      ScanOpens(fold, false, m.text, terms[0], |m.originals|);
      var r := Scan(fold, false, m.text, terms[0], |m.originals|);
      MaskOpens(fold, terms[1..], Masked(r.text, m.originals + r.originals));
    }
  }

  lemma TokOpens(t: Tok, digits: Text, filler: Text)
    requires ProperTok(t) && Bracketless(filler)
    ensures Opens(TokText(t)) ==
            if Stands(t, {digits}) then Opens(filler) + 2 else Opens(TokText(t))
  {
    OpensNone(filler);
    if Stands(t, {digits}) {
      if t.Own? { DecimalDigits(t.k); }
      OpensMark(Erased(t).digits);
    }
  }

  lemma {:induction false} PutOpens(toks: seq<Tok>, digits: Text, filler: Text)
    requires Proper(toks) && Bracketless(filler)
    ensures Opens(Flat(Put(toks, digits, filler))) + 2 * Count(toks, {digits}) == Opens(Flat(toks))
  {
    if toks != [] {
      var t, rest := toks[0], toks[1..];
      assert toks == [t] + rest;
      PutOpens(rest, digits, filler);
      PutCons(t, rest, digits, filler);
      CountConcat(t, rest, {digits});
      FlatCons(t, rest);
      TokOpens(t, digits, filler);
      OpensAppend(filler, Flat(Put(rest, digits, filler)));
      OpensAppend(TokText(t), Flat(Put(rest, digits, filler)));
      OpensAppend(TokText(t), Flat(rest));
      hide *;
    }
  }

  lemma {:induction false} CountSplits(toks: seq<Tok>, d: Text, ds: set<Text>)
    requires d !in ds
    ensures Count(toks, ds + {d}) == Count(toks, ds) + Count(toks, {d})
  {
    if toks != [] { CountSplits(toks[1..], d, ds); }
  }

  lemma {:induction false} CountAppend(a: seq<Tok>, b: seq<Tok>, ds: set<Text>)
    ensures Count(a + b, ds) == Count(a, ds) + Count(b, ds)
  {
    if a == [] {
      assert a + b == b;
    } else {
      assert (a + b)[1..] == a[1..] + b;
      CountAppend(a[1..], b, ds);
    }
  }

  lemma {:induction false} PutCounts(toks: seq<Tok>, digits: Text, filler: Text, ds: set<Text>)
    requires digits !in ds
    ensures Count(Put(toks, digits, filler), ds) == Count(toks, ds)
  {
    if toks != [] {
      PutCounts(toks[1..], digits, filler, ds);
      var head := if Stands(toks[0], {digits}) then Chars(filler) else [toks[0]];
      CountAppend(head, Put(toks[1..], digits, filler), ds);
      CharsIndex(filler);
      CountSkipsChars(Chars(filler), |filler|, ds);
      assert Chars(filler)[|filler|..] == [];
    }
  }

  lemma {:induction false} PutProper(toks: seq<Tok>, digits: Text, filler: Text)
    requires Proper(toks)
    ensures Proper(Put(toks, digits, filler))
  {
    if toks != [] {
      PutProper(toks[1..], digits, filler);
      CharsIndex(filler);
    }
  }

  lemma NumeralsSplit(m: nat, n: nat)
    requires m < n
    ensures Numerals(m, n) == Numerals(m + 1, n) + {Decimal(m)} && Decimal(m) !in Numerals(m + 1, n)
  {
    if Decimal(m) in Numerals(m + 1, n) {
      var k: nat :| m + 1 <= k < n && Decimal(k) == Decimal(m);
      DecimalInjective(k, m);
    }
  }

  /** Each numbered placeholder of the text costs the unmasked text two opening brackets. */
  lemma {:induction false} UnmaskOpens(s: Text, originals: seq<Text>, m: nat)
    requires m <= |originals| && forall w :: w in originals ==> Bracketless(w)
    ensures Opens(UnmaskFrom(s, originals, m)) + 2 * Count(Tokenise(s), Numerals(m, |originals|)) <= Opens(s)
    decreases |originals| - m
  {
    var n := |originals|;
    if m == n {
      assert Numerals(m, n) == {};
      CountNone(Tokenise(s));
    } else {
      var toks, d, w := Tokenise(s), Decimal(m), originals[m];
      var rest := Put(toks, d, w);
      DecimalDigits(m);
      TokeniseFlat(s);
      ReplaceIsPut(s, d, w);
      UnmaskOpens(Flat(rest), originals, m + 1);
      PutOpens(toks, d, w);
      NumeralsSplit(m, n);
      CountSplits(toks, d, Numerals(m + 1, n));
      PutCounts(toks, d, w, Numerals(m + 1, n));
      PutProper(toks, d, w);
      MarksSurvive(rest, Numerals(m + 1, n));
    }
  }

  lemma {:induction false} CountNone(toks: seq<Tok>)
    ensures Count(toks, {}) == 0
  {
    if toks != [] { CountNone(toks[1..]); }
  }

  lemma {:induction false} CountPositive(toks: seq<Tok>, ds: set<Text>, i: nat)
    requires i < |toks| && Stands(toks[i], ds)
    ensures Count(toks, ds) > 0
  {
    if i > 0 { CountPositive(toks[1..], ds, i - 1); }
  }
}
