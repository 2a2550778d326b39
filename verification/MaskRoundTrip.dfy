/** When masking followed by unmasking gives the text back, and when the translation pipeline around
    a provider that changes nothing does. */
module MaskRoundTrip {
  import opened Basics
  import opened Utf16
  import opened Placeholder
  import opened Masking
  import opened MaskTokens

  /** The list with every placeholder of these digits replaced by the characters of `filler`. */
  function Put(toks: seq<Tok>, digits: Text, filler: Text): seq<Tok> {
    if toks == [] then []
    else (if Stands(toks[0], {digits}) then Chars(filler) else [toks[0]]) + Put(toks[1..], digits, filler)
  }

  lemma {:induction false} FlatChars(w: Text, toks: seq<Tok>)
    ensures Flat(Chars(w) + toks) == w + Flat(toks)
  {
    if w == [] {
      assert Chars(w) + toks == toks;
    } else {
      FlatChars(w[1..], toks);
      assert w == [w[0]] + w[1..];
      Assoc([Ch(w[0])], Chars(w[1..]), toks);
      FlatCons(Ch(w[0]), Chars(w[1..]) + toks);
      Assoc([w[0]], w[1..], Flat(toks));
    }
  }

  lemma NoPrefix(s: Text, d: Text)
    requires d != [] && AllDigits(d) && MarkDigits(s) != d
    ensures !(Mark(d) <= s)
  {
    if Mark(d) <= s {
      var rest := s[|Mark(d)|..];
      assert s == Mark(d) + rest;
      MarkComplete(d, rest);
    }
  }

  lemma ReplaceSkips(c: CodeUnit, rest: Text, pattern: Text, filler: Text)
    requires pattern != [] && !(pattern <= [c] + rest)
    ensures ReplaceAll([c] + rest, pattern, filler) == [c] + ReplaceAll(rest, pattern, filler)
  {
    assert ([c] + rest)[1..] == rest;
  }

  lemma ReplaceSkipsOther(c: CodeUnit, rest: Text, pattern: Text, filler: Text)
    requires pattern != [] && pattern[0] == OPEN && c != OPEN
    ensures ReplaceAll([c] + rest, pattern, filler) == [c] + ReplaceAll(rest, pattern, filler)
  {
    ReplaceSkips(c, rest, pattern, filler);
  }

  lemma {:induction false} ReplaceSkipsDigits(d: Text, rest: Text, pattern: Text, filler: Text)
    requires AllDigits(d) && pattern != [] && pattern[0] == OPEN
    ensures ReplaceAll(d + rest, pattern, filler) == d + ReplaceAll(rest, pattern, filler)
  {
    if d == [] {
      assert d + rest == rest;
    } else {
      assert d == [d[0]] + d[1..];
      Assoc([d[0]], d[1..], rest);
      ReplaceSkipsOther(d[0], d[1..] + rest, pattern, filler);
      ReplaceSkipsDigits(d[1..], rest, pattern, filler);
      Assoc([d[0]], d[1..], ReplaceAll(rest, pattern, filler));
    }
  }

  /** A placeholder with other digits is passed over. */
  lemma ReplaceSkipsMark(d: Text, rest: Text, digits: Text, filler: Text)
    requires d != [] && AllDigits(d) && digits != [] && AllDigits(digits) && d != digits
    ensures ReplaceAll(Mark(d) + rest, Mark(digits), filler) == Mark(d) + ReplaceAll(rest, Mark(digits), filler)
  {
    hide ReplaceAll;
    var p := Mark(digits);
    var s5 := [CLOSE] + rest;
    var s4 := [CLOSE] + s5;
    var s3 := d + s4;
    var s2 := [LETTER_C] + s3;
    MarkComplete(d, rest);
    assert Mark(d) + rest == [OPEN] + ([OPEN] + s2);
    NoPrefix([OPEN] + ([OPEN] + s2), digits);
    ReplaceSkips(OPEN, [OPEN] + s2, p, filler);
    ReplaceSkips(OPEN, s2, p, filler) by { assert p[1] == OPEN && ([OPEN] + s2)[1] == LETTER_C; }
    ReplaceSkipsOther(LETTER_C, s3, p, filler);
    ReplaceSkipsDigits(d, s4, p, filler);
    ReplaceSkipsOther(CLOSE, s5, p, filler);
    ReplaceSkipsOther(CLOSE, rest, p, filler);
    JoinMark(d, Masked(ReplaceAll(rest, p, filler), []));
  }

  /** Replacing a placeholder in a text is replacing it in the list read from the text. */
  lemma {:induction false} ReplaceIsPut(s: Text, digits: Text, filler: Text)
    requires digits != [] && AllDigits(digits)
    ensures ReplaceAll(s, Mark(digits), filler) == Flat(Put(Tokenise(s), digits, filler))
    decreases |s|
  {
    if s != [] {
      var d := MarkDigits(s);
      if d == [] {
        NoPrefix(s, digits);
        ReplaceIsPut(s[1..], digits, filler);
        PutCons(Ch(s[0]), Tokenise(s[1..]), digits, filler);
      } else {
        MarkSound(s);
        var rest := s[|d| + 5..];
        ReplaceIsPut(rest, digits, filler);
        PutCons(Foreign(d), Tokenise(rest), digits, filler);
        if d == digits {
          assert s[|Mark(digits)|..] == rest;
        } else {
          ReplaceSkipsMark(d, rest, digits, filler);
        }
      }
    }
  }

  lemma PutCons(t: Tok, toks: seq<Tok>, digits: Text, filler: Text)
    ensures Flat(Put([t] + toks, digits, filler)) ==
            (if Stands(t, {digits}) then filler else TokText(t)) + Flat(Put(toks, digits, filler))
  {
    assert ([t] + toks)[1..] == toks;
    if Stands(t, {digits}) {
      FlatChars(filler, Put(toks, digits, filler));
    } else {
      FlatCons(t, Put(toks, digits, filler));
    }
  }

  // ---- Filling in the originals one by one ----

  lemma {:induction false} EraseAppend(a: seq<Tok>, b: seq<Tok>)
    ensures Erase(a + b) == Erase(a) + Erase(b)
  {
    if a == [] {
      assert a + b == b;
    } else {
      Assoc([a[0]], a[1..], b);
      EraseAppend(a[1..], b);
      assert (a + b)[1..] == a[1..] + b;
      Assoc([Erased(a[0])], Erase(a[1..]), Erase(b));
    }
  }

  lemma {:induction false} EraseChars(w: Text)
    ensures Erase(Chars(w)) == Chars(w)
  {
    if w != [] {
      EraseChars(w[1..]);
      assert Chars(w)[1..] == Chars(w[1..]);
    }
  }

  lemma {:induction false} FlatErase(toks: seq<Tok>)
    ensures Flat(Erase(toks)) == Flat(toks)
  {
    if toks != [] {
      FlatErase(toks[1..]);
      FlatCons(Erased(toks[0]), Erase(toks[1..]));
    }
  }

  /** No placeholder of the text has the number of an original. */
  predicate NoneForeign(toks: seq<Tok>, n: nat) {
    forall i, k: nat :: 0 <= i < |toks| && k < n ==> toks[i] != Foreign(Decimal(k))
  }

  lemma EraseTok(t: Tok, k: nat)
    ensures Stands(Erased(t), {Decimal(k)}) <==> (t == Own(k) || t == Foreign(Decimal(k)))
  {
    if t.Own? && Decimal(t.k) == Decimal(k) { DecimalInjective(t.k, k); }
  }

  /** Putting original number `m` back into the list in which those before it are back. */
  lemma {:induction false} PutIsExpand(toks: seq<Tok>, originals: seq<Text>, m: nat)
    requires m < |originals| && NoneForeign(toks, |originals|)
    ensures Put(Erase(Expand(toks, originals, m)), Decimal(m), originals[m]) == Erase(Expand(toks, originals, m + 1))
  {
    if toks != [] {
      var t := toks[0];
      assert NoneForeign(toks[1..], |originals|);
      PutIsExpand(toks[1..], originals, m);
      EraseAppend(ExpandTok(t, originals, m), Expand(toks[1..], originals, m));
      EraseAppend(ExpandTok(t, originals, m + 1), Expand(toks[1..], originals, m + 1));
      PutHead(t, Erase(Expand(toks[1..], originals, m)), originals, m);
    }
  }

  lemma {:induction false} PutChars(w: Text, toks: seq<Tok>, digits: Text, filler: Text)
    ensures Put(Chars(w) + toks, digits, filler) == Chars(w) + Put(toks, digits, filler)
  {
    if w == [] {
      assert Chars(w) + toks == toks;
    } else {
      PutChars(w[1..], toks, digits, filler);
      Assoc([Ch(w[0])], Chars(w[1..]), toks);
      assert (Chars(w) + toks)[1..] == Chars(w[1..]) + toks;
      Assoc([Ch(w[0])], Chars(w[1..]), Put(toks, digits, filler));
    }
  }

  lemma PutHead(t: Tok, rest: seq<Tok>, originals: seq<Text>, m: nat)
    requires m < |originals| && t != Foreign(Decimal(m))
    ensures Put(Erase(ExpandTok(t, originals, m)) + rest, Decimal(m), originals[m]) ==
            Erase(ExpandTok(t, originals, m + 1)) + Put(rest, Decimal(m), originals[m])
  {
    if t.Own? && t.k < m {
      EraseChars(originals[t.k]);
      PutChars(originals[t.k], rest, Decimal(m), originals[m]);
    } else {
      EraseTok(t, m);
      assert Erase([t]) == [Erased(t)];
      assert ([Erased(t)] + rest)[1..] == rest;
      if t == Own(m) { EraseChars(originals[m]); }
    }
  }

  // ---- Clean lists ----

  lemma {:induction false} CleanTail(a: seq<Tok>, b: seq<Tok>)
    requires Clean(a + b)
    ensures Clean(b)
  {
    if a == [] {
      assert a + b == b;
    } else {
      assert (a + b)[1..] == a[1..] + b;
      CleanTail(a[1..], b);
    }
  }

  /** The characters a list starts with stay when originals are put back. */
  lemma {:induction false} ExpandKeepsChars(toks: seq<Tok>, originals: seq<Text>, n: nat)
    requires n <= |toks| && forall i :: 0 <= i < n ==> toks[i].Ch?
    ensures Flat(Expand(toks, originals, |originals|)) == Flat(toks[..n]) + Flat(Expand(toks[n..], originals, |originals|))
  {
    if n == 0 {
      assert toks[0..] == toks && toks[..0] == [];
    } else {
      ExpandKeepsChars(toks[1..], originals, n - 1);
      assert toks[1..][n - 1..] == toks[n..];
      assert toks[..n] == [toks[0]] + toks[1..][..n - 1];
      FlatCons(toks[0], toks[1..][..n - 1]);
      FlatCons(toks[0], Expand(toks[1..], originals, |originals|));
      Assoc([toks[0].c], Flat(toks[1..][..n - 1]), Flat(Expand(toks[n..], originals, |originals|)));
    }
  }

  lemma {:induction false} FlatTake(toks: seq<Tok>, n: nat)
    requires n <= |toks| && forall i :: 0 <= i < n ==> toks[i].Ch?
    ensures Flat(toks) == Flat(toks[..n]) + Flat(toks[n..]) && |Flat(toks[..n])| == n
  {
    if n == 0 {
      assert toks[0..] == toks && toks[..0] == [];
    } else {
      FlatTake(toks[1..], n - 1);
      assert toks[1..][n - 1..] == toks[n..];
      assert toks[..n] == [toks[0]] + toks[1..][..n - 1];
      FlatCons(toks[0], toks[1..][..n - 1]);
      Assoc([toks[0].c], Flat(toks[1..][..n - 1]), Flat(toks[n..]));
    }
  }

  /** A placeholder spelled by the first characters is spelled by them after the originals are back. */
  lemma SpelledStays(toks: seq<Tok>, originals: seq<Text>)
    requires toks != [] && toks[0].Ch? && MarkDigits(Flat(toks)) != []
    ensures MarkDigits(Flat(Expand(toks, originals, |originals|))) != []
  {
    var s := Flat(toks);
    var d := MarkDigits(s);
    var n := |d| + 5;
    SpelledByChars(toks);
    MarkSound(s);
    FlatTake(toks, n);
    assert Flat(toks[..n]) == s[..n] == Mark(d);
    ExpandKeepsChars(toks, originals, n);
    MarkComplete(d, Flat(Expand(toks[n..], originals, |originals|)));
  }

  /** Masking makes no new placeholder out of characters. */
  lemma {:induction false} CleanIfExpanded(toks: seq<Tok>, originals: seq<Text>)
    requires Clean(Expand(toks, originals, |originals|))
    ensures Clean(toks)
  {
    if toks != [] {
      CleanTail(ExpandTok(toks[0], originals, |originals|), Expand(toks[1..], originals, |originals|));
      CleanIfExpanded(toks[1..], originals);
      if toks[0].Ch? && MarkDigits(Flat(toks)) != [] {
        SpelledStays(toks, originals);
      }
    }
  }

  lemma {:induction false} ExpandAppend(a: seq<Tok>, b: seq<Tok>, originals: seq<Text>, m: nat)
    ensures Expand(a + b, originals, m) == Expand(a, originals, m) + Expand(b, originals, m)
  {
    if a == [] {
      assert a + b == b;
    } else {
      assert (a + b)[1..] == a[1..] + b;
      ExpandAppend(a[1..], b, originals, m);
      Assoc(ExpandTok(a[0], originals, m), Expand(a[1..], originals, m), Expand(b, originals, m));
    }
  }

  lemma ExpandTokTwice(t: Tok, originals: seq<Text>, m: nat)
    ensures Expand(ExpandTok(t, originals, m), originals, |originals|) == ExpandTok(t, originals, |originals|)
  {
    if t.Own? && t.k < m && t.k < |originals| {
      ExpandAfterChars(originals[t.k], [], originals, |originals|);
      assert Chars(originals[t.k]) + [] == Chars(originals[t.k]);
    } else {
      assert [t][1..] == [];
    }
  }

  lemma {:induction false} ExpandTwice(toks: seq<Tok>, originals: seq<Text>, m: nat)
    ensures Expand(Expand(toks, originals, m), originals, |originals|) == Expand(toks, originals, |originals|)
  {
    if toks != [] {
      ExpandTwice(toks[1..], originals, m);
      ExpandTokTwice(toks[0], originals, m);
      ExpandAppend(ExpandTok(toks[0], originals, m), Expand(toks[1..], originals, m), originals, |originals|);
    }
  }

  lemma {:induction false} ExpandProper(toks: seq<Tok>, originals: seq<Text>, m: nat)
    requires Proper(toks)
    ensures Proper(Expand(toks, originals, m))
  {
    if toks != [] {
      ExpandProper(toks[1..], originals, m);
      if toks[0].Own? && toks[0].k < m && toks[0].k < |originals| { CharsIndex(originals[toks[0].k]); }
    }
  }

  /** One round of unmasking puts one more original back. */
  lemma UnmaskRound(toks: seq<Tok>, originals: seq<Text>, m: nat)
    requires m < |originals| && Proper(toks) && NoneForeign(toks, |originals|)
    requires Clean(Expand(toks, originals, |originals|))
    ensures ReplaceAll(Flat(Expand(toks, originals, m)), Numbered(m), originals[m]) == Flat(Expand(toks, originals, m + 1))
  {
    var x := Expand(toks, originals, m);
    ExpandTwice(toks, originals, m);
    CleanIfExpanded(x, originals);
    ExpandProper(toks, originals, m);
    FlatTokenise(x);
    DecimalDigits(m);
    ReplaceIsPut(Flat(x), Decimal(m), originals[m]);
    PutIsExpand(toks, originals, m);
    FlatErase(Expand(toks, originals, m + 1));
  }

  lemma {:induction false} ExpandNone(toks: seq<Tok>, originals: seq<Text>)
    ensures Expand(toks, originals, 0) == toks
  {
    if toks != [] { ExpandNone(toks[1..], originals); }
  }

  lemma {:induction false} UnmaskFills(toks: seq<Tok>, originals: seq<Text>, m: nat)
    requires m <= |originals| && Proper(toks) && NoneForeign(toks, |originals|)
    requires Clean(Expand(toks, originals, |originals|))
    ensures UnmaskFrom(Flat(Expand(toks, originals, m)), originals, m) == Flat(Expand(toks, originals, |originals|))
    decreases |originals| - m
  {
    if m < |originals| {
      UnmaskRound(toks, originals, m);
      UnmaskFills(toks, originals, m + 1);
    }
  }
}
