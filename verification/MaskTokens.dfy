/** Masking and unmasking seen on lists of characters and placeholders. */
module MaskTokens {
  import opened Basics
  import opened Utf16
  import opened Placeholder
  import opened Masking

  function Chars(t: Text): seq<Tok> {
    if t == [] then [] else [Ch(t[0])] + Chars(t[1..])
  }

  datatype MaskedToks = MaskedToks(toks: seq<Tok>, originals: seq<Text>)

  /** A prefix without brackets lies in the leading characters. */
  lemma PrefixIsChars(toks: seq<Tok>, s: Text, n: nat)
    requires s == Flat(toks) && n <= |s| && Bracketless(s[..n])
    ensures n <= |toks| && (forall i :: 0 <= i < n ==> toks[i] == Ch(s[i]))
    ensures Flat(toks[n..]) == s[n..]
  {
    assert forall i :: 0 <= i < n ==> s[..n][i] in s[..n];
    assert Sparse(s[..n]);
    CharsOnly(toks, s[..n]);
  }

  lemma MatchIsChars(fold: CodeUnit -> CodeUnit, prev: bool, toks: seq<Tok>, term: Text)
    requires FoldsLikeRegExp(fold) && SafeTerm(term) && MatchesAt(fold, prev, Flat(toks), term)
    ensures var n, s := |term|, Flat(toks);
            && n <= |toks| && Bracketless(s[..n])
            && (forall i :: 0 <= i < n ==> toks[i] == Ch(s[i]))
            && Flat(toks[n..]) == s[n..]
  {
    var s := Flat(toks);
    MatchBracketless(fold, prev, s, term);
    PrefixIsChars(toks, s, |term|);
  }

  /** One term masked in a list. */
  ghost function TokScan(fold: CodeUnit -> CodeUnit, prev: bool, toks: seq<Tok>, term: Text, i: nat): MaskedToks
    requires FoldsLikeRegExp(fold) && SafeTerm(term) && term != []
    decreases |toks|
  {
    if toks == [] then MaskedToks([], [])
    else if !toks[0].Ch? then
      var r := TokScan(fold, false, toks[1..], term, i);
      MaskedToks([toks[0]] + r.toks, r.originals)
    else if MatchesAt(fold, prev, Flat(toks), term) then
      MatchIsChars(fold, prev, toks, term);
      var w := Flat(toks)[..|term|];
      var r := TokScan(fold, IsWord(w[|w| - 1]), toks[|term|..], term, i + 1);
      MaskedToks([Own(i)] + r.toks, [w] + r.originals)
    else
      var r := TokScan(fold, IsWord(toks[0].c), toks[1..], term, i);
      MaskedToks([toks[0]] + r.toks, r.originals)
  }

  lemma FlatCons(t: Tok, toks: seq<Tok>)
    ensures Flat([t] + toks) == TokText(t) + Flat(toks)
  {
    assert ([t] + toks)[1..] == toks;
  }

  function FlatMasked(m: MaskedToks): Masked {
    Masked(Flat(m.toks), m.originals)
  }

  lemma {:induction false} ScanIsTokScan(fold: CodeUnit -> CodeUnit, prev: bool, toks: seq<Tok>, term: Text, i: nat)
    requires FoldsLikeRegExp(fold) && SafeTerm(term) && term != [] && Proper(toks)
    ensures Scan(fold, prev, Flat(toks), term, i) == FlatMasked(TokScan(fold, prev, toks, term, i))
    decreases |toks|
  {
    if toks == [] {
    } else if !toks[0].Ch? {
      var d := Erased(toks[0]).digits;
      if toks[0].Own? { DecimalDigits(toks[0].k); }
      StepOverMark(fold, prev, d, Flat(toks[1..]), term, i);
      ScanIsTokScan(fold, false, toks[1..], term, i);
      FlatCons(toks[0], TokScan(fold, false, toks[1..], term, i).toks);
    } else if MatchesAt(fold, prev, Flat(toks), term) {
      MatchIsChars(fold, prev, toks, term);
      var p := IsWord(Flat(toks)[|term| - 1]);
      ScanIsTokScan(fold, p, toks[|term|..], term, i + 1);
      FlatCons(Own(i), TokScan(fold, p, toks[|term|..], term, i + 1).toks);
    } else {
      StepOver(fold, prev, toks[0].c, Flat(toks[1..]), term, i);
      ScanIsTokScan(fold, IsWord(toks[0].c), toks[1..], term, i);
      FlatCons(toks[0], TokScan(fold, IsWord(toks[0].c), toks[1..], term, i).toks);
    }
  }

  /** All placeholders of the masking have their original. */
  predicate OwnBelow(toks: seq<Tok>, n: nat) {
    forall i :: 0 <= i < |toks| && toks[i].Own? ==> toks[i].k < n
  }

  function ExpandTok(t: Tok, originals: seq<Text>, m: nat): seq<Tok> {
    if t.Own? && t.k < m && t.k < |originals| then Chars(originals[t.k]) else [t]
  }

  /** The list with the first `m` originals put back. */
  function Expand(toks: seq<Tok>, originals: seq<Text>, m: nat): seq<Tok> {
    if toks == [] then [] else ExpandTok(toks[0], originals, m) + Expand(toks[1..], originals, m)
  }

  lemma ExpandCons(t: Tok, toks: seq<Tok>, originals: seq<Text>, m: nat)
    ensures Expand([t] + toks, originals, m) == ExpandTok(t, originals, m) + Expand(toks, originals, m)
  {
    assert ([t] + toks)[1..] == toks;
  }

  lemma {:induction false} ExpandMore(toks: seq<Tok>, a: seq<Text>, b: seq<Text>)
    requires OwnBelow(toks, |a|)
    ensures Expand(toks, a + b, |a| + |b|) == Expand(toks, a, |a|)
  {
    if toks != [] {
      assert toks[0].Own? ==> (a + b)[toks[0].k] == a[toks[0].k];
      ExpandMore(toks[1..], a, b);
    }
  }

  lemma {:induction false} CharsIndex(t: Text)
    ensures |Chars(t)| == |t| && forall i :: 0 <= i < |t| ==> Chars(t)[i] == Ch(t[i])
  {
    if t != [] { CharsIndex(t[1..]); }
  }

  /** Characters stay what they are. */
  lemma {:induction false} ExpandAfterChars(w: Text, toks: seq<Tok>, originals: seq<Text>, m: nat)
    ensures Expand(Chars(w) + toks, originals, m) == Chars(w) + Expand(toks, originals, m)
  {
    if w == [] {
      assert Chars(w) + toks == toks;
    } else {
      ExpandAfterChars(w[1..], toks, originals, m);
      ExpandCons(Ch(w[0]), Chars(w[1..]) + toks, originals, m);
      Assoc([Ch(w[0])], Chars(w[1..]), toks);
      Assoc([Ch(w[0])], Chars(w[1..]), Expand(toks, originals, m));
    }
  }

  /** Putting the originals back into `m` gives what putting `originals` back into `toks` does. */
  ghost predicate Undoes(toks: seq<Tok>, originals: seq<Text>, m: MaskedToks) {
    var all := originals + m.originals;
    && Proper(m.toks)
    && OwnBelow(m.toks, |all|)
    && Expand(m.toks, all, |all|) == Expand(toks, originals, |originals|)
  }

  lemma UndoesNone(fold: CodeUnit -> CodeUnit, prev: bool, term: Text, originals: seq<Text>)
    requires FoldsLikeRegExp(fold) && SafeTerm(term) && term != []
    ensures Undoes([], originals, TokScan(fold, prev, [], term, |originals|))
  {
    assert originals + [] == originals;
  }

  lemma UndoesKept(full: seq<Tok>, originals: seq<Text>, rest: MaskedToks)
    requires full != [] && Proper(full) && OwnBelow(full, |originals|) && Undoes(full[1..], originals, rest)
    ensures Undoes(full, originals, MaskedToks([full[0]] + rest.toks, rest.originals))
  {
    var t, toks := full[0], full[1..];
    assert full == [t] + toks;
    var all := originals + rest.originals;
    ProperCons(t, rest.toks, |all|);
    ExpandCons(t, rest.toks, all, |all|);
    ExpandCons(t, toks, originals, |originals|);
    assert t.Own? ==> all[t.k] == originals[t.k];
  }

  lemma ProperCons(t: Tok, toks: seq<Tok>, n: nat)
    requires ProperTok(t) && (t.Own? ==> t.k < n) && Proper(toks) && OwnBelow(toks, n)
    ensures Proper([t] + toks) && OwnBelow([t] + toks, n)
  {
  }

  lemma ProperTail(toks: seq<Tok>, n: nat, m: nat)
    requires n <= |toks| && Proper(toks) && OwnBelow(toks, m)
    ensures Proper(toks[n..]) && OwnBelow(toks[n..], m) && OwnBelow(toks[n..], m + 1)
  {
    assert forall i :: 0 <= i < |toks| - n ==> toks[n..][i] == toks[n + i];
  }

  lemma ExpandOwn(before: seq<Text>, w: Text, after: seq<Text>, toks: seq<Tok>)
    ensures var all := before + ([w] + after);
            Expand([Own(|before|)] + toks, all, |all|) == Chars(w) + Expand(toks, all, |all|)
  {
    var all := before + ([w] + after);
    ExpandCons(Own(|before|), toks, all, |all|);
    assert all[|before|] == w;
  }

  lemma UndoesMasked(w: Text, full: seq<Tok>, toks: seq<Tok>, originals: seq<Text>, rest: MaskedToks)
    requires OwnBelow(toks, |originals|) && Undoes(toks, originals + [w], rest) && full == Chars(w) + toks
    ensures Undoes(full, originals, MaskedToks([Own(|originals|)] + rest.toks, [w] + rest.originals))
  {
    hide Expand;
    var all := originals + ([w] + rest.originals);
    assert originals + [w] + rest.originals == all;
    ProperCons(Own(|originals|), rest.toks, |all|);
    ExpandOwn(originals, w, rest.originals, rest.toks);
    ExpandMore(toks, originals, [w]);
    ExpandAfterChars(w, toks, originals, |originals|);
  }

  lemma {:induction false} SplitChars(toks: seq<Tok>, w: Text)
    requires |w| <= |toks| && forall i :: 0 <= i < |w| ==> toks[i] == Ch(w[i])
    ensures toks == Chars(w) + toks[|w|..]
  {
    if w == [] {
      assert toks[0..] == toks;
    } else {
      var tail := toks[|w|..];
      SplitChars(toks[1..], w[1..]);
      assert toks[1..][|w| - 1..] == tail;
      assert toks == [toks[0]] + toks[1..];
      Assoc([Ch(w[0])], Chars(w[1..]), tail);
    }
  }

  lemma TokScanAtMatch(fold: CodeUnit -> CodeUnit, prev: bool, toks: seq<Tok>, term: Text, i: nat)
    returns (w: Text, p: bool)
    requires FoldsLikeRegExp(fold) && SafeTerm(term) && term != []
    requires toks != [] && toks[0].Ch? && MatchesAt(fold, prev, Flat(toks), term)
    ensures |w| == |term| <= |toks| && Bracketless(w) && toks == Chars(w) + toks[|w|..]
    ensures var rest := TokScan(fold, p, toks[|w|..], term, i + 1);
            TokScan(fold, prev, toks, term, i) == MaskedToks([Own(i)] + rest.toks, [w] + rest.originals)
  {
    MatchIsChars(fold, prev, toks, term);
    w := Flat(toks)[..|term|];
    p := IsWord(w[|w| - 1]);
    SplitChars(toks, w);
  }

  lemma TokScanElsewhere(fold: CodeUnit -> CodeUnit, prev: bool, toks: seq<Tok>, term: Text, i: nat) returns (p: bool)
    requires FoldsLikeRegExp(fold) && SafeTerm(term) && term != []
    requires toks != [] && !(toks[0].Ch? && MatchesAt(fold, prev, Flat(toks), term))
    ensures var rest := TokScan(fold, p, toks[1..], term, i);
            TokScan(fold, prev, toks, term, i) == MaskedToks([toks[0]] + rest.toks, rest.originals)
  {
    p := toks[0].Ch? && IsWord(toks[0].c);
  }

  /** Masking changes nothing that putting the originals back does not undo. */
  lemma {:induction false} TokScanExpands(fold: CodeUnit -> CodeUnit, prev: bool, toks: seq<Tok>, term: Text, originals: seq<Text>)
    requires FoldsLikeRegExp(fold) && SafeTerm(term) && term != [] && Proper(toks) && OwnBelow(toks, |originals|)
    ensures Undoes(toks, originals, TokScan(fold, prev, toks, term, |originals|))
    decreases |toks|
  {
    hide *;
    if toks == [] {
      UndoesNone(fold, prev, term, originals);
    } else if toks[0].Ch? && MatchesAt(fold, prev, Flat(toks), term) {
      var w, p := TokScanAtMatch(fold, prev, toks, term, |originals|);
      var after := toks[|w|..];
      ProperTail(toks, |w|, |originals|);
      TokScanExpands(fold, p, after, term, originals + [w]);
      UndoesMasked(w, toks, after, originals, TokScan(fold, p, after, term, |originals| + 1));
    } else {
      var p := TokScanElsewhere(fold, prev, toks, term, |originals|);
      ProperTail(toks, 1, |originals|);
      TokScanExpands(fold, p, toks[1..], term, originals);
      UndoesKept(toks, originals, TokScan(fold, p, toks[1..], term, |originals|));
    }
  }

  /** Every original masked leaves one more placeholder, and has no bracket. */
  lemma {:induction false} TokScanCounts(fold: CodeUnit -> CodeUnit, prev: bool, toks: seq<Tok>, term: Text, i: nat, ds: set<Text>)
    requires FoldsLikeRegExp(fold) && SafeTerm(term) && term != []
    requires var n := i + |TokScan(fold, prev, toks, term, i).originals|;
             forall k: nat :: i <= k < n ==> Decimal(k) in ds
    ensures var m := TokScan(fold, prev, toks, term, i); Count(m.toks, ds) == Count(toks, ds) + |m.originals|
    decreases |toks|
  {
    if toks == [] {
    } else if toks[0].Ch? && MatchesAt(fold, prev, Flat(toks), term) {
      var w, p := TokScanAtMatch(fold, prev, toks, term, i);
      var rest := TokScan(fold, p, toks[|w|..], term, i + 1);
      TokScanCounts(fold, p, toks[|w|..], term, i + 1, ds);
      CountConcat(Own(i), rest.toks, ds);
      CharsIndex(w);
      CountSkipsChars(toks, |w|, ds);
    } else {
      var p := TokScanElsewhere(fold, prev, toks, term, i);
      TokScanCounts(fold, p, toks[1..], term, i, ds);
      CountConcat(toks[0], TokScan(fold, p, toks[1..], term, i).toks, ds);
    }
  }

  lemma {:induction false} TokScanOriginals(fold: CodeUnit -> CodeUnit, prev: bool, toks: seq<Tok>, term: Text, i: nat)
    requires FoldsLikeRegExp(fold) && SafeTerm(term) && term != []
    ensures forall w :: w in TokScan(fold, prev, toks, term, i).originals ==> Bracketless(w)
    decreases |toks|
  {
    if toks == [] {
    } else if toks[0].Ch? && MatchesAt(fold, prev, Flat(toks), term) {
      var w, p := TokScanAtMatch(fold, prev, toks, term, i);
      TokScanOriginals(fold, p, toks[|w|..], term, i + 1);
    } else {
      var p := TokScanElsewhere(fold, prev, toks, term, i);
      TokScanOriginals(fold, p, toks[1..], term, i);
    }
  }

  /** What the masking has done so far to the text whose list is `base`. */
  ghost predicate MaskedFrom(base: seq<Tok>, m: MaskedToks) {
    && Proper(m.toks)
    && OwnBelow(m.toks, |m.originals|)
    && Expand(m.toks, m.originals, |m.originals|) == base
    && (forall w :: w in m.originals ==> Bracketless(w))
  }

  /** Placeholders with the numbers from `lo` up to `hi`. */
  function Numerals(lo: nat, hi: nat): set<Text> {
    set k: nat | lo <= k < hi :: Decimal(k)
  }

  ghost function MaskToksFrom(fold: CodeUnit -> CodeUnit, terms: seq<Text>, m: MaskedToks): MaskedToks
    requires FoldsLikeRegExp(fold) && SafeTerms(terms)
  {
    if terms == [] then m
    else if |terms[0]| < 2 then MaskToksFrom(fold, terms[1..], m)
    else
      var r := TokScan(fold, false, m.toks, terms[0], |m.originals|);
      MaskToksFrom(fold, terms[1..], MaskedToks(r.toks, m.originals + r.originals))
  }

  lemma {:induction false} MaskFromIsToks(fold: CodeUnit -> CodeUnit, terms: seq<Text>, m: MaskedToks, base: seq<Tok>)
    requires FoldsLikeRegExp(fold) && SafeTerms(terms) && MaskedFrom(base, m)
    ensures var r := MaskToksFrom(fold, terms, m);
            && MaskFrom(fold, terms, FlatMasked(m)) == FlatMasked(r)
            && MaskedFrom(base, r)
            && |r.originals| >= |m.originals|
            && (forall ds: set<Text> | Numerals(|m.originals|, |r.originals|) <= ds ::
                 Count(r.toks, ds) == Count(m.toks, ds) + |r.originals| - |m.originals|)
  {
    if terms == [] {
    } else if |terms[0]| < 2 {
      MaskFromIsToks(fold, terms[1..], m, base);
    } else {
      var one := TokScan(fold, false, m.toks, terms[0], |m.originals|);
      var next := MaskedToks(one.toks, m.originals + one.originals);
      ScanIsTokScan(fold, false, m.toks, terms[0], |m.originals|);
      TokScanExpands(fold, false, m.toks, terms[0], m.originals);
      TokScanOriginals(fold, false, m.toks, terms[0], |m.originals|);
      assert MaskedFrom(base, next);
      MaskFromIsToks(fold, terms[1..], next, base);
      var r := MaskToksFrom(fold, terms[1..], next);
      forall ds: set<Text> | Numerals(|m.originals|, |r.originals|) <= ds
        ensures Count(r.toks, ds) == Count(m.toks, ds) + |r.originals| - |m.originals|
      {
        assert forall k: nat :: |m.originals| <= k < |next.originals| ==> Decimal(k) in Numerals(|m.originals|, |r.originals|);
        TokScanCounts(fold, false, m.toks, terms[0], |m.originals|, ds);
        assert Numerals(|next.originals|, |r.originals|) <= Numerals(|m.originals|, |r.originals|);
      }
    }
  }
}
