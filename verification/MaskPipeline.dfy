/** Exactly when unmasking undoes masking; realigning placeholders after the provider, the whole
    pipeline around one text, and the loops that do it. */
module MaskPipeline {
  import opened Basics
  import opened Utf16
  import opened Placeholder
  import opened Masking
  import opened MaskTokens
  import opened MaskRoundTrip
  import opened MaskLaws

  /** The list behind the masked text. */
  lemma MaskedList(fold: CodeUnit -> CodeUnit, terms: seq<Text>, text: Text) returns (r: MaskedToks)
    requires FoldsLikeRegExp(fold) && SafeTerms(terms)
    ensures Mask(fold, terms, text) == FlatMasked(r) && MaskedFrom(Tokenise(text), r)
    ensures var ds := Numerals(0, |r.originals|); Count(r.toks, ds) == Count(Tokenise(text), ds) + |r.originals|
  {
    var base := MaskedToks(Tokenise(text), []);
    TokeniseFlat(text);
    ExpandNone(base.toks, []);
    assert MaskedFrom(Tokenise(text), base);
    MaskFromIsToks(fold, terms, base, Tokenise(text));
    r := MaskToksFrom(fold, terms, base);
  }

  lemma NoneForeignParts(a: seq<Tok>, b: seq<Tok>, n: nat)
    requires NoneForeign(a + b, n)
    ensures NoneForeign(a, n) && NoneForeign(b, n)
  {
    assert forall i :: 0 <= i < |a| ==> a[i] == (a + b)[i];
    assert forall i :: 0 <= i < |b| ==> b[i] == (a + b)[|a| + i];
  }

  lemma {:induction false} NoneForeignInMasked(toks: seq<Tok>, originals: seq<Text>, n: nat)
    requires NoneForeign(Expand(toks, originals, |originals|), n)
    ensures NoneForeign(toks, n)
  {
    if toks != [] {
      var head, rest := ExpandTok(toks[0], originals, |originals|), Expand(toks[1..], originals, |originals|);
      assert Expand(toks, originals, |originals|) == head + rest;
      NoneForeignParts(head, rest, n);
      NoneForeignInMasked(toks[1..], originals, n);
      assert toks == [toks[0]] + toks[1..];
      assert NoneForeign([toks[0]], n);
      hide Expand, ExpandTok;
    }
  }

  /** For terms that cannot match inside a placeholder, unmasking undoes masking exactly when the
      text holds no placeholder with the number of a masked term. */
  lemma UnmaskUndoesMask(fold: CodeUnit -> CodeUnit, terms: seq<Text>, text: Text)
    requires FoldsLikeRegExp(fold) && SafeTerms(terms)
    ensures var m := Mask(fold, terms, text);
            Unmask(m.text, m.originals) == text <==> !HasNumbered(text, |m.originals|)
  {
    var r := MaskedList(fold, terms, text);
    var base, n := Tokenise(text), |r.originals|;
    NoneForeignIff(text, n);
    if NoneForeign(base, n) {
      NoneForeignInMasked(r.toks, r.originals, n);
      TokeniseClean(text);
      ExpandNone(r.toks, r.originals);
      UnmaskFills(r.toks, r.originals, 0);
      TokeniseFlat(text);
    } else {
      var i, k: nat :| 0 <= i < |base| && k < n && base[i] == Foreign(Decimal(k));
      LosesBrackets(fold, terms, text, r, i, k);
    }
  }

  lemma LosesBrackets(fold: CodeUnit -> CodeUnit, terms: seq<Text>, text: Text, r: MaskedToks, i: nat, k: nat)
    requires FoldsLikeRegExp(fold) && SafeTerms(terms)
    requires Mask(fold, terms, text) == FlatMasked(r) && MaskedFrom(Tokenise(text), r)
    requires var ds := Numerals(0, |r.originals|); Count(r.toks, ds) == Count(Tokenise(text), ds) + |r.originals|
    requires i < |Tokenise(text)| && k < |r.originals| && Tokenise(text)[i] == Foreign(Decimal(k))
    ensures Opens(Unmask(Flat(r.toks), r.originals)) < Opens(text)
  {
    var ds := Numerals(0, |r.originals|);
    CountPositive(Tokenise(text), ds, i);
    MarksSurvive(r.toks, ds);
    UnmaskOpens(Flat(r.toks), r.originals, 0);
    MaskOpens(fold, terms, Masked(text, []));
  }

  /** The digits of the placeholders of a list, left to right. */
  function Marks(toks: seq<Tok>): seq<Text> {
    if toks == [] then []
    else (if toks[0].Ch? then [] else [Erased(toks[0]).digits]) + Marks(toks[1..])
  }

  /** Placeholders renumbered left to right from `k`; from `n` on the last number is repeated. */
  function Renumber(toks: seq<Tok>, k: nat, n: nat): seq<Tok>
    requires n > 0
  {
    if toks == [] then []
    else if toks[0].Ch? then [toks[0]] + Renumber(toks[1..], k, n)
    else [Own(if k < n then k else n - 1)] + Renumber(toks[1..], k + 1, n)
  }

  function Realign(maskedInput: Text, providerOut: Text): Text {
    var n := |Marks(Tokenise(maskedInput))|;
    if n == 0 then providerOut else Flat(Renumber(Tokenise(providerOut), 0, n))
  }

  /** What becomes of a text given to the provider. */
  function Through(fold: CodeUnit -> CodeUnit, terms: seq<Text>, provider: Text -> Text, text: Text): Text {
    var m := Mask(fold, terms, text);
    Unmask(Realign(m.text, provider(m.text)), m.originals)
  }

  /** The placeholder in place j stands for the same original as number j. */
  predicate InPlace(marks: seq<Text>, originals: seq<Text>, k: nat) {
    forall j: nat, q: nat :: j < |marks| && k + j < |originals| && q < |originals| && marks[j] == Decimal(q) ==>
                             originals[k + j] == originals[q]
  }

  lemma InPlaceTail(d: Text, tail: seq<Text>, originals: seq<Text>, k: nat)
    requires InPlace([d] + tail, originals, k)
    ensures InPlace(tail, originals, k + 1)
  {
    var marks := [d] + tail;
    assert forall j: nat :: j < |tail| ==> tail[j] == marks[j + 1];
    forall j: nat, q: nat | j < |tail| && k + 1 + j < |originals| && q < |originals| && tail[j] == Decimal(q)
      ensures originals[k + 1 + j] == originals[q]
    {
      assert marks[j + 1] == Decimal(q) && originals[k + (j + 1)] == originals[q];
    }
  }

  /** `r` puts back what `toks` does, without placeholders of the text. */
  predicate Same(r: seq<Tok>, toks: seq<Tok>, originals: seq<Text>) {
    && Expand(r, originals, |originals|) == Expand(toks, originals, |originals|)
    && OwnBelow(r, |originals|)
    && (forall t :: t in r ==> !t.Foreign?)
  }

  lemma NothingSame(originals: seq<Text>)
    ensures Same([], [], originals)
  {
  }

  lemma SameCons(t: Tok, u: Tok, r: seq<Tok>, toks: seq<Tok>, originals: seq<Text>)
    requires Same(r, toks, originals) && !t.Foreign? && (t.Own? ==> t.k < |originals|)
    requires ExpandTok(t, originals, |originals|) == ExpandTok(u, originals, |originals|)
    ensures Same([t] + r, [u] + toks, originals)
  {
    ExpandCons(t, r, originals, |originals|);
    ExpandCons(u, toks, originals, |originals|);
  }

  lemma {:induction false} RenumberExpands(toks: seq<Tok>, originals: seq<Text>, k: nat)
    requires (forall t :: t in toks ==> !t.Foreign?) && OwnBelow(toks, |originals|)
    requires k + |Marks(toks)| <= |originals| && InPlace(Marks(toks), originals, k)
    requires |originals| > 0
    ensures Same(Renumber(Erase(toks), k, |originals|), toks, originals)
  {
    hide Expand, Same;
    if toks == [] {
      NothingSame(originals);
    } else {
      var n, t, rest := |originals|, toks[0], toks[1..];
      assert toks == [t] + rest && t in toks;
      assert OwnBelow(rest, n);
      assert Erase(toks)[1..] == Erase(rest);
      if t.Ch? {
        assert [] + Marks(rest) == Marks(rest);
        RenumberExpands(rest, originals, k);
        SameCons(t, t, Renumber(Erase(rest), k, n), rest, originals);
      } else {
        var marks := Marks(toks);
        assert marks == [Decimal(t.k)] + Marks(rest);
        InPlaceTail(Decimal(t.k), Marks(rest), originals, k);
        RenumberExpands(rest, originals, k + 1);
        assert marks[0] == Decimal(t.k) && originals[k + 0] == originals[t.k];
        SameCons(Own(k), t, Renumber(Erase(rest), k + 1, n), rest, originals);
      }
    }
  }

  lemma {:induction false} MarksCounted(toks: seq<Tok>, n: nat)
    requires (forall t :: t in toks ==> !t.Foreign?) && OwnBelow(toks, n)
    ensures |Marks(toks)| == Count(toks, Numerals(0, n))
  {
    if toks != [] { MarksCounted(toks[1..], n); }
  }

  lemma {:induction false} NoMarks(toks: seq<Tok>)
    ensures Marks(toks) == [] <==> forall t :: t in toks ==> t.Ch?
    ensures Marks(toks) == [] ==> forall ds :: Count(toks, ds) == 0
  {
    if toks != [] {
      NoMarks(toks[1..]);
      assert toks == [toks[0]] + toks[1..];
    }
  }

  lemma {:induction false} MarksErased(toks: seq<Tok>)
    ensures Marks(Erase(toks)) == Marks(toks)
  {
    if toks != [] {
      MarksErased(toks[1..]);
      assert Erase(toks)[1..] == Erase(toks[1..]);
    }
  }

  lemma {:induction false} NoForeignInMasked(toks: seq<Tok>, originals: seq<Text>)
    requires forall t :: t in Expand(toks, originals, |originals|) ==> t.Ch?
    ensures forall t :: t in toks ==> !t.Foreign?
  {
    if toks != [] {
      assert forall t :: t in Expand(toks[1..], originals, |originals|) ==> t in Expand(toks, originals, |originals|);
      NoForeignInMasked(toks[1..], originals);
      assert !toks[0].Own? ==> Expand(toks, originals, |originals|)[0] == toks[0];
      assert !toks[0].Own? ==> toks[0] in Expand(toks, originals, |originals|);
      assert toks == [toks[0]] + toks[1..];
    }
  }

  lemma ProperWithoutForeign(toks: seq<Tok>, n: nat)
    requires forall t :: t in toks ==> !t.Foreign?
    ensures Proper(toks) && NoneForeign(toks, n)
  {
    assert forall i :: 0 <= i < |toks| ==> toks[i] in toks;
  }

  /** Around a provider that changes nothing, the pipeline returns a text without placeholders if the
      placeholders stand in the order of their numbers, or at least for the same words. */
  lemma PipelineIsIdentity(fold: CodeUnit -> CodeUnit, terms: seq<Text>, provider: Text -> Text, text: Text)
    requires FoldsLikeRegExp(fold) && SafeTerms(terms)
    requires Marks(Tokenise(text)) == []
    requires provider(Mask(fold, terms, text).text) == Mask(fold, terms, text).text
    requires InPlace(Marks(Tokenise(Mask(fold, terms, text).text)), Mask(fold, terms, text).originals, 0)
    ensures Through(fold, terms, provider, text) == text
  {
    hide Mask, Unmask;
    var r := MaskedList(fold, terms, text);
    var originals, n := r.originals, |r.originals|;
    NoMarks(Tokenise(text));
    NoForeignInMasked(r.toks, originals);
    TokeniseClean(text);
    TokeniseFlat(text);
    CleanIfExpanded(r.toks, originals);
    FlatTokenise(r.toks);
    MarksErased(r.toks);
    MarksCounted(r.toks, n);
    if n > 0 {
      RenumberExpands(r.toks, originals, 0);
      RestoredFrom(Renumber(Erase(r.toks), 0, n), originals, text);
    } else {
      RestoredFrom(r.toks, originals, text);
    }
  }

  lemma RestoredFrom(toks: seq<Tok>, originals: seq<Text>, text: Text)
    requires (forall t :: t in toks ==> !t.Foreign?) && Expand(toks, originals, |originals|) == Tokenise(text)
    ensures Unmask(Flat(toks), originals) == text
  {
    ProperWithoutForeign(toks, |originals|);
    TokeniseClean(text);
    TokeniseFlat(text);
    ExpandNone(toks, originals);
    UnmaskFills(toks, originals, 0);
  }

  // ---- The exact output for a text without opening brackets ----

  /** The text of the list with its j-th placeholder replaced by the j-th original from `k` on. */
  function Refilled(toks: seq<Tok>, originals: seq<Text>, k: nat): Text {
    if toks == [] then []
    else if toks[0].Ch? then [toks[0].c] + Refilled(toks[1..], originals, k)
    else (if k < |originals| then originals[k] else TokText(toks[0])) + Refilled(toks[1..], originals, k + 1)
  }

  lemma {:induction false} RenumberRefills(toks: seq<Tok>, originals: seq<Text>, k: nat)
    requires k + |Marks(toks)| <= |originals| && |originals| > 0
    ensures Flat(Expand(Renumber(toks, k, |originals|), originals, |originals|)) == Refilled(toks, originals, k)
  {
    if toks != [] {
      var n, t, rest := |originals|, toks[0], toks[1..];
      if t.Ch? {
        assert [] + Marks(rest) == Marks(rest);
        RenumberRefills(rest, originals, k);
        hide Expand, Flat;
        ExpandCons(t, Renumber(rest, k, n), originals, n);
        FlatCons(t, Expand(Renumber(rest, k, n), originals, n));
      } else {
        RenumberRefills(rest, originals, k + 1);
        hide Expand, Flat;
        ExpandCons(Own(k), Renumber(rest, k + 1, n), originals, n);
        FlatChars(originals[k], Expand(Renumber(rest, k + 1, n), originals, n));
      }
    }
  }

  /** Only characters, none of them an opening bracket. */
  predicate OpenFree(toks: seq<Tok>) {
    forall t :: t in toks ==> t.Ch? && t.c != OPEN
  }

  lemma {:induction false} OpenFreeIsClean(toks: seq<Tok>)
    requires OpenFree(toks)
    ensures Clean(toks)
  {
    if toks != [] {
      OpenFreeIsClean(toks[1..]);
      assert toks[0] in toks && Flat(toks)[0] == toks[0].c;
    }
  }

  lemma {:induction false} OpenFreeText(s: Text)
    requires OPEN !in s
    ensures OpenFree(Tokenise(s))
  {
    if s != [] { OpenFreeText(s[1..]); }
  }

  lemma {:induction false} OpenFreeParts(toks: seq<Tok>, originals: seq<Text>)
    requires OpenFree(Expand(toks, originals, |originals|))
    ensures forall t :: t in toks ==> !t.Foreign? && (t.Ch? ==> t.c != OPEN)
  {
    if toks != [] {
      var head, rest := ExpandTok(toks[0], originals, |originals|), Expand(toks[1..], originals, |originals|);
      assert forall t :: t in rest ==> t in head + rest;
      OpenFreeParts(toks[1..], originals);
      assert !toks[0].Own? ==> (head + rest)[0] == toks[0];
      assert !toks[0].Own? ==> toks[0] in head + rest;
      assert toks == [toks[0]] + toks[1..];
    }
  }

  lemma {:induction false} OpenFreeExpand(toks: seq<Tok>, originals: seq<Text>)
    requires forall t :: t in toks ==> !t.Foreign? && (t.Ch? ==> t.c != OPEN)
    requires OwnBelow(toks, |originals|) && forall w :: w in originals ==> Bracketless(w)
    ensures OpenFree(Expand(toks, originals, |originals|))
  {
    if toks != [] {
      var head, rest := ExpandTok(toks[0], originals, |originals|), Expand(toks[1..], originals, |originals|);
      assert Expand(toks, originals, |originals|) == head + rest;
      OpenFreeTail(toks, originals);
      OpenFreeExpand(toks[1..], originals);
      OpenFreeHead(toks[0], originals);
      hide Expand, ExpandTok;
    }
  }

  lemma OpenFreeTail(toks: seq<Tok>, originals: seq<Text>)
    requires toks != [] && OwnBelow(toks, |originals|)
    ensures toks[0] in toks && OwnBelow(toks[1..], |originals|) && (toks[0].Own? ==> toks[0].k < |originals|)
    ensures forall t :: t in toks[1..] ==> t in toks
  {
  }

  lemma {:induction false} OpenFreeChars(w: Text)
    requires OPEN !in w
    ensures OpenFree(Chars(w))
  {
    if w != [] { OpenFreeChars(w[1..]); }
  }

  lemma OpenFreeHead(t: Tok, originals: seq<Text>)
    requires !t.Foreign? && (t.Ch? ==> t.c != OPEN) && (t.Own? ==> t.k < |originals|)
    requires forall w :: w in originals ==> Bracketless(w)
    ensures OpenFree(ExpandTok(t, originals, |originals|))
  {
    if t.Own? {
      assert originals[t.k] in originals;
      OpenFreeChars(originals[t.k]);
    }
  }

  lemma {:induction false} RenumberParts(toks: seq<Tok>, k: nat, n: nat)
    requires n > 0 && forall t :: t in toks && t.Ch? ==> t.c != OPEN
    ensures forall t :: t in Renumber(toks, k, n) ==> !t.Foreign? && (t.Ch? ==> t.c != OPEN)
    ensures OwnBelow(Renumber(toks, k, n), n)
  {
    if toks != [] {
      RenumberParts(toks[1..], if toks[0].Ch? then k else k + 1, n);
      assert toks[0] in toks;
    }
  }

  lemma {:induction false} EraseParts(toks: seq<Tok>)
    requires forall t :: t in toks && t.Ch? ==> t.c != OPEN
    ensures forall t :: t in Erase(toks) && t.Ch? ==> t.c != OPEN
  {
    if toks != [] {
      EraseParts(toks[1..]);
      assert toks[0] in toks;
    }
  }

  lemma UnmaskRenumbered(toks: seq<Tok>, originals: seq<Text>)
    requires (forall t :: t in toks && t.Ch? ==> t.c != OPEN) && (forall w :: w in originals ==> Bracketless(w))
    requires |Marks(toks)| == |originals| > 0
    ensures Unmask(Flat(Renumber(toks, 0, |originals|)), originals) == Refilled(toks, originals, 0)
  {
    var n := |originals|;
    var r := Renumber(toks, 0, n);
    RenumberParts(toks, 0, n);
    OpenFreeExpand(r, originals);
    OpenFreeIsClean(Expand(r, originals, n));
    ProperWithoutForeign(r, n);
    ExpandNone(r, originals);
    UnmaskFills(r, originals, 0);
    RenumberRefills(toks, originals, 0);
  }

  /** Around a provider that changes nothing, a text without opening brackets comes back with its
      masked words put back in the order they were masked in, whatever places they stood in. */
  lemma PipelineOutput(fold: CodeUnit -> CodeUnit, terms: seq<Text>, provider: Text -> Text, text: Text)
    requires FoldsLikeRegExp(fold) && SafeTerms(terms) && OPEN !in text
    requires provider(Mask(fold, terms, text).text) == Mask(fold, terms, text).text
    ensures var m := Mask(fold, terms, text); Through(fold, terms, provider, text) == Refilled(Tokenise(m.text), m.originals, 0)
  {
    hide Mask, Refilled;
    var r := MaskedList(fold, terms, text);
    var originals, n := r.originals, |r.originals|;
    OpenFreeText(text);
    OpenFreeParts(r.toks, originals);
    OpenFreeIsClean(Tokenise(text));
    CleanIfExpanded(r.toks, originals);
    FlatTokenise(r.toks);
    MarksErased(r.toks);
    NoMarks(Tokenise(text));
    MarksCounted(r.toks, n);
    EraseParts(r.toks);
    if n > 0 {
      UnmaskRenumbered(Erase(r.toks), originals);
    } else {
      NothingMasked(Erase(r.toks));
      FlatErase(r.toks);
    }
  }

  lemma {:induction false} NothingMasked(toks: seq<Tok>)
    requires Marks(toks) == []
    ensures Refilled(toks, [], 0) == Flat(toks)
  {
    if toks != [] { NothingMasked(toks[1..]); }
  }

  // ---- The loops ----

  lemma ScanAt(fold: CodeUnit -> CodeUnit, prev: bool, s: Text, p: nat, term: Text, i: nat)
    requires term != [] && p < |s|
    ensures MatchesAt(fold, prev, s[p..], term) ==> p + |term| <= |s|
    ensures var r := Scan(fold, prev, s[p..], term, i);
            if MatchesAt(fold, prev, s[p..], term) then
              var q := Scan(fold, IsWord(s[p + |term| - 1]), s[p + |term|..], term, i + 1);
              r == Masked(Numbered(i) + q.text, [s[p..p + |term|]] + q.originals)
            else
              r == After([s[p]], Scan(fold, IsWord(s[p]), s[p + 1..], term, i))
  {
    var t, n := s[p..], |term|;
    if MatchesAt(fold, prev, t, term) {
      assert t[n..] == s[p + n..] && t[..n] == s[p..p + n] && t[n - 1] == s[p + n - 1];
    } else {
      assert t[1..] == s[p + 1..];
    }
  }

  /** `maskCoinTerms` */
  method MaskCoinTerms(fold: CodeUnit -> CodeUnit, terms: seq<Text>, text: Text) returns (result: Text, originals: seq<Text>)
    ensures Masked(result, originals) == Mask(fold, terms, text)
  {
    result, originals := text, [];
    var i, t := 0, 0;
    while t < |terms|
      invariant t <= |terms| && i == |originals|
      invariant MaskFrom(fold, terms[t..], Masked(result, originals)) == Mask(fold, terms, text)
    {
      var term := terms[t];
      assert terms[t..][1..] == terms[t + 1..];
      if |term| >= 2 {
        var out, more := ReplaceTerm(fold, result, term, i);
        result, originals, i := out, originals + more, i + |more|;
      }
      t := t + 1;
    }
  }

  /** The replacement of one term, with the callback that counts and records the matches. */
  method ReplaceTerm(fold: CodeUnit -> CodeUnit, s: Text, term: Text, start: nat) returns (out: Text, originals: seq<Text>)
    requires term != []
    ensures Masked(out, originals) == Scan(fold, false, s, term, start)
  {
    hide Scan, Numbered, MatchesAt;
    out, originals := [], [];
    var p, prev, i := 0, false, start;
    ghost var whole := Scan(fold, false, s, term, start);
    assert s[0..] == s;
    while p < |s|
      invariant p <= |s|
      invariant var r := Scan(fold, prev, s[p..], term, i);
                out + r.text == whole.text && originals + r.originals == whole.originals
      decreases |s| - p
    {
      ScanAt(fold, prev, s, p, term, i);
      if MatchesAt(fold, prev, s[p..], term) {
        out, originals := out + Numbered(i), originals + [s[p..p + |term|]];
        p, prev, i := p + |term|, IsWord(s[p + |term| - 1]), i + 1;
      } else {
        out := out + [s[p]];
        p, prev := p + 1, IsWord(s[p]);
      }
    }
    ScanEnd(fold, prev, s, term, i);
  }

  lemma ScanEnd(fold: CodeUnit -> CodeUnit, prev: bool, s: Text, term: Text, i: nat)
    requires term != []
    ensures Scan(fold, prev, s[|s|..], term, i) == Masked([], [])
  {
  }

  /** `unmaskCoinTerms` */
  method UnmaskCoinTerms(masked: Text, originals: seq<Text>) returns (out: Text)
    ensures out == Unmask(masked, originals)
  {
    out := masked;
    for idx := 0 to |originals|
      invariant UnmaskFrom(out, originals, idx) == Unmask(masked, originals)
    {
      out := ReplaceAll(out, Numbered(idx), originals[idx]);
    }
  }

  lemma RealignStep(toks: seq<Tok>, p: nat, k: nat, n: nat)
    requires p < |toks| && n > 0
    ensures var t := toks[p];
            Flat(Renumber(toks[p..], k, n)) ==
            if t.Ch? then [t.c] + Flat(Renumber(toks[p + 1..], k, n))
            else if k < n then Numbered(k) + Flat(Renumber(toks[p + 1..], k + 1, n))
            else Numbered(n - 1) + Flat(Renumber(toks[p + 1..], k, n))
  {
    var t, rest := toks[p], toks[p + 1..];
    assert toks[p..][1..] == rest;
    if t.Ch? {
      FlatCons(t, Renumber(rest, k, n));
    } else {
      if k >= n { RenumberPast(rest, k, n); }
      FlatCons(Own(if k < n then k else n - 1), Renumber(rest, k + 1, n));
    }
  }

  /** `realignProviderPlaceholders`: the callback hands out 0, 1, ... and then n - 1 again and again. */
  method RealignProviderPlaceholders(maskedInput: Text, providerOut: Text) returns (out: Text)
    ensures out == Realign(maskedInput, providerOut)
  {
    var n := |Marks(Tokenise(maskedInput))|;
    if n == 0 { return providerOut; }
    var toks := Tokenise(providerOut);
    out := [];
    var k, p := 0, 0;
    ghost var whole := Flat(Renumber(toks, 0, n));
    assert toks[0..] == toks;
    while p < |toks|
      invariant p <= |toks| && out + Flat(Renumber(toks[p..], k, n)) == whole
    {
      hide Flat, Renumber, Tokenise, Marks, Numbered;
      RealignStep(toks, p, k, n);
      ghost var before := out;
      var piece;
      if toks[p].Ch? {
        piece := [toks[p].c];
      } else if k < n {
        piece, k := Numbered(k), k + 1;
      } else {
        piece := Numbered(n - 1);
      }
      out := out + piece;
      p := p + 1;
      Assoc(before, piece, Flat(Renumber(toks[p..], k, n)));
    }
  }

  /** Past the last number the counter no longer matters. */
  lemma {:induction false} RenumberPast(toks: seq<Tok>, k: nat, n: nat)
    requires 0 < n <= k
    ensures Renumber(toks, k, n) == Renumber(toks, k + 1, n)
  {
    if toks != [] {
      RenumberPast(toks[1..], k, n);
      RenumberPast(toks[1..], k + 1, n);
    }
  }
}
