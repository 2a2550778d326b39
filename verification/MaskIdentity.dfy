/** When the masking pipeline gives a text back: for masked words of one length the order of the
    placeholders decides it exactly. */
module MaskIdentity {
  import opened Utf16
  import opened Placeholder
  import opened Masking
  import opened MaskTokens
  import opened MaskRoundTrip
  import opened MaskLaws
  import opened MaskPipeline

  predicate OneLength(words: seq<Text>) {
    forall i, j :: 0 <= i < |words| && 0 <= j < |words| ==> |words[i]| == |words[j]|
  }

  lemma InPlaceSplits(q: nat, tail: seq<Text>, originals: seq<Text>, k: nat)
    requires k < |originals| && q < |originals|
    ensures InPlace([Decimal(q)] + tail, originals, k) <==> originals[k] == originals[q] && InPlace(tail, originals, k + 1)
  {
    var marks := [Decimal(q)] + tail;
    if InPlace(marks, originals, k) {
      InPlaceTail(Decimal(q), tail, originals, k);
      assert marks[0] == Decimal(q) && originals[k + 0] == originals[q];
    } else if originals[k] == originals[q] && InPlace(tail, originals, k + 1) {
      forall j: nat, p: nat | j < |marks| && k + j < |originals| && p < |originals| && marks[j] == Decimal(p)
        ensures originals[k + j] == originals[p]
      {
        if j == 0 {
          DecimalInjective(p, q);
        } else {
          assert tail[j - 1] == Decimal(p) && originals[k + 1 + (j - 1)] == originals[p];
        }
      }
    }
  }

  lemma NothingRefilled(originals: seq<Text>, k: nat)
    ensures Refilled(Erase([]), originals, k) == Flat(Expand([], originals, |originals|))
    ensures InPlace(Marks([]), originals, k)
  {
  }

  /** Texts put together from parts of one length are equal exactly when the parts are. */
  lemma JoinedIff(a: Text, b: Text, v: Text, w: Text, s: Text, t: Text, whole: bool, rest: bool)
    requires a == v + s && b == w + t && |v| == |w|
    requires (s == t <==> rest) && (whole <==> v == w && rest)
    ensures a == b <==> whole
  {
    assert v == a[..|v|] && w == b[..|w|];
    assert s == a[|v|..] && t == b[|w|..];
  }

  /** What a list spells in masking order, in place, and its placeholders, by its first element. */
  lemma CharFirst(toks: seq<Tok>, originals: seq<Text>, k: nat)
    requires toks != [] && toks[0].Ch?
    ensures Marks(toks) == Marks(toks[1..])
    ensures Refilled(Erase(toks), originals, k) == [toks[0].c] + Refilled(Erase(toks[1..]), originals, k)
    ensures Flat(Expand(toks, originals, |originals|)) == [toks[0].c] + Flat(Expand(toks[1..], originals, |originals|))
  {
    var t, rest := toks[0], toks[1..];
    assert Erase(toks)[1..] == Erase(rest) && Erase(toks)[0] == t;
    hide Erase, Flat;
    FlatCons(t, Expand(rest, originals, |originals|));
  }

  lemma WordFirst(toks: seq<Tok>, originals: seq<Text>, k: nat)
    requires toks != [] && toks[0].Own? && toks[0].k < |originals| && k < |originals|
    ensures Marks(toks) == [Decimal(toks[0].k)] + Marks(toks[1..])
    ensures Refilled(Erase(toks), originals, k) == originals[k] + Refilled(Erase(toks[1..]), originals, k + 1)
    ensures Flat(Expand(toks, originals, |originals|))
            == originals[toks[0].k] + Flat(Expand(toks[1..], originals, |originals|))
  {
    var t, rest := toks[0], toks[1..];
    assert Erase(toks)[1..] == Erase(rest) && Erase(toks)[0] == Foreign(Decimal(t.k));
    hide Erase, Flat;
    FlatChars(originals[t.k], Expand(rest, originals, |originals|));
  }

  lemma RestBelow(toks: seq<Tok>, n: nat)
    requires toks != [] && (forall t :: t in toks ==> !t.Foreign?) && OwnBelow(toks, n)
    ensures !toks[0].Foreign? && (toks[0].Own? ==> toks[0].k < n)
    ensures (forall t :: t in toks[1..] ==> !t.Foreign?) && OwnBelow(toks[1..], n)
    ensures toks[0].Own? ==> |Marks(toks)| == 1 + |Marks(toks[1..])|
  {
    assert toks[0] in toks;
  }

  lemma SameLength(words: seq<Text>, i: nat, j: nat)
    requires OneLength(words) && i < |words| && j < |words|
    ensures |words[i]| == |words[j]|
  {
  }

  /** With words of one length the words in masking order spell what the words in place spell exactly
      when each is the right one. */
  lemma {:induction false} RefilledIff(toks: seq<Tok>, originals: seq<Text>, k: nat)
    requires (forall t :: t in toks ==> !t.Foreign?) && OwnBelow(toks, |originals|) && OneLength(originals)
    requires k + |Marks(toks)| <= |originals|
    ensures Refilled(Erase(toks), originals, k) == Flat(Expand(toks, originals, |originals|))
            <==> InPlace(Marks(toks), originals, k)
  {
    hide *;
    if toks == [] {
      NothingRefilled(originals, k);
    } else {
      RestBelow(toks, |originals|);
      var t, rest := toks[0], toks[1..];
      var put := Flat(Expand(rest, originals, |originals|));
      var all, out, marks := Flat(Expand(toks, originals, |originals|)), Refilled(Erase(toks), originals, k), Marks(toks);
      if t.Ch? {
        CharFirst(toks, originals, k);
        RefilledIff(rest, originals, k);
        JoinedIff(out, all, [t.c], [t.c], Refilled(Erase(rest), originals, k), put,
                  InPlace(marks, originals, k), InPlace(Marks(rest), originals, k));
      } else {
        WordFirst(toks, originals, k);
        SameLength(originals, k, t.k);
        RefilledIff(rest, originals, k + 1);
        InPlaceSplits(t.k, Marks(rest), originals, k);
        JoinedIff(out, all, originals[k], originals[t.k], Refilled(Erase(rest), originals, k + 1), put,
                  InPlace(marks, originals, k), InPlace(Marks(rest), originals, k + 1));
      }
    }
  }

  /** Around a provider that changes nothing, a text without opening brackets whose masked words all have
      one length comes back if and only if each placeholder stands for the word its place is given. */
  lemma PipelineIdentityIff(fold: CodeUnit -> CodeUnit, terms: seq<Text>, provider: Text -> Text, text: Text)
    requires FoldsLikeRegExp(fold) && SafeTerms(terms) && OPEN !in text
    requires provider(Mask(fold, terms, text).text) == Mask(fold, terms, text).text
    requires OneLength(Mask(fold, terms, text).originals)
    ensures Through(fold, terms, provider, text) == text <==>
            InPlace(Marks(Tokenise(Mask(fold, terms, text).text)), Mask(fold, terms, text).originals, 0)
  {
    hide Mask, Refilled;
    PipelineOutput(fold, terms, provider, text);
    hide Through;
    var r := MaskedList(fold, terms, text);
    var originals, n := r.originals, |r.originals|;
    OpenFreeText(text);
    OpenFreeParts(r.toks, originals);
    OpenFreeIsClean(Tokenise(text));
    CleanIfExpanded(r.toks, originals);
    FlatTokenise(r.toks);
    MarksErased(r.toks);
    NoMarks(Tokenise(text));
    MarksCounted(r.toks, n);
    TokeniseFlat(text);
    RefilledIff(r.toks, originals, 0);
  }
}
