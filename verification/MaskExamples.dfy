/** Inputs on which the masking pipeline does not return the text. */
module MaskExamples {
  import opened Basics
  import opened Utf16
  import opened Placeholder
  import opened Masking
  import opened MaskTokens
  import opened MaskRoundTrip
  import opened MaskLaws
  import opened MaskPipeline

  const ABC: Text := [97, 98, 99]
  const DE: Text := [100, 101]
  const C0: Text := [LETTER_C, 48]

  lemma StepMatch(fold: CodeUnit -> CodeUnit, prev: bool, w: Text, rest: Text, i: nat)
    requires w != [] && MatchesAt(fold, prev, w + rest, w)
    ensures var r := Scan(fold, IsWord(w[|w| - 1]), rest, w, i + 1);
            Scan(fold, prev, w + rest, w, i) == Masked(Numbered(i) + r.text, [w] + r.originals)
  {
    assert (w + rest)[..|w|] == w && (w + rest)[|w|..] == rest;
  }

  lemma ScanWhole(fold: CodeUnit -> CodeUnit, w: Text, i: nat)
    requires w != [] && MatchesAt(fold, false, w, w)
    ensures Scan(fold, false, w, w, i) == Masked(Numbered(i), [w])
  {
    assert w + [] == w;
    StepMatch(fold, false, w, [], i);
    assert Numbered(i) + [] == Numbered(i) && [w] + [] == [w];
  }

  /** Terms "abc" and "de" on "de abc": the second word is masked first. */
  lemma MaskedOutOfOrder()
    ensures Mask(AsciiUpper, [ABC, DE], DE + [32] + ABC) == Masked(Numbered(1) + ([32] + Numbered(0)), [ABC, DE])
  {
    FirstTermMasked();
    SecondTermMasked();
    MaskTwoTerms(AsciiUpper, ABC, DE, DE + [32] + ABC);
  }

  lemma FirstTermMasked()
    ensures Scan(AsciiUpper, false, DE + [32] + ABC, ABC, 0) == Masked(DE + ([32] + Numbered(0)), [ABC])
  {
    var f := AsciiUpper;
    assert DE + [32] + ABC == [100] + ([101] + ([32] + ABC));
    ScanWhole(f, ABC, 0);
    StepOver(f, true, 32, ABC, ABC, 0);
    StepOver(f, true, 101, [32] + ABC, ABC, 0);
    StepOver(f, false, 100, [101] + ([32] + ABC), ABC, 0);
    assert [100] + ([101] + ([32] + Numbered(0))) == DE + ([32] + Numbered(0));
  }

  lemma SecondTermMasked()
    ensures Scan(AsciiUpper, false, DE + ([32] + Numbered(0)), DE, 1) == Masked(Numbered(1) + ([32] + Numbered(0)), [DE])
  {
    var f := AsciiUpper;
    assert Numbered(0) + [] == Numbered(0);
    StepOverMark(f, false, Decimal(0), [], DE, 2);
    StepOver(f, true, 32, Numbered(0), DE, 2);
    StepMatch(f, false, DE, [32] + Numbered(0), 1);
  }

  lemma MaskTwoTerms(fold: CodeUnit -> CodeUnit, a: Text, b: Text, text: Text)
    requires |a| >= 2 && |b| >= 2
    ensures var first := Scan(fold, false, text, a, 0);
            var second := Scan(fold, false, first.text, b, |first.originals|);
            Mask(fold, [a, b], text) == Masked(second.text, first.originals + second.originals)
  {
    var first := Scan(fold, false, text, a, 0);
    assert [a, b][1..] == [b] && [b][1..] == [];
    assert [] + first.originals == first.originals;
    assert MaskFrom(fold, [b], Masked(first.text, first.originals)) == Mask(fold, [a, b], text);
  }

  lemma RefillCons(t: Tok, toks: seq<Tok>, originals: seq<Text>, k: nat)
    ensures Refilled([t] + toks, originals, k) ==
            if t.Ch? then [t.c] + Refilled(toks, originals, k)
            else (if k < |originals| then originals[k] else TokText(t)) + Refilled(toks, originals, k + 1)
  {
    assert ([t] + toks)[1..] == toks;
  }

  lemma TokeniseMark(k: nat, rest: Text)
    ensures Tokenise(Numbered(k) + rest) == [Foreign(Decimal(k))] + Tokenise(rest)
  {
    DecimalDigits(k);
    MarkComplete(Decimal(k), rest);
    assert (Numbered(k) + rest)[|Decimal(k)| + 5..] == rest;
  }

  /** The pipeline then swaps the words, although the provider changes nothing. */
  lemma OrderMatters()
    ensures Through(AsciiUpper, [ABC, DE], t => t, DE + [32] + ABC) == ABC + [32] + DE
  {
    hide Mask, Through;
    var originals := [ABC, DE];
    MaskedOutOfOrder();
    PipelineOutput(AsciiUpper, originals, t => t, DE + [32] + ABC);
    var last: seq<Tok> := [Foreign(Decimal(0))] + [];
    var middle := [Ch(32)] + last;
    var tail := [32] + Numbered(0);
    assert tail[1..] == Numbered(0) + [];
    TokeniseMark(0, []);
    assert Tokenise(tail) == middle;
    TokeniseMark(1, tail);
    RefillCons(Foreign(Decimal(1)), middle, originals, 0);
    RefillCons(Ch(32), last, originals, 1);
    RefillCons(Foreign(Decimal(0)), [], originals, 1);
    assert ABC + ([32] + (DE + [])) == ABC + [32] + DE;
  }

  /** The text of "abc" masked and then "C0" found inside its placeholder. */
  function Nested(inner: Text): Text {
    [OPEN] + ([OPEN] + (inner + ([CLOSE] + ([CLOSE] + []))))
  }

  lemma NestedMasked()
    ensures Mask(AsciiUpper, [ABC, C0], ABC) == Masked(Nested(Numbered(1)), [ABC, C0])
  {
    var f := AsciiUpper;
    ScanWhole(f, ABC, 0);
    var close := [CLOSE] + ([CLOSE] + []);
    StepOver(f, false, CLOSE, [], C0, 2);
    StepOver(f, true, CLOSE, [CLOSE], C0, 2);
    StepMatch(f, false, C0, close, 1);
    StepOver(f, false, OPEN, C0 + close, C0, 1);
    StepOver(f, false, OPEN, [OPEN] + (C0 + close), C0, 1);
    assert Numbered(0) == Nested(C0);
    MaskTwoTerms(f, ABC, C0, ABC);
  }

  lemma UnmaskTwo(masked: Text, a: Text, b: Text)
    ensures Unmask(masked, [a, b]) == ReplaceAll(ReplaceAll(masked, Numbered(0), a), Numbered(1), b)
  {
    var first := ReplaceAll(masked, Numbered(0), a);
    assert UnmaskFrom(ReplaceAll(first, Numbered(1), b), [a, b], 2) == ReplaceAll(first, Numbered(1), b);
    assert UnmaskFrom(first, [a, b], 1) == ReplaceAll(first, Numbered(1), b);
  }

  /** A term "C0" is found inside the placeholder of "abc", and unmasking gives "[[C0]]", not "abc". */
  lemma PlaceholderLikeTerm()
    ensures var m := Mask(AsciiUpper, [ABC, C0], ABC);
            m.originals == [ABC, C0] && Unmask(m.text, m.originals) == Numbered(0) != ABC
  {
    hide Mask, Unmask, ReplaceAll;
    NestedMasked();
    UnmaskTwo(Nested(Numbered(1)), ABC, C0);
    ReplaceNested(0, ABC);
    ReplaceNested(1, C0);
    assert Nested(C0) == Numbered(0);
  }

  lemma ReplaceClose(k: nat, filler: Text)
    ensures ReplaceAll([CLOSE] + ([CLOSE] + []), Numbered(k), filler) == [CLOSE] + ([CLOSE] + [])
  {
    ReplaceSkipsOther(CLOSE, [], Numbered(k), filler);
    ReplaceSkipsOther(CLOSE, [CLOSE], Numbered(k), filler);
  }

  lemma ReplaceNested(k: nat, filler: Text)
    ensures ReplaceAll(Nested(Numbered(1)), Numbered(k), filler) == Nested(if k == 1 then filler else Numbered(1))
  {
    var close := [CLOSE] + ([CLOSE] + []);
    var p, inner := Numbered(k), Numbered(1) + close;
    assert p[2] == LETTER_C;
    ReplaceSkips(OPEN, [OPEN] + inner, p, filler) by { assert ([OPEN] + ([OPEN] + inner))[2] == OPEN; }
    ReplaceSkips(OPEN, inner, p, filler) by { assert ([OPEN] + inner)[2] == OPEN; }
    ReplaceClose(k, filler);
    if k == 1 {
      assert inner[|p|..] == close;
    } else {
      DecimalDigits(k);
      if Decimal(1) == Decimal(k) { DecimalInjective(1, k); }
      ReplaceSkipsMark(Decimal(1), close, Decimal(k), filler);
    }
  }

}
