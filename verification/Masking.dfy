/** Coin terms replaced by placeholders before machine translation and put back afterwards. */
module Masking {
  import opened Utf16
  import opened Placeholder

  /** `\w` of a regular expression. */
  predicate IsWord(c: CodeUnit) {
    IsDigit(c) || 65 <= c <= 90 || c == 95 || 97 <= c <= 122
  }

  function AsciiUpper(c: CodeUnit): CodeUnit {
    if 97 <= c <= 122 then c - 32 else c
  }

  /** Case folding of the `i` flag: a letter of ASCII folds to upper case, and nothing outside ASCII
      folds into ASCII. */
  ghost predicate FoldsLikeRegExp(fold: CodeUnit -> CodeUnit) {
    && (forall c: CodeUnit :: c < 128 ==> fold(c) == AsciiUpper(c))
    && (forall c: CodeUnit :: c >= 128 ==> fold(c) >= 128)
  }

  /** `\bterm\b` matches at the start of `s`, where `prev` says whether a word character precedes it. */
  predicate MatchesAt(fold: CodeUnit -> CodeUnit, prev: bool, s: Text, term: Text) {
    var n := |term|;
    && 0 < n <= |s|
    && prev != IsWord(s[0])
    && IsWord(s[n - 1]) != (n < |s| && IsWord(s[n]))
    && forall k :: 0 <= k < n ==> fold(s[k]) == fold(term[k])
  }

  datatype Masked = Masked(text: Text, originals: seq<Text>)

  function After(prefix: Text, m: Masked): Masked {
    Masked(prefix + m.text, m.originals)
  }

  /** `result.replace(re, ...)`: matches left to right, the first replaced by placeholder number `i`. */
  function Scan(fold: CodeUnit -> CodeUnit, prev: bool, s: Text, term: Text, i: nat): Masked
    requires term != []
    decreases |s|
  {
    if s == [] then Masked([], [])
    else if MatchesAt(fold, prev, s, term) then
      var r := Scan(fold, IsWord(s[|term| - 1]), s[|term|..], term, i + 1);
      Masked(Numbered(i) + r.text, [s[..|term|]] + r.originals)
    else After([s[0]], Scan(fold, IsWord(s[0]), s[1..], term, i))
  }

  function MaskFrom(fold: CodeUnit -> CodeUnit, terms: seq<Text>, m: Masked): Masked {
    if terms == [] then m
    else if |terms[0]| < 2 then MaskFrom(fold, terms[1..], m)
    else
      var r := Scan(fold, false, m.text, terms[0], |m.originals|);
      MaskFrom(fold, terms[1..], Masked(r.text, m.originals + r.originals))
  }

  function Mask(fold: CodeUnit -> CodeUnit, terms: seq<Text>, text: Text): Masked {
    MaskFrom(fold, terms, Masked(text, []))
  }

  /** `s.split(pattern).join(filler)` */
  function ReplaceAll(s: Text, pattern: Text, filler: Text): Text
    requires pattern != []
  {
    if s == [] then []
    else if pattern <= s then filler + ReplaceAll(s[|pattern|..], pattern, filler)
    else [s[0]] + ReplaceAll(s[1..], pattern, filler)
  }

  function UnmaskFrom(s: Text, originals: seq<Text>, idx: nat): Text
    requires idx <= |originals|
    decreases |originals| - idx
  {
    if idx == |originals| then s
    else UnmaskFrom(ReplaceAll(s, Numbered(idx), originals[idx]), originals, idx + 1)
  }

  function Unmask(masked: Text, originals: seq<Text>): Text {
    UnmaskFrom(masked, originals, 0)
  }

  predicate Bracketless(w: Text) {
    OPEN !in w && CLOSE !in w
  }

  predicate IsCDigits(term: Text) {
    |term| >= 2 && AsciiUpper(term[0]) == LETTER_C && AllDigits(term[1..])
  }

  /** A term that cannot match inside a placeholder or across its edge. */
  predicate SafeTerm(term: Text) {
    Bracketless(term) && !IsCDigits(term)
  }

  predicate SafeTerms(terms: seq<Text>) {
    forall i :: 0 <= i < |terms| ==> SafeTerm(terms[i])
  }

  lemma FoldExact(fold: CodeUnit -> CodeUnit, c: CodeUnit, t: CodeUnit)
    requires FoldsLikeRegExp(fold) && fold(c) == fold(t)
    ensures (c == OPEN <==> t == OPEN) && (c == CLOSE <==> t == CLOSE)
    ensures IsDigit(c) ==> t == c
    ensures c == LETTER_C ==> AsciiUpper(t) == LETTER_C
  {
    assert fold(c) == AsciiUpper(c) || c >= 128;
    assert fold(t) == AsciiUpper(t) || t >= 128;
  }

  lemma MatchBracketless(fold: CodeUnit -> CodeUnit, prev: bool, s: Text, term: Text)
    requires FoldsLikeRegExp(fold) && Bracketless(term) && MatchesAt(fold, prev, s, term)
    ensures forall k :: 0 <= k < |term| ==> s[k] != OPEN && s[k] != CLOSE
    ensures Bracketless(s[..|term|])
  {
    forall k | 0 <= k < |term| ensures s[k] != OPEN && s[k] != CLOSE {
      FoldExact(fold, s[k], term[k]);
      assert term[k] in term;
    }
  }

  lemma NoMatchAtBracket(fold: CodeUnit -> CodeUnit, prev: bool, s: Text, term: Text)
    requires FoldsLikeRegExp(fold) && Bracketless(term)
    requires s != [] && (s[0] == OPEN || s[0] == CLOSE)
    ensures !MatchesAt(fold, prev, s, term)
  {
    if MatchesAt(fold, prev, s, term) {
      MatchBracketless(fold, prev, s, term);
    }
  }

  /** A match at the letter of a placeholder is the letter and all digits. */
  lemma MatchAtLetter(fold: CodeUnit -> CodeUnit, d: Text, rest: Text, term: Text)
    requires FoldsLikeRegExp(fold) && Bracketless(term) && AllDigits(d) && d != []
    requires MatchesAt(fold, false, [LETTER_C] + (d + ([CLOSE] + rest)), term)
    ensures IsCDigits(term)
  {
    var s := [LETTER_C] + (d + ([CLOSE] + rest));
    MatchBracketless(fold, false, s, term);
    assert s[|d| + 1] == CLOSE;
    assert forall k :: 0 < k <= |d| ==> s[k] == d[k - 1];
    assert |term| == |d| + 1;
    FoldExact(fold, s[0], term[0]);
    forall k | 0 < k < |term| ensures IsDigit(term[k]) {
      FoldExact(fold, s[k], term[k]);
    }
  }

  lemma NoMatchAtLetter(fold: CodeUnit -> CodeUnit, d: Text, rest: Text, term: Text)
    requires FoldsLikeRegExp(fold) && SafeTerm(term) && AllDigits(d) && d != []
    ensures !MatchesAt(fold, false, [LETTER_C] + (d + ([CLOSE] + rest)), term)
  {
    if MatchesAt(fold, false, [LETTER_C] + (d + ([CLOSE] + rest)), term) {
      MatchAtLetter(fold, d, rest, term);
    }
  }

  lemma StepOver(fold: CodeUnit -> CodeUnit, prev: bool, c: CodeUnit, rest: Text, term: Text, i: nat)
    requires term != [] && !MatchesAt(fold, prev, [c] + rest, term)
    ensures Scan(fold, prev, [c] + rest, term, i) == After([c], Scan(fold, IsWord(c), rest, term, i))
  {
    assert ([c] + rest)[1..] == rest;
  }

  /** Inside a word no match can start. */
  lemma {:induction false} StepOverDigits(fold: CodeUnit -> CodeUnit, d: Text, rest: Text, term: Text, i: nat)
    requires term != [] && AllDigits(d)
    ensures Scan(fold, true, d + rest, term, i) == After(d, Scan(fold, true, rest, term, i))
  {
    if d == [] {
      assert d + rest == rest;
      assert forall t: Text :: [] + t == t;
    } else {
      assert d + rest == [d[0]] + (d[1..] + rest);
      StepOver(fold, true, d[0], d[1..] + rest, term, i);
      StepOverDigits(fold, d[1..], rest, term, i);
      AfterTwice([d[0]], d[1..], Scan(fold, true, rest, term, i));
      assert [d[0]] + d[1..] == d;
    }
  }

  lemma AfterTwice(a: Text, b: Text, m: Masked)
    ensures After(a, After(b, m)) == After(a + b, m)
  {
    assert a + (b + m.text) == a + b + m.text;
  }

  /** Scanning passes over a placeholder unchanged. */
  lemma StepOverMark(fold: CodeUnit -> CodeUnit, prev: bool, d: Text, rest: Text, term: Text, i: nat)
    requires FoldsLikeRegExp(fold) && SafeTerm(term) && term != [] && AllDigits(d) && d != []
    ensures Scan(fold, prev, Mark(d) + rest, term, i) == After(Mark(d), Scan(fold, false, rest, term, i))
  {
    var s5 := [CLOSE] + rest;
    var s4 := [CLOSE] + s5;
    var s2 := [LETTER_C] + (d + s4);
    var s1 := [OPEN] + s2;
    assert Mark(d) + rest == [OPEN] + s1;
    NoMatchAtBracket(fold, prev, [OPEN] + s1, term);
    StepOver(fold, prev, OPEN, s1, term, i);
    NoMatchAtBracket(fold, false, s1, term);
    StepOver(fold, false, OPEN, s2, term, i);
    NoMatchAtLetter(fold, d, s5, term);
    StepOver(fold, false, LETTER_C, d + s4, term, i);
    StepOverDigits(fold, d, s4, term, i);
    NoMatchAtBracket(fold, true, s4, term);
    StepOver(fold, true, CLOSE, s5, term, i);
    NoMatchAtBracket(fold, false, s5, term);
    StepOver(fold, false, CLOSE, rest, term, i);
    JoinMark(d, Scan(fold, false, rest, term, i));
  }

  lemma JoinMark(d: Text, m: Masked)
    ensures After([OPEN], After([OPEN], After([LETTER_C], After(d, After([CLOSE], After([CLOSE], m)))))) == After(Mark(d), m)
  {
    AfterTwice([CLOSE], [CLOSE], m);
    AfterTwice(d, [CLOSE, CLOSE], m);
    AfterTwice([LETTER_C], d + [CLOSE, CLOSE], m);
    AfterTwice([OPEN], [LETTER_C] + (d + [CLOSE, CLOSE]), m);
    AfterTwice([OPEN], [OPEN] + ([LETTER_C] + (d + [CLOSE, CLOSE])), m);
    assert [OPEN] + ([OPEN] + ([LETTER_C] + (d + [CLOSE, CLOSE]))) == Mark(d);
  }

  // ---- Nothing that should be masked is left ----

  /** A letter, a digit or an underscore stands at `k`; before the text, `prev` tells. */
  predicate WordAt(prev: bool, s: Text, k: int) {
    if k < 0 then prev
    else if k >= |s| then false
    else 0x30 <= s[k] <= 0x39 || 0x41 <= s[k] <= 0x5A || s[k] == 0x5F || 0x61 <= s[k] <= 0x7A
  }

  /** The term stands at `k` up to case, with a word edge on either side. */
  predicate OccursAt(fold: CodeUnit -> CodeUnit, prev: bool, s: Text, k: nat, term: Text) {
    && k + |term| <= |s|
    && (forall j :: 0 <= j < |term| ==> fold(s[k + j]) == fold(term[j]))
    && WordAt(prev, s, k - 1) != WordAt(prev, s, k)
    && WordAt(prev, s, k + |term| - 1) != WordAt(prev, s, k + |term|)
  }

  lemma MatchIsOccurrence(fold: CodeUnit -> CodeUnit, prev: bool, s: Text, term: Text)
    requires term != []
    ensures MatchesAt(fold, prev, s, term) <==> OccursAt(fold, prev, s, 0, term)
  {
    if OccursAt(fold, prev, s, 0, term) {
      assert forall j :: 0 <= j < |term| ==> fold(s[0 + j]) == fold(term[j]);
    }
  }

  lemma OccursLater(fold: CodeUnit -> CodeUnit, prev: bool, s: Text, k: nat, term: Text)
    requires s != []
    ensures OccursAt(fold, prev, s, k + 1, term) <==> OccursAt(fold, WordAt(prev, s, 0), s[1..], k, term)
  {
    if OccursAt(fold, prev, s, k + 1, term) {
      forall j | 0 <= j < |term| ensures fold(s[1..][k + j]) == fold(term[j]) {
        assert s[1..][k + j] == s[k + 1 + j];
      }
    }
    if OccursAt(fold, WordAt(prev, s, 0), s[1..], k, term) {
      forall j | 0 <= j < |term| ensures fold(s[k + 1 + j]) == fold(term[j]) {
        assert s[1..][k + j] == s[k + 1 + j];
      }
    }
  }

  /** A term that does not occur at the front occurs in the text exactly when it occurs in the rest. */
  lemma NotAtFront(fold: CodeUnit -> CodeUnit, prev: bool, s: Text, term: Text)
    requires s != [] && !OccursAt(fold, prev, s, 0, term)
    ensures (exists k: nat :: OccursAt(fold, prev, s, k, term)) <==>
            exists k: nat :: OccursAt(fold, IsWord(s[0]), s[1..], k, term)
  {
    assert WordAt(prev, s, 0) == IsWord(s[0]);
    forall k: nat ensures OccursAt(fold, prev, s, k + 1, term) <==> OccursAt(fold, IsWord(s[0]), s[1..], k, term) {
      OccursLater(fold, prev, s, k, term);
    }
    if k: nat :| OccursAt(fold, prev, s, k, term) {
      OccursLater(fold, prev, s, k - 1, term);
      assert OccursAt(fold, IsWord(s[0]), s[1..], k - 1, term);
    }
    if k: nat :| OccursAt(fold, IsWord(s[0]), s[1..], k, term) {
      assert OccursAt(fold, prev, s, k + 1, term);
    }
  }

  /** A scan replaces something exactly when the term occurs, and what it takes out are spellings of it. */
  lemma {:induction false} ScanFindsIff(fold: CodeUnit -> CodeUnit, prev: bool, s: Text, term: Text, i: nat)
    requires term != []
    ensures Scan(fold, prev, s, term, i).originals != [] <==> exists k: nat :: OccursAt(fold, prev, s, k, term)
    ensures Scan(fold, prev, s, term, i).originals == [] ==> Scan(fold, prev, s, term, i).text == s
    ensures forall w :: w in Scan(fold, prev, s, term, i).originals ==>
              |w| == |term| && forall j :: 0 <= j < |term| ==> fold(w[j]) == fold(term[j])
    decreases |s|
  {
    if s != [] {
      MatchIsOccurrence(fold, prev, s, term);
      if MatchesAt(fold, prev, s, term) {
        ScanFindsIff(fold, IsWord(s[|term| - 1]), s[|term|..], term, i + 1);
      } else {
        ScanFindsIff(fold, IsWord(s[0]), s[1..], term, i);
        NotAtFront(fold, prev, s, term);
        hide MatchesAt, OccursAt, WordAt;
        assert s == [s[0]] + s[1..];
      }
    }
  }

  /** Within ASCII only the two cases of a letter fold alike. */
  lemma FoldsCaseOnly(fold: CodeUnit -> CodeUnit, c: CodeUnit, d: CodeUnit)
    requires FoldsLikeRegExp(fold) && c < 128 && d < 128
    ensures fold(c) == fold(d) <==>
            c == d || (0x41 <= c <= 0x5A && d == c + 0x20) || (0x41 <= d <= 0x5A && c == d + 0x20)
  {
  }
}
