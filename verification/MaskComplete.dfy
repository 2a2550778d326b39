/** What masking leaves: no safe term of two or more characters occurs any more, up to case and between
    word edges. */
module MaskComplete {
  import opened Utf16
  import opened Placeholder
  import opened Masking

  ghost predicate Occurs(fold: CodeUnit -> CodeUnit, prev: bool, s: Text, term: Text) {
    exists k: nat :: OccursAt(fold, prev, s, k, term)
  }

  /** Up to its first placeholder a scanned text is the text before, and that placeholder starts at a
      word edge of it. */
  predicate CutAt(prev: bool, s: Text, out: Text, m: nat) {
    && m <= |s| && m <= |out| && out[..m] == s[..m]
    && (m == |s| ==> out == s)
    && (m < |s| ==> m < |out| && out[m] == OPEN && WordAt(prev, s, m - 1) != WordAt(prev, s, m))
  }

  lemma {:induction false} ScanCut(fold: CodeUnit -> CodeUnit, prev: bool, s: Text, u: Text, i: nat) returns (m: nat)
    requires u != []
    ensures CutAt(prev, s, Scan(fold, prev, s, u, i).text, m)
    decreases |s|
  {
    if s == [] {
      m := 0;
    } else if MatchesAt(fold, prev, s, u) {
      m := 0;
      assert Numbered(i)[0] == OPEN;
    } else {
      var rest := Scan(fold, IsWord(s[0]), s[1..], u, i).text;
      var n := ScanCut(fold, IsWord(s[0]), s[1..], u, i);
      m := n + 1;
      CutLater(prev, s, rest, n);
    }
  }

  lemma CutLater(prev: bool, s: Text, rest: Text, n: nat)
    requires s != [] && CutAt(IsWord(s[0]), s[1..], rest, n)
    ensures CutAt(prev, s, [s[0]] + rest, n + 1)
  {
    var out := [s[0]] + rest;
    assert out[..n + 1] == [s[0]] + rest[..n];
    assert s[..n + 1] == [s[0]] + s[1..][..n];
    assert s == [s[0]] + s[1..];
    assert n < |s| - 1 ==> out[n + 1] == rest[n] && s[1..][n] == s[n + 1];
    assert n > 0 ==> s[1..][n - 1] == s[n];
  }

  /** Where a term without brackets occurs at the front of the scanned text it occurred before. */
  lemma FrontOccurred(fold: CodeUnit -> CodeUnit, prev: bool, s: Text, out: Text, m: nat, term: Text)
    requires FoldsLikeRegExp(fold) && Bracketless(term) && term != [] && CutAt(prev, s, out, m)
    requires OccursAt(fold, prev, out, 0, term)
    ensures OccursAt(fold, prev, s, 0, term)
  {
    var n := |term|;
    assert forall j :: 0 <= j < n ==> term[j] in term && term[j] != OPEN;
    if m < n && m < |s| { FoldExact(fold, out[0 + m], term[m]); }
    assert n <= m;
    assert forall j :: 0 <= j < m ==> out[j] == s[j];
    forall j | 0 <= j < n ensures fold(s[0 + j]) == fold(term[j]) {
      assert out[0 + j] == s[j];
    }
    assert WordAt(prev, out, n - 1) == WordAt(prev, s, n - 1);
    assert WordAt(prev, out, 0) == WordAt(prev, s, 0);
    if n == m && m < |s| {
      assert !WordAt(prev, out, n);
    } else {
      assert WordAt(prev, out, n) == WordAt(prev, s, n);
    }
  }

  // ----- Placeholders hold no occurrence -----

  /** Prepending one unit at which the term does not occur. */
  lemma UnitBefore(fold: CodeUnit -> CodeUnit, prev: bool, c: CodeUnit, rest: Text, term: Text)
    requires !OccursAt(fold, prev, [c] + rest, 0, term) && !Occurs(fold, WordAt(prev, [c] + rest, 0), rest, term)
    ensures !Occurs(fold, prev, [c] + rest, term)
  {
    var s := [c] + rest;
    assert s[1..] == rest;
    forall k: nat ensures !OccursAt(fold, prev, s, k, term) {
      if k > 0 { OccursLater(fold, prev, s, k - 1, term); }
    }
  }

  lemma BracketBefore(fold: CodeUnit -> CodeUnit, prev: bool, c: CodeUnit, rest: Text, term: Text)
    requires FoldsLikeRegExp(fold) && Bracketless(term) && term != [] && (c == OPEN || c == CLOSE)
    requires !Occurs(fold, false, rest, term)
    ensures !Occurs(fold, prev, [c] + rest, term)
  {
    MatchIsOccurrence(fold, prev, [c] + rest, term);
    NoMatchAtBracket(fold, prev, [c] + rest, term);
    UnitBefore(fold, prev, c, rest, term);
  }

  lemma {:induction false} DigitsBefore(fold: CodeUnit -> CodeUnit, d: Text, rest: Text, term: Text)
    requires AllDigits(d) && term != [] && !Occurs(fold, true, rest, term)
    ensures !Occurs(fold, true, d + rest, term)
  {
    if d == [] {
      assert d + rest == rest;
    } else {
      DigitsBefore(fold, d[1..], rest, term);
      assert d + rest == [d[0]] + (d[1..] + rest);
      MatchIsOccurrence(fold, true, d + rest, term);
      UnitBefore(fold, true, d[0], d[1..] + rest, term);
    }
  }

  lemma MarkBefore(fold: CodeUnit -> CodeUnit, prev: bool, d: Text, rest: Text, term: Text)
    requires FoldsLikeRegExp(fold) && SafeTerm(term) && term != [] && AllDigits(d) && d != []
    requires !Occurs(fold, false, rest, term)
    ensures !Occurs(fold, prev, Mark(d) + rest, term)
  {
    var s5 := [CLOSE] + rest;
    var s4 := [CLOSE] + s5;
    var s2 := [LETTER_C] + (d + s4);
    BracketBefore(fold, false, CLOSE, rest, term);
    BracketBefore(fold, true, CLOSE, s5, term);
    DigitsBefore(fold, d, s4, term);
    MatchIsOccurrence(fold, false, s2, term);
    NoMatchAtLetter(fold, d, s5, term);
    UnitBefore(fold, false, LETTER_C, d + s4, term);
    BracketBefore(fold, false, OPEN, s2, term);
    BracketBefore(fold, prev, OPEN, [OPEN] + s2, term);
    assert Mark(d) + rest == [OPEN] + ([OPEN] + s2);
  }

  /** A word edge before the front is lost, not gained, when what stood before goes. */
  lemma EdgeLost(fold: CodeUnit -> CodeUnit, prev: bool, s: Text, term: Text)
    requires term != [] && !Occurs(fold, prev, s, term)
    requires prev ==> !WordAt(false, s, 0)
    ensures !Occurs(fold, false, s, term)
  {
    forall k: nat ensures !OccursAt(fold, false, s, k, term) {
      assert !OccursAt(fold, prev, s, k, term);
    }
  }

  // ----- A scan leaves no occurrence of its term, and makes none of another -----

  /** What the scan does after a match stands behind a placeholder. */
  lemma AfterMatch(fold: CodeUnit -> CodeUnit, prev: bool, s: Text, u: Text, i: nat, term: Text)
    requires FoldsLikeRegExp(fold) && SafeTerm(term) && term != [] && u != [] && MatchesAt(fold, prev, s, u)
    requires !Occurs(fold, IsWord(s[|u| - 1]), Scan(fold, IsWord(s[|u| - 1]), s[|u|..], u, i + 1).text, term)
    ensures !Occurs(fold, prev, Scan(fold, prev, s, u, i).text, term)
  {
    var n := |u|;
    var edge := IsWord(s[n - 1]);
    var out := Scan(fold, edge, s[n..], u, i + 1).text;
    var m := ScanCut(fold, edge, s[n..], u, i + 1);
    if edge && out != [] {
      assert !WordAt(false, out, 0) by {
        if m > 0 { assert out[0] == out[..m][0] == s[n..][..m][0] == s[n]; }
      }
    }
    EdgeLost(fold, edge, out, term);
    DecimalDigits(i);
    MarkBefore(fold, prev, Decimal(i), out, term);
  }

  lemma {:induction false} OccursInRest(fold: CodeUnit -> CodeUnit, prev: bool, s: Text, n: nat, term: Text)
    requires n <= |s| && !Occurs(fold, prev, s, term)
    ensures !Occurs(fold, WordAt(prev, s, n - 1), s[n..], term)
    decreases n
  {
    if n == 0 {
      assert s[0..] == s;
    } else {
      forall k: nat ensures !OccursAt(fold, WordAt(prev, s, 0), s[1..], k, term) {
        OccursLater(fold, prev, s, k, term);
        assert !OccursAt(fold, prev, s, k + 1, term);
      }
      OccursInRest(fold, WordAt(prev, s, 0), s[1..], n - 1, term);
      assert s[1..][n - 1..] == s[n..];
      assert n > 1 ==> s[1..][n - 2] == s[n - 1];
    }
  }

  lemma {:induction false} ScanMakesNone(fold: CodeUnit -> CodeUnit, prev: bool, s: Text, u: Text, i: nat, term: Text)
    requires FoldsLikeRegExp(fold) && SafeTerm(term) && term != [] && u != []
    requires u == term || !Occurs(fold, prev, s, term)
    ensures !Occurs(fold, prev, Scan(fold, prev, s, u, i).text, term)
    decreases |s|
  {
    if s == [] {
    } else if MatchesAt(fold, prev, s, u) {
      if u != term { OccursInRest(fold, prev, s, |u|, term); }
      ScanMakesNone(fold, IsWord(s[|u| - 1]), s[|u|..], u, i + 1, term);
      AfterMatch(fold, prev, s, u, i, term);
    } else {
      if u != term { OccursInRest(fold, prev, s, 1, term); }
      ScanMakesNone(fold, IsWord(s[0]), s[1..], u, i, term);
      var out := Scan(fold, prev, s, u, i).text;
      var m := ScanCut(fold, prev, s, u, i);
      if OccursAt(fold, prev, out, 0, term) {
        FrontOccurred(fold, prev, s, out, m, term);
        MatchIsOccurrence(fold, prev, s, term);
        assert Occurs(fold, prev, s, term);
      }
      UnitBefore(fold, prev, s[0], Scan(fold, IsWord(s[0]), s[1..], u, i).text, term);
    }
  }

  lemma {:induction false} MaskFromMakesNone(fold: CodeUnit -> CodeUnit, terms: seq<Text>, m: Masked, term: Text)
    requires FoldsLikeRegExp(fold) && SafeTerm(term) && |term| >= 2
    requires term in terms || !Occurs(fold, false, m.text, term)
    ensures !Occurs(fold, false, MaskFrom(fold, terms, m).text, term)
  {
    if terms != [] {
      if |terms[0]| < 2 {
        assert term in terms ==> term in terms[1..];
        MaskFromMakesNone(fold, terms[1..], m, term);
      } else {
        var r := Scan(fold, false, m.text, terms[0], |m.originals|);
        if terms[0] == term || !Occurs(fold, false, m.text, term) {
          ScanMakesNone(fold, false, m.text, terms[0], |m.originals|, term);
        } else {
          assert term in terms[1..];
        }
        MaskFromMakesNone(fold, terms[1..], Masked(r.text, m.originals + r.originals), term);
      }
    }
  }

  /** After masking, no safe term of two or more characters in the list occurs in the text, whatever the
      other terms are. */
  lemma NoTermIsLeft(fold: CodeUnit -> CodeUnit, terms: seq<Text>, text: Text, term: Text)
    requires FoldsLikeRegExp(fold) && term in terms && SafeTerm(term) && |term| >= 2
    ensures !Occurs(fold, false, Mask(fold, terms, text).text, term)
  {
    MaskFromMakesNone(fold, terms, Masked(text, []), term);
  }

  /** A list masks nothing, and leaves the text as it is, exactly when no term of two or more characters
      in it occurs. */
  lemma {:induction false} MasksNothingIff(fold: CodeUnit -> CodeUnit, terms: seq<Text>, m: Masked)
    ensures MaskFrom(fold, terms, m) == m <==>
            forall term :: term in terms && |term| >= 2 ==> !Occurs(fold, false, m.text, term)
    ensures |MaskFrom(fold, terms, m).originals| >= |m.originals|
    ensures |MaskFrom(fold, terms, m).originals| == |m.originals| ==> MaskFrom(fold, terms, m) == m
  {
    if terms != [] {
      assert forall term :: term in terms <==> term == terms[0] || term in terms[1..];
      if |terms[0]| < 2 {
        MasksNothingIff(fold, terms[1..], m);
      } else {
        var r := Scan(fold, false, m.text, terms[0], |m.originals|);
        var next := Masked(r.text, m.originals + r.originals);
        ScanFindsIff(fold, false, m.text, terms[0], |m.originals|);
        assert r.originals == [] ==> next == m;
        MasksNothingIff(fold, terms[1..], next);
      }
    }
  }
}
