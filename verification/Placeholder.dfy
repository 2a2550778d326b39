/** Texts with placeholders `[[C<digits>]]` in them, read as lists of characters and placeholders. */
module Placeholder {
  import opened Utf16

  const OPEN: CodeUnit := 91
  const CLOSE: CodeUnit := 93
  const LETTER_C: CodeUnit := 67

  predicate IsDigit(c: CodeUnit) { 48 <= c <= 57 }

  predicate AllDigits(d: Text) { forall i :: 0 <= i < |d| ==> IsDigit(d[i]) }

  function Decimal(n: nat): Text {
    if n < 10 then [48 + n] else Decimal(n / 10) + [48 + n % 10]
  }

  lemma {:induction false} DecimalDigits(n: nat)
    ensures Decimal(n) != [] && AllDigits(Decimal(n))
  {
    if n >= 10 { DecimalDigits(n / 10); }
  }

  lemma {:induction false} DecimalInjective(m: nat, n: nat)
    requires Decimal(m) == Decimal(n)
    ensures m == n
  {
    var d := Decimal(m);
    if m >= 10 { DecimalDigits(m / 10); }
    if n >= 10 { DecimalDigits(n / 10); }
    if m >= 10 && n >= 10 {
      assert d[..|d| - 1] == Decimal(m / 10) && d[..|d| - 1] == Decimal(n / 10);
      assert d[|d| - 1] == 48 + m % 10 && d[|d| - 1] == 48 + n % 10;
      DecimalInjective(m / 10, n / 10);
    }
  }

  function Mark(digits: Text): Text {
    [OPEN, OPEN, LETTER_C] + digits + [CLOSE, CLOSE]
  }

  /** `[[C${i}]]` */
  function Numbered(i: nat): Text { Mark(Decimal(i)) }

  function LeadingDigits(s: Text): Text {
    if s != [] && IsDigit(s[0]) then [s[0]] + LeadingDigits(s[1..]) else []
  }

  lemma {:induction false} LeadingDigitsPrefix(s: Text)
    ensures LeadingDigits(s) <= s && AllDigits(LeadingDigits(s))
    ensures |LeadingDigits(s)| < |s| ==> !IsDigit(s[|LeadingDigits(s)|])
  {
    if s != [] && IsDigit(s[0]) {
      LeadingDigitsPrefix(s[1..]);
      assert s == [s[0]] + s[1..];
    }
  }

  lemma {:induction false} LeadingDigitsOf(d: Text, rest: Text)
    requires AllDigits(d) && (rest == [] || !IsDigit(rest[0]))
    ensures LeadingDigits(d + rest) == d
  {
    if d == [] {
      assert d + rest == rest;
    } else {
      assert (d + rest)[1..] == d[1..] + rest;
      LeadingDigitsOf(d[1..], rest);
    }
  }

  /** The digits of the placeholder `s` starts with; empty when it starts with none. */
  function MarkDigits(s: Text): Text {
    if [OPEN, OPEN, LETTER_C] <= s then
      var d := LeadingDigits(s[3..]);
      LeadingDigitsPrefix(s[3..]);
      if d != [] && [CLOSE, CLOSE] <= s[3..][|d|..] then d else []
    else []
  }

  lemma MarkSound(s: Text)
    requires MarkDigits(s) != []
    ensures var d := MarkDigits(s); AllDigits(d) && |d| + 5 <= |s| && s == Mark(d) + s[|d| + 5..]
  {
    var d, t := MarkDigits(s), s[3..];
    LeadingDigitsPrefix(t);
    var u := t[|d|..];
    assert u == [CLOSE, CLOSE] + u[2..];
    assert t == d + u;
    MarkParts(s, d, u);
  }

  lemma MarkParts(s: Text, d: Text, u: Text)
    requires [OPEN, OPEN, LETTER_C] <= s && s[3..] == d + u && [CLOSE, CLOSE] <= u
    ensures |d| + 5 <= |s| && s == Mark(d) + s[|d| + 5..]
  {
    assert s == [OPEN, OPEN, LETTER_C] + (d + u);
    assert u == [CLOSE, CLOSE] + u[2..];
    assert s[|d| + 5..] == u[2..];
  }

  lemma MarkComplete(d: Text, rest: Text)
    requires d != [] && AllDigits(d)
    ensures MarkDigits(Mark(d) + rest) == d
  {
    var s := Mark(d) + rest;
    assert s[3..] == d + ([CLOSE, CLOSE] + rest);
    LeadingDigitsOf(d, [CLOSE, CLOSE] + rest);
    assert s[3..][|d|..] == [CLOSE, CLOSE] + rest;
  }

  /** A character of the text, a placeholder that was in it from the start, or one the masking put
      there for its k-th original. */
  datatype Tok = Ch(c: CodeUnit) | Foreign(digits: Text) | Own(k: nat)

  function TokText(t: Tok): Text {
    match t
    case Ch(c) => [c]
    case Foreign(d) => Mark(d)
    case Own(k) => Numbered(k)
  }

  function Flat(toks: seq<Tok>): Text {
    if toks == [] then [] else TokText(toks[0]) + Flat(toks[1..])
  }

  predicate ProperTok(t: Tok) {
    t.Foreign? ==> t.digits != [] && AllDigits(t.digits)
  }

  predicate Proper(toks: seq<Tok>) {
    forall i :: 0 <= i < |toks| ==> ProperTok(toks[i])
  }

  /** The text read left to right, a placeholder wherever one starts. */
  function Tokenise(s: Text): seq<Tok> {
    if s == [] then []
    else
      var d := MarkDigits(s);
      if d != [] then MarkSound(s); [Foreign(d)] + Tokenise(s[|d| + 5..])
      else [Ch(s[0])] + Tokenise(s[1..])
  }

  lemma {:induction false} TokeniseFlat(s: Text)
    ensures Flat(Tokenise(s)) == s && Proper(Tokenise(s))
    ensures forall t :: t in Tokenise(s) ==> !t.Own?
    decreases |s|
  {
    if s != [] {
      if MarkDigits(s) != [] {
        MarkSound(s);
        TokeniseFlat(s[|MarkDigits(s)| + 5..]);
      } else {
        TokeniseFlat(s[1..]);
        assert s == [s[0]] + s[1..];
      }
    }
  }

  /** Every `[` in the text is followed by something that is not `[`. */
  predicate Sparse(w: Text) {
    forall i :: 0 <= i < |w| && w[i] == OPEN ==> i + 1 < |w| && w[i + 1] != OPEN
  }

  /** A sparse prefix of a flattened list lies wholly in its leading characters. */
  lemma {:induction false} CharsOnly(toks: seq<Tok>, w: Text)
    requires w <= Flat(toks) && Sparse(w)
    ensures |w| <= |toks| && (forall i :: 0 <= i < |w| ==> toks[i] == Ch(w[i]))
    ensures Flat(toks[|w|..]) == Flat(toks)[|w|..]
    decreases |w|
  {
    if w == [] {
      assert toks[0..] == toks;
    } else {
      var s := Flat(toks);
      assert s[0] == w[0];
      assert |w| > 1 ==> s[1] == w[1];
      assert toks[0].Ch?;
      assert s[1..] == Flat(toks[1..]);
      assert w[1..] <= s[1..];
      assert forall i :: 0 <= i < |w| - 1 ==> w[1..][i] == w[i + 1];
      CharsOnly(toks[1..], w[1..]);
      assert toks[1..][|w| - 1..] == toks[|w|..];
    }
  }

  /** A placeholder that starts at a character is spelled by characters only. */
  lemma SpelledByChars(toks: seq<Tok>)
    requires toks != [] && toks[0].Ch? && MarkDigits(Flat(toks)) != []
    ensures var n := |MarkDigits(Flat(toks))| + 5;
            && n <= |toks| && n <= |Flat(toks)|
            && (forall i :: 0 <= i < n ==> toks[i].Ch?)
            && Flat(toks[n..]) == Flat(toks)[n..]
  {
    var s, rest := Flat(toks), toks[1..];
    var d := MarkDigits(s);
    MarkSound(s);
    assert s[1..] == Flat(rest);
    var w := Mark(d)[1..];
    MarkTail(d);
    assert w <= s[1..];
    hide Flat, MarkDigits, Mark, Sparse;
    CharsOnly(rest, w);
    assert rest[|w|..] == toks[|w| + 1..] && s[1..][|w|..] == s[|w| + 1..];
    forall i | 0 <= i < |w| + 1 ensures toks[i].Ch? {
      if i > 0 { assert toks[i] == rest[i - 1]; }
    }
  }

  lemma MarkTail(d: Text)
    requires AllDigits(d)
    ensures |Mark(d)| == |d| + 5 && Sparse(Mark(d)[1..])
  {
    assert Mark(d)[1..] == [OPEN, LETTER_C] + d + [CLOSE, CLOSE];
  }

  /** No placeholder starts at a character. */
  predicate Clean(toks: seq<Tok>) {
    toks != [] ==> Clean(toks[1..]) && (toks[0].Ch? ==> MarkDigits(Flat(toks)) == [])
  }

  lemma {:induction false} TokeniseClean(s: Text)
    ensures Clean(Tokenise(s))
    decreases |s|
  {
    if s != [] {
      TokeniseFlat(s);
      if MarkDigits(s) != [] {
        MarkSound(s);
        TokeniseClean(s[|MarkDigits(s)| + 5..]);
      } else {
        TokeniseClean(s[1..]);
      }
    }
  }

  function Erased(t: Tok): Tok {
    if t.Own? then Foreign(Decimal(t.k)) else t
  }

  function Erase(toks: seq<Tok>): seq<Tok> {
    if toks == [] then [] else [Erased(toks[0])] + Erase(toks[1..])
  }

  lemma TokeniseAtMark(toks: seq<Tok>)
    requires toks != [] && !toks[0].Ch? && ProperTok(toks[0])
    ensures Tokenise(Flat(toks)) == [Erased(toks[0])] + Tokenise(Flat(toks[1..]))
  {
    var d, rest := Erased(toks[0]).digits, Flat(toks[1..]);
    if toks[0].Own? { DecimalDigits(toks[0].k); }
    MarkComplete(d, rest);
    assert Flat(toks)[|d| + 5..] == rest;
  }

  /** A clean list is read back from its text. */
  lemma {:induction false} FlatTokenise(toks: seq<Tok>)
    requires Clean(toks) && Proper(toks)
    ensures Tokenise(Flat(toks)) == Erase(toks)
  {
    if toks != [] {
      var s, rest := Flat(toks), Flat(toks[1..]);
      FlatTokenise(toks[1..]);
      if toks[0].Ch? {
        assert s[1..] == rest;
      } else {
        TokeniseAtMark(toks);
      }
    }
  }

  predicate Stands(t: Tok, ds: set<Text>) {
    !t.Ch? && Erased(t).digits in ds
  }

  /** How many placeholders of the list have their digits in `ds`. */
  function Count(toks: seq<Tok>, ds: set<Text>): nat {
    if toks == [] then 0 else (if Stands(toks[0], ds) then 1 else 0) + Count(toks[1..], ds)
  }

  lemma {:induction false} CountSkipsChars(toks: seq<Tok>, n: nat, ds: set<Text>)
    requires n <= |toks| && forall i :: 0 <= i < n ==> toks[i].Ch?
    ensures Count(toks, ds) == Count(toks[n..], ds)
  {
    if n > 0 {
      CountSkipsChars(toks[1..], n - 1, ds);
      assert toks[1..][n - 1..] == toks[n..];
    } else {
      assert toks[n..] == toks;
    }
  }

  lemma CountAtHead(toks: seq<Tok>, ds: set<Text>)
    requires toks != []
    ensures Count(toks[1..], ds) <= Count(toks, ds) <= Count(toks[1..], ds) + 1
    ensures toks[0].Ch? ==> Count(toks, ds) == Count(toks[1..], ds)
  {
  }

  /** The text after a placeholder holds no more placeholders than the whole. */
  lemma CountAfterMark(s: Text, ds: set<Text>)
    requires MarkDigits(s) != []
    ensures |MarkDigits(s)| + 5 <= |s|
    ensures Count(Tokenise(s[|MarkDigits(s)| + 5..]), ds) <= Count(Tokenise(s), ds)
  {
    var d := MarkDigits(s);
    MarkSound(s);
    var rest := Tokenise(s[|d| + 5..]);
    assert Tokenise(s) == [Foreign(d)] + rest;
    assert ([Foreign(d)] + rest)[1..] == rest;
    CountAtHead([Foreign(d)] + rest, ds);
  }

  lemma CountAfterChar(toks: seq<Tok>, ds: set<Text>)
    requires toks != [] && toks[0].Ch? && MarkDigits(Flat(toks)) == []
    ensures Count(Tokenise(Flat(toks)), ds) == Count(Tokenise(Flat(toks[1..])), ds)
  {
    var s := Flat(toks);
    assert s[1..] == Flat(toks[1..]);
    var rest := Tokenise(s[1..]);
    assert Tokenise(s) == [Ch(s[0])] + rest;
    assert ([Ch(s[0])] + rest)[1..] == rest;
    CountAtHead([Ch(s[0])] + rest, ds);
  }

  lemma CountConcat(t: Tok, toks: seq<Tok>, ds: set<Text>)
    ensures Count([t] + toks, ds) == (if Stands(t, ds) then 1 else 0) + Count(toks, ds)
  {
    assert ([t] + toks)[1..] == toks;
  }

  /** Reading the text of a list finds at least the placeholders of the list. */
  lemma {:induction false} MarksSurvive(toks: seq<Tok>, ds: set<Text>)
    requires Proper(toks)
    ensures Count(Tokenise(Flat(toks)), ds) >= Count(toks, ds)
    decreases |toks|
  {
    if toks == [] {
    } else if !toks[0].Ch? {
      TokeniseAtMark(toks);
      CountConcat(Erased(toks[0]), Tokenise(Flat(toks[1..])), ds);
      MarksSurvive(toks[1..], ds);
    } else if MarkDigits(Flat(toks)) == [] {
      CountAfterChar(toks, ds);
      CountAtHead(toks, ds);
      MarksSurvive(toks[1..], ds);
    } else {
      SpelledByChars(toks);
      var n := |MarkDigits(Flat(toks))| + 5;
      hide Tokenise, Count, MarkDigits, Flat, Erased;
      CountAfterMark(Flat(toks), ds);
      CountSkipsChars(toks, n, ds);
      MarksSurvive(toks[n..], ds);
    }
  }
}
