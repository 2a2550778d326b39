/** Printed JSON can be read back: the text of a value determines, inside any text that follows it,
    where it ends and which value it was. */
module StableJsonInjective {
  import opened Basics
  import opened Utf16
  import opened StableJson

  // ----- Strings -----

  lemma Cancel(u: Text, a: Text, b: Text)
    requires u + a == u + b
    ensures a == b
  {
    assert (u + a)[|u|..] == a && (u + b)[|u|..] == b;
  }

  /** Concatenations are kept nested to the right. */
  lemma Bracketed(l: CodeUnit, j: Text, r: CodeUnit, a: Text)
    ensures ([l] + j + [r]) + a == [l] + (j + ([r] + a))
  {
  }

  lemma Joined(s: Text, c: CodeUnit, j: Text, a: Text)
    ensures (s + [c] + j) + a == s + ([c] + (j + a))
  {
  }

  lemma HexParts(u: CodeUnit)
    ensures u == 4096 * (u / 4096) + 256 * (u / 256 % 16) + 16 * (u / 16 % 16) + u % 16
  {
    assert u / 16 / 16 == u / 256 && u / 256 / 16 == u / 4096;
    var a := u / 16;
    var b := a / 16;
    assert u == 16 * a + u % 16 && a == 16 * b + a % 16 && b == 16 * (b / 16) + b % 16;
  }

  lemma UnicodeEscapeInjective(u: CodeUnit, v: CodeUnit)
    requires UnicodeEscape(u) == UnicodeEscape(v)
    ensures u == v
  {
    assert UnicodeEscape(u)[2] == UnicodeEscape(v)[2] && UnicodeEscape(u)[3] == UnicodeEscape(v)[3];
    assert UnicodeEscape(u)[4] == UnicodeEscape(v)[4] && UnicodeEscape(u)[5] == UnicodeEscape(v)[5];
    HexParts(u);
    HexParts(v);
  }

  predicate Plain(u: CodeUnit) {
    EscapeUnit(u) == [u]
  }

  /** The escapes of two code units are equal or differ within the shorter one. */
  lemma EscapeUnitPrefixFree(u: CodeUnit, v: CodeUnit, a: Text, b: Text)
    requires EscapeUnit(u) + a == EscapeUnit(v) + b
    ensures u == v && a == b
  {
    var x, y := EscapeUnit(u) + a, EscapeUnit(v) + b;
    assert x[0] == EscapeUnit(u)[0] && y[0] == EscapeUnit(v)[0];
    if Plain(u) || Plain(v) {
      assert u == v;
    } else {
      assert x[1] == EscapeUnit(u)[1] && y[1] == EscapeUnit(v)[1];
      if |EscapeUnit(u)| == 6 {
        assert EscapeUnit(u) == x[..6] && EscapeUnit(v) == y[..6];
        UnicodeEscapeInjective(u, v);
      }
    }
    Cancel(EscapeUnit(u), a, b);
  }

  /** A quoted string ends at its closing quote. */
  lemma {:induction false} EscapePrefixFree(s: Text, t: Text, a: Text, b: Text)
    requires Escape(s) + ([QUOTE] + a) == Escape(t) + ([QUOTE] + b)
    ensures s == t && a == b
    decreases |s|
  {
    FirstEscaped(s, a);
    FirstEscaped(t, b);
    if s == [] || t == [] {
      assert s == t == [];
      assert Escape(s) + ([QUOTE] + a) == [QUOTE] + a && Escape(t) + ([QUOTE] + b) == [QUOTE] + b;
      Cancel([QUOTE], a, b);
    } else if StartsWithPair(s) {
      PairsPrefixFree(s, t, a, b);
      EscapePrefixFree(s[2..], t[2..], a, b);
      assert s == s[..2] + s[2..] && t == t[..2] + t[2..];
    } else {
      var s', t' := Escape(s[1..]) + ([QUOTE] + a), Escape(t[1..]) + ([QUOTE] + b);
      Assoc(EscapeUnit(s[0]), Escape(s[1..]), [QUOTE] + a);
      Assoc(EscapeUnit(t[0]), Escape(t[1..]), [QUOTE] + b);
      EscapeUnitPrefixFree(s[0], t[0], s', t');
      EscapePrefixFree(s[1..], t[1..], a, b);
      assert s == [s[0]] + s[1..] && t == [t[0]] + t[1..];
    }
  }

  lemma PairsPrefixFree(s: Text, t: Text, a: Text, b: Text)
    requires StartsWithPair(s) && StartsWithPair(t)
    requires Escape(s) + ([QUOTE] + a) == Escape(t) + ([QUOTE] + b)
    ensures s[..2] == t[..2]
    ensures Escape(s[2..]) + ([QUOTE] + a) == Escape(t[2..]) + ([QUOTE] + b)
  {
    var s', t' := Escape(s[2..]) + ([QUOTE] + a), Escape(t[2..]) + ([QUOTE] + b);
    Assoc(s[..2], Escape(s[2..]), [QUOTE] + a);
    Assoc(t[..2], Escape(t[2..]), [QUOTE] + b);
    assert (s[..2] + s')[..2] == s[..2] && (t[..2] + t')[..2] == t[..2];
    Cancel(s[..2], s', t');
  }

  /** The first printed unit tells the closing quote, a surrogate pair and the rest apart. */
  lemma FirstEscaped(s: Text, a: Text)
    ensures var x := Escape(s) + ([QUOTE] + a);
            && (x[0] == QUOTE <==> s == [])
            && (IsHigh(x[0]) <==> StartsWithPair(s))
  {
    if s != [] && !StartsWithPair(s) {
      assert Escape(s)[0] == EscapeUnit(s[0])[0];
    }
  }

  lemma QuotePrefixFree(s: Text, t: Text, a: Text, b: Text)
    requires Quote(s) + a == Quote(t) + b
    ensures s == t && a == b
  {
    Bracketed(QUOTE, Escape(s), QUOTE, a);
    Bracketed(QUOTE, Escape(t), QUOTE, b);
    Cancel([QUOTE], Escape(s) + ([QUOTE] + a), Escape(t) + ([QUOTE] + b));
    EscapePrefixFree(s, t, a, b);
  }

  // ----- Numbers -----

  /** What may follow a value: nothing, or a unit that cannot continue a number. */
  predicate Ends(a: Text) {
    a == [] || !IsNumberUnit(a[0])
  }

  lemma {:induction false} NumberPrefixFree(x: Text, y: Text, a: Text, b: Text)
    requires forall i :: 0 <= i < |x| ==> IsNumberUnit(x[i])
    requires forall i :: 0 <= i < |y| ==> IsNumberUnit(y[i])
    requires Ends(a) && Ends(b) && x + a == y + b
    ensures x == y && a == b
  {
    NotLonger(x, y, a, b);
    NotLonger(y, x, b, a);
    assert (x + a)[..|x|] == x && (y + b)[..|y|] == y;
    Cancel(x, a, b);
  }

  lemma NotLonger(x: Text, y: Text, a: Text, b: Text)
    requires forall i :: 0 <= i < |y| ==> IsNumberUnit(y[i])
    requires Ends(a) && x + a == y + b
    ensures |y| <= |x|
  {
    assert forall i :: 0 <= i < |y| ==> (x + a)[i] == y[i];
    assert a != [] ==> (x + a)[|x|] == a[0];
    assert |x + a| == |x| + |a|;
  }

  // ----- Values -----

  /** The first printed unit gives away which kind of value follows. */
  function Kind(v: Json): nat {
    match v
    case JNull => 0
    case JBool(b) => if b then 1 else 2
    case JNumber(_) => 3
    case JString(_) => 4
    case JArray(_) => 5
    case JObject(_) => 6
  }

  function KindOfUnit(u: CodeUnit): nat {
    if u == 0x6E then 0
    else if u == 0x74 then 1
    else if u == 0x66 then 2
    else if IsNumberUnit(u) then 3
    else if u == QUOTE then 4
    else if u == LBRACKET then 5
    else if u == LBRACE then 6
    else 7
  }

  lemma FirstUnit(v: Json)
    requires WellFormed(v)
    ensures Stringify(v) != [] && KindOfUnit(Stringify(v)[0]) == Kind(v) && Stringify(v)[0] != RBRACKET
  {
  }

  lemma {:induction false} ValuePrefixFree(v: Json, w: Json, a: Text, b: Text)
    requires WellFormed(v) && WellFormed(w) && Ends(a) && Ends(b)
    requires Stringify(v) + a == Stringify(w) + b
    ensures Same(v, w) && a == b
    decreases v, 2
  {
    SameKind(v, w, a, b);
    match v {
      case JNumber(x) => NumberPrefixFree(x, w.lexeme, a, b);
      case JString(s) => QuotePrefixFree(s, w.s, a, b);
      case JArray(xs) => ArrayPrefixFree(v, w, a, b);
      case JObject(ms) => ObjectPrefixFree(v, w, a, b);
      case _ => Cancel(Stringify(v), a, b);
    }
  }

  lemma SameKind(v: Json, w: Json, a: Text, b: Text)
    requires WellFormed(v) && WellFormed(w) && Stringify(v) + a == Stringify(w) + b
    ensures Kind(v) == Kind(w)
  {
    FirstUnit(v);
    FirstUnit(w);
    assert (Stringify(v) + a)[0] == Stringify(v)[0] && (Stringify(w) + b)[0] == Stringify(w)[0];
  }

  lemma {:induction false} ArrayPrefixFree(v: Json, w: Json, a: Text, b: Text)
    requires v.JArray? && w.JArray? && WellFormed(v) && WellFormed(w)
    requires Stringify(v) + a == Stringify(w) + b
    ensures Same(v, w) && a == b
    decreases v, 1
  {
    var x, y := JoinItems(v.items), JoinItems(w.items);
    Bracketed(LBRACKET, x, RBRACKET, a);
    Bracketed(LBRACKET, y, RBRACKET, b);
    Cancel([LBRACKET], x + ([RBRACKET] + a), y + ([RBRACKET] + b));
    ItemsPrefixFree(v, v.items, w.items, a, b);
  }

  /** What follows the first item of a printed array. */
  function AfterItem(xs: seq<Json>, a: Text): Text
    requires xs != []
  {
    if |xs| == 1 then [RBRACKET] + a else [COMMA] + (JoinItems(xs[1..]) + ([RBRACKET] + a))
  }

  lemma ItemsUnfold(xs: seq<Json>, a: Text)
    requires xs != []
    ensures JoinItems(xs) + ([RBRACKET] + a) == Stringify(xs[0]) + AfterItem(xs, a)
  {
    if |xs| > 1 {
      Joined(Stringify(xs[0]), COMMA, JoinItems(xs[1..]), [RBRACKET] + a);
    }
  }

  lemma {:induction false} ItemsPrefixFree(v: Json, xs: seq<Json>, ys: seq<Json>, a: Text, b: Text)
    requires forall i :: 0 <= i < |xs| ==> xs[i] < v && WellFormed(xs[i])
    requires forall i :: 0 <= i < |ys| ==> WellFormed(ys[i])
    requires JoinItems(xs) + ([RBRACKET] + a) == JoinItems(ys) + ([RBRACKET] + b)
    ensures |xs| == |ys| && (forall i :: 0 <= i < |xs| ==> Same(xs[i], ys[i])) && a == b
    decreases v, 0, |xs|
  {
    FirstOfItems(xs, a);
    FirstOfItems(ys, b);
    if xs == [] {
      assert JoinItems(xs) + ([RBRACKET] + a) == [RBRACKET] + a && JoinItems(ys) + ([RBRACKET] + b) == [RBRACKET] + b;
      Cancel([RBRACKET], a, b);
    } else {
      ItemsUnfold(xs, a);
      ItemsUnfold(ys, b);
      var x, y := AfterItem(xs, a), AfterItem(ys, b);
      ValuePrefixFree(xs[0], ys[0], x, y);
      assert x[0] == y[0];
      if |xs| == 1 {
        Cancel([RBRACKET], a, b);
      } else {
        Cancel([COMMA], JoinItems(xs[1..]) + ([RBRACKET] + a), JoinItems(ys[1..]) + ([RBRACKET] + b));
        ItemsPrefixFree(v, xs[1..], ys[1..], a, b);
        assert forall i :: 0 < i < |xs| ==> xs[i] == xs[1..][i - 1] && ys[i] == ys[1..][i - 1];
      }
    }
  }

  lemma FirstOfItems(xs: seq<Json>, a: Text)
    requires forall i :: 0 <= i < |xs| ==> WellFormed(xs[i])
    ensures (JoinItems(xs) + ([RBRACKET] + a))[0] == RBRACKET <==> xs == []
  {
    if xs != [] {
      FirstUnit(xs[0]);
      ItemsUnfold(xs, a);
      hide *;
      assert (Stringify(xs[0]) + AfterItem(xs, a))[0] == Stringify(xs[0])[0];
    } else {
      assert JoinItems(xs) + ([RBRACKET] + a) == [RBRACKET] + a;
    }
  }

  lemma {:induction false} ObjectPrefixFree(v: Json, w: Json, a: Text, b: Text)
    requires v.JObject? && w.JObject? && WellFormed(v) && WellFormed(w)
    requires Stringify(v) + a == Stringify(w) + b
    ensures Same(v, w) && a == b
    decreases v, 1
  {
    var ks, ls := Sort(Keys(v.members)), Sort(Keys(w.members));
    var x, y := JoinMembers(ks, TextsByKey(v.members)), JoinMembers(ls, TextsByKey(w.members));
    Bracketed(LBRACE, x, RBRACE, a);
    Bracketed(LBRACE, y, RBRACE, b);
    Cancel([LBRACE], x + ([RBRACE] + a), y + ([RBRACE] + b));
    SortedKeys(v.members);
    SortedKeys(w.members);
    assert forall k :: (k in ks <==> k in Elements(ks)) && (k in ls <==> k in Elements(ls));
    MembersPrefixFree(v, w, ks, ls, a, b);
    SameFromKeys(v, w, ks);
  }

  lemma SameFromKeys(v: Json, w: Json, ks: seq<Text>)
    requires v.JObject? && w.JObject?
    requires Elements(ks) == KeySet(v.members) == KeySet(w.members)
    requires forall k :: k in ks ==> SameUnder(v.members, w.members, k)
    ensures Same(v, w)
  {
    var ms, ns := v.members, w.members;
    forall i, j | 0 <= i < |ms| && 0 <= j < |ns| && ms[i].key == ns[j].key
      ensures Same(ms[i].value, ns[j].value)
    {
      assert ms[i].key in Elements(ks);
      assert SameUnder(ms, ns, ms[i].key);
    }
  }

  ghost predicate SameUnder(ms: seq<Member>, ns: seq<Member>, k: Text) {
    forall i, j :: 0 <= i < |ms| && 0 <= j < |ns| && ms[i].key == ns[j].key == k ==> Same(ms[i].value, ns[j].value)
  }

  function AfterMember(ks: seq<Text>, texts: map<Text, Text>, a: Text): Text
    requires ks != []
  {
    if |ks| == 1 then [RBRACE] + a else [COMMA] + (JoinMembers(ks[1..], texts) + ([RBRACE] + a))
  }

  lemma MembersUnfold(ks: seq<Text>, texts: map<Text, Text>, a: Text)
    requires ks != []
    ensures JoinMembers(ks, texts) + ([RBRACE] + a) == MemberText(ks[0], texts) + AfterMember(ks, texts, a)
  {
    if |ks| > 1 {
      Joined(MemberText(ks[0], texts), COMMA, JoinMembers(ks[1..], texts), [RBRACE] + a);
    }
  }

  lemma FirstOfMembers(ks: seq<Text>, texts: map<Text, Text>, a: Text)
    ensures (JoinMembers(ks, texts) + ([RBRACE] + a))[0] == RBRACE <==> ks == []
  {
    if ks != [] {
      MembersUnfold(ks, texts, a);
      assert Quote(ks[0])[0] == QUOTE;
      assert MemberText(ks[0], texts)[0] == QUOTE;
      assert (MemberText(ks[0], texts) + AfterMember(ks, texts, a))[0] == QUOTE;
    }
  }

  lemma {:induction false} MembersPrefixFree(v: Json, w: Json, ks: seq<Text>, ls: seq<Text>, a: Text, b: Text)
    requires v.JObject? && w.JObject? && WellFormed(v) && WellFormed(w)
    requires (forall k :: k in ks ==> k in KeySet(v.members)) && (forall k :: k in ls ==> k in KeySet(w.members))
    requires JoinMembers(ks, TextsByKey(v.members)) + ([RBRACE] + a) == JoinMembers(ls, TextsByKey(w.members)) + ([RBRACE] + b)
    ensures ks == ls && a == b && forall k :: k in ks ==> SameUnder(v.members, w.members, k)
    decreases v, 0, |ks|
  {
    var ms, ns := TextsByKey(v.members), TextsByKey(w.members);
    FirstOfMembers(ks, ms, a);
    FirstOfMembers(ls, ns, b);
    if ks == [] || ls == [] {
      assert ks == ls == [];
      assert JoinMembers(ks, ms) + ([RBRACE] + a) == [RBRACE] + a && JoinMembers(ls, ns) + ([RBRACE] + b) == [RBRACE] + b;
      Cancel([RBRACE], a, b);
    } else {
      MembersUnfold(ks, ms, a);
      MembersUnfold(ls, ns, b);
      var x, y := AfterMember(ks, ms, a), AfterMember(ls, ns, b);
      OneMember(v, w, ks[0], ls[0], x, y);
      assert x[0] == y[0];
      if |ks| == 1 {
        Cancel([RBRACE], a, b);
      } else {
        Cancel([COMMA], JoinMembers(ks[1..], ms) + ([RBRACE] + a), JoinMembers(ls[1..], ns) + ([RBRACE] + b));
        MembersPrefixFree(v, w, ks[1..], ls[1..], a, b);
      }
      assert ks == [ks[0]] + ks[1..] && ls == [ls[0]] + ls[1..];
    }
  }

  lemma {:induction false} OneMember(v: Json, w: Json, k: Text, l: Text, a: Text, b: Text)
    requires v.JObject? && w.JObject? && WellFormed(v) && WellFormed(w) && Ends(a) && Ends(b)
    requires k in KeySet(v.members) && l in KeySet(w.members)
    requires MemberText(k, TextsByKey(v.members)) + a == MemberText(l, TextsByKey(w.members)) + b
    ensures k == l && a == b && SameUnder(v.members, w.members, k)
    decreases v, 0, 0
  {
    var ms, ns := v.members, w.members;
    var i :| 0 <= i < |ms| && ms[i].key == k;
    var j :| 0 <= j < |ns| && ns[j].key == l;
    MemberUnfold(ms, i, a);
    MemberUnfold(ns, j, b);
    var x, y := Stringify(ms[i].value) + a, Stringify(ns[j].value) + b;
    QuotePrefixFree(k, l, [COLON] + x, [COLON] + y);
    Cancel([COLON], x, y);
    ValuePrefixFree(ms[i].value, ns[j].value, a, b);
    assert forall i' :: 0 <= i' < |ms| && ms[i'].key == k ==> i' == i;
    assert forall j' :: 0 <= j' < |ns| && ns[j'].key == k ==> j' == j;
  }

  lemma MemberUnfold(ms: seq<Member>, i: nat, a: Text)
    requires i < |ms| && WellFormed(JObject(ms))
    ensures MemberText(ms[i].key, TextsByKey(ms)) + a == Quote(ms[i].key) + ([COLON] + (Stringify(ms[i].value) + a))
  {
    TextsByKeyAt(ms, i);
    Joined(Quote(ms[i].key), COLON, Stringify(ms[i].value), a);
  }

  /** Canonical and injective: two JSON values print the same text exactly when they are equal up to
      the order of object keys. */
  lemma EqualTextIffSame(v: Json, w: Json)
    requires WellFormed(v) && WellFormed(w)
    ensures Stringify(v) == Stringify(w) <==> Same(v, w)
  {
    if Stringify(v) == Stringify(w) {
      assert Stringify(v) + [] == Stringify(w) + [];
      ValuePrefixFree(v, w, [], []);
    }
    if Same(v, w) {
      SameImpliesEqualText(v, w);
    }
  }
}
