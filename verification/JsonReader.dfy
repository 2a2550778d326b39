/** A reader of compact JSON text, written from the grammar of RFC 8259 in literal code units, and the
    round trip: reading what the canonical printer prints gives the value back. */
module JsonReader {
  import opened Basics
  import opened Utf16
  import opened StableJson
  import opened StableJsonInjective

  /** Something read, and the text after it. */
  datatype Read<T> = Read(value: T, rest: Text)

  // ----- The grammar -----

  function HexValue(u: CodeUnit): Option<nat> {
    if 0x30 <= u <= 0x39 then Some(u - 0x30)
    else if 0x41 <= u <= 0x46 then Some(u - 0x37)
    else if 0x61 <= u <= 0x66 then Some(u - 0x57)
    else None
  }

  /** The unit four hexadecimal digits stand for. */
  function ReadHex(t: Text): Option<CodeUnit> {
    if |t| < 4 || HexValue(t[0]).None? || HexValue(t[1]).None? || HexValue(t[2]).None? || HexValue(t[3]).None? then None
    else Some(((HexValue(t[0]).value * 16 + HexValue(t[1]).value) * 16 + HexValue(t[2]).value) * 16 + HexValue(t[3]).value)
  }

  /** The unit a letter stands for after a backslash. */
  function ReadEscape(u: CodeUnit): Option<CodeUnit> {
    if u == 0x22 || u == 0x5C || u == 0x2F then Some(u)
    else if u == 0x62 then Some(0x08)
    else if u == 0x66 then Some(0x0C)
    else if u == 0x6E then Some(0x0A)
    else if u == 0x72 then Some(0x0D)
    else if u == 0x74 then Some(0x09)
    else None
  }

  function Push(u: CodeUnit, r: Option<Read<Text>>): Option<Read<Text>> {
    if r.None? then None else Some(Read([u] + r.value.value, r.value.rest))
  }

  /** The units of a string whose opening quote has been read, up to the closing one. */
  function ReadString(t: Text): (r: Option<Read<Text>>)
    ensures r.Some? ==> |r.value.rest| < |t|
    decreases |t|
  {
    if t == [] || t[0] < 0x20 then None
    else if t[0] == 0x22 then Some(Read([], t[1..]))
    else if t[0] != 0x5C then Push(t[0], ReadString(t[1..]))
    else if |t| == 1 then None
    else if t[1] == 0x75 then
      var u := ReadHex(t[2..]);
      if u.None? then None else Push(u.value, ReadString(t[6..]))
    else
      var u := ReadEscape(t[1]);
      if u.None? then None else Push(u.value, ReadString(t[2..]))
  }

  /** Digits, plus, minus, point and either exponent mark. */
  function NumberLength(t: Text): (n: nat)
    ensures n <= |t|
  {
    if t != [] && (0x30 <= t[0] <= 0x39 || t[0] in {0x2B, 0x2D, 0x2E, 0x45, 0x65}) then 1 + NumberLength(t[1..]) else 0
  }

  function ReadValue(t: Text): (r: Option<Read<Json>>)
    ensures r.Some? ==> |r.value.rest| < |t|
    decreases |t|, 0
  {
    if t == [] then None
    else if t[0] == 0x22 then
      var s := ReadString(t[1..]);
      if s.None? then None else Some(Read(JString(s.value.value), s.value.rest))
    else if t[0] == 0x5B then
      if |t| > 1 && t[1] == 0x5D then Some(Read(JArray([]), t[2..]))
      else
        var xs := ReadItems(t[1..]);
        if xs.None? then None else Some(Read(JArray(xs.value.value), xs.value.rest))
    else if t[0] == 0x7B then
      if |t| > 1 && t[1] == 0x7D then Some(Read(JObject([]), t[2..]))
      else
        var ms := ReadMembers(t[1..]);
        if ms.None? then None else Some(Read(JObject(ms.value.value), ms.value.rest))
    else if [0x6E, 0x75, 0x6C, 0x6C] <= t then Some(Read(JNull, t[4..]))
    else if [0x74, 0x72, 0x75, 0x65] <= t then Some(Read(JBool(true), t[4..]))
    else if [0x66, 0x61, 0x6C, 0x73, 0x65] <= t then Some(Read(JBool(false), t[5..]))
    else
      var n := NumberLength(t);
      if n == 0 then None else Some(Read(JNumber(t[..n]), t[n..]))
  }

  /** One or more values with commas between them, and the closing bracket. */
  function ReadItems(t: Text): (r: Option<Read<seq<Json>>>)
    ensures r.Some? ==> |r.value.rest| < |t|
    decreases |t|, 1
  {
    var v := ReadValue(t);
    if v.None? || v.value.rest == [] then None
    else if v.value.rest[0] == 0x5D then Some(Read([v.value.value], v.value.rest[1..]))
    else if v.value.rest[0] != 0x2C then None
    else
      var more := ReadItems(v.value.rest[1..]);
      if more.None? then None else Some(Read([v.value.value] + more.value.value, more.value.rest))
  }

  /** A quoted key, a colon and a value. */
  function ReadMember(t: Text): (r: Option<Read<Member>>)
    ensures r.Some? ==> |r.value.rest| < |t|
    decreases |t|, 1
  {
    if t == [] || t[0] != 0x22 then None
    else
      var k := ReadString(t[1..]);
      if k.None? || k.value.rest == [] || k.value.rest[0] != 0x3A then None
      else
        var v := ReadValue(k.value.rest[1..]);
        if v.None? then None else Some(Read(Member(k.value.value, v.value.value), v.value.rest))
  }

  /** One or more members with commas between them, and the closing brace. */
  function ReadMembers(t: Text): (r: Option<Read<seq<Member>>>)
    ensures r.Some? ==> |r.value.rest| < |t|
    decreases |t|, 2
  {
    var m := ReadMember(t);
    if m.None? || m.value.rest == [] then None
    else if m.value.rest[0] == 0x7D then Some(Read([m.value.value], m.value.rest[1..]))
    else if m.value.rest[0] != 0x2C then None
    else
      var more := ReadMembers(m.value.rest[1..]);
      if more.None? then None else Some(Read([m.value.value] + more.value.value, more.value.rest))
  }

  /** A text that is one value and nothing else. */
  function ReadText(t: Text): Option<Json> {
    var v := ReadValue(t);
    if v.Some? && v.value.rest == [] then Some(v.value.value) else None
  }

  // ----- Strings come back -----

  lemma HexDigitReads(n: int)
    requires 0 <= n < 16
    ensures HexValue(HexDigit(n)) == Some(n)
  {
  }

  lemma UnicodeEscapeReads(u: CodeUnit, a: Text)
    ensures ReadString(UnicodeEscape(u) + a) == Push(u, ReadString(a))
  {
    var t := UnicodeEscape(u) + a;
    HexDigitReads(u / 4096);
    HexDigitReads(u / 256 % 16);
    HexDigitReads(u / 16 % 16);
    HexDigitReads(u % 16);
    assert t[2..][0] == HexDigit(u / 4096) && t[2..][1] == HexDigit(u / 256 % 16);
    assert t[2..][2] == HexDigit(u / 16 % 16) && t[2..][3] == HexDigit(u % 16);
    HexParts(u);
    assert ReadHex(t[2..]) == Some(u);
    assert t[6..] == a;
  }

  lemma UnitReads(u: CodeUnit, a: Text)
    ensures ReadString(EscapeUnit(u) + a) == Push(u, ReadString(a))
  {
    var t := EscapeUnit(u) + a;
    if |EscapeUnit(u)| == 6 {
      UnicodeEscapeReads(u, a);
    } else if |EscapeUnit(u)| == 2 {
      assert t[2..] == a;
    } else {
      assert t[1..] == a;
    }
  }

  lemma {:induction false} EscapeReads(s: Text, a: Text)
    ensures ReadString(Escape(s) + ([QUOTE] + a)) == Some(Read(s, a))
    decreases |s|
  {
    var tail := [QUOTE] + a;
    if s == [] {
      assert Escape(s) + tail == tail && tail[1..] == a;
    } else if StartsWithPair(s) {
      var rest := Escape(s[2..]) + tail;
      EscapeReads(s[2..], a);
      Assoc(s[..2], Escape(s[2..]), tail);
      var t := s[..2] + rest;
      assert t[1..] == [s[1]] + rest && t[1..][1..] == rest;
      assert ReadString(t) == Push(s[0], Push(s[1], ReadString(rest)));
      assert [s[0]] + ([s[1]] + s[2..]) == s;
    } else {
      var rest := Escape(s[1..]) + tail;
      EscapeReads(s[1..], a);
      Assoc(EscapeUnit(s[0]), Escape(s[1..]), tail);
      UnitReads(s[0], rest);
      assert [s[0]] + s[1..] == s;
    }
  }

  lemma QuoteReads(s: Text, a: Text)
    ensures Quote(s) + a != [] && (Quote(s) + a)[0] == 0x22
    ensures ReadString((Quote(s) + a)[1..]) == Some(Read(s, a))
  {
    Bracketed(QUOTE, Escape(s), QUOTE, a);
    var t := Escape(s) + ([QUOTE] + a);
    assert ([QUOTE] + t)[1..] == t;
    EscapeReads(s, a);
  }

  /** Which units are escaped and how long: seven have a letter or stand for themselves after the
      backslash, the other control characters and lone surrogates have four small hexadecimal digits. */
  lemma EscapeShape(u: CodeUnit)
    ensures var t := Quote([u]);
            && (|t| == 4 <==> u in {0x08, 0x09, 0x0A, 0x0C, 0x0D, 0x22, 0x5C})
            && (|t| == 8 <==> (u < 0x20 || 0xD800 <= u < 0xE000) && |t| != 4)
            && (|t| == 3 || |t| == 4 || |t| == 8)
            && (forall i :: 0 <= i < |t| && |t| == 8 ==> !(0x41 <= t[i] <= 0x46))
  {
    assert [u][1..] == [];
    assert Escape([u]) == EscapeUnit(u);
  }

  /** The two halves of a character outside the basic plane are printed as they are. */
  lemma PairShape(s: Text, high: CodeUnit, low: CodeUnit)
    requires s == [high, low] && 0xD800 <= high < 0xDC00 && 0xDC00 <= low < 0xE000
    ensures Quote(s) == [0x22, high, low, 0x22]
  {
    assert s[2..] == [] && s[..2] == s;
    assert Escape(s) == s;
  }

  /** The units of a printed number are those the grammar allows, with the small exponent mark. */
  lemma NumberUnits(u: CodeUnit)
    ensures NumberLength([u]) == 1 <==> IsNumberUnit(u) || u == 0x45
  {
    assert [u][1..] == [];
  }

  // ----- Numbers come back -----

  lemma {:induction false} NumberReads(x: Text, a: Text)
    requires (forall i :: 0 <= i < |x| ==> IsNumberUnit(x[i])) && Follows(a)
    ensures NumberLength(x + a) == |x|
  {
    if x == [] {
      assert x + a == a;
    } else {
      NumberReads(x[1..], a);
      assert (x + a)[1..] == x[1..] + a;
    }
  }

  /** What may follow a value: nothing, a comma or a closing bracket or brace. */
  predicate Follows(a: Text) {
    a == [] || a[0] == 0x2C || a[0] == 0x5D || a[0] == 0x7D
  }

  // ----- The order of keys, in code units -----

  /** `a` is a proper prefix of `b`, or smaller at the first unit in which they differ. */
  ghost predicate ComesFirst(a: Text, b: Text) {
    exists p: nat :: Differ(a, b, p)
  }

  predicate Differ(a: Text, b: Text, p: nat) {
    p <= |a| && p < |b| && a[..p] == b[..p] && (p < |a| ==> a[p] < b[p])
  }

  lemma {:induction false} LessComesFirst(a: Text, b: Text)
    requires Less(a, b)
    ensures ComesFirst(a, b)
  {
    if a == [] || a[0] < b[0] {
      assert Differ(a, b, 0);
    } else {
      LessComesFirst(a[1..], b[1..]);
      var p: nat :| Differ(a[1..], b[1..], p);
      assert a[..p + 1] == [a[0]] + a[1..][..p] && b[..p + 1] == [b[0]] + b[1..][..p];
      assert Differ(a, b, p + 1);
    }
  }

  /** The keys of every object inside are in ascending order of code units. */
  ghost predicate KeysInOrder(v: Json) {
    match v
    case JArray(items) => forall i :: 0 <= i < |items| ==> KeysInOrder(items[i])
    case JObject(ms) =>
      && (forall i, j :: 0 <= i < j < |ms| ==> ComesFirst(ms[i].key, ms[j].key))
      && (forall i :: 0 <= i < |ms| ==> KeysInOrder(ms[i].value))
    case _ => true
  }

  // ----- Values come back -----

  /** Reading gave a value equal to `v` up to key order, and stopped at `a`. */
  ghost predicate GivesBack(r: Option<Read<Json>>, v: Json, a: Text) {
    r.Some? && r.value.rest == a && Same(v, r.value.value) && KeysInOrder(r.value.value)
  }

  lemma {:induction false} ValueReads(v: Json, a: Text)
    requires WellFormed(v) && Follows(a)
    ensures GivesBack(ReadValue(Stringify(v) + a), v, a)
    decreases v, 2
  {
    match v {
      case JNull => WordReads(v, NULL_TEXT, a);
      case JBool(b) => WordReads(v, if b then TRUE_TEXT else FALSE_TEXT, a);
      case JNumber(x) =>
        NumberReads(x, a);
        assert (x + a)[0] == x[0] && IsNumberUnit(x[0]);
        assert (x + a)[..|x|] == x && (x + a)[|x|..] == a;
      case JString(s) => QuoteReads(s, a);
      case JArray(xs) => ArrayReads(v, a);
      case JObject(ms) => ObjectReads(v, a);
    }
  }

  lemma WordReads(v: Json, word: Text, a: Text)
    requires (v == JNull && word == NULL_TEXT) || (v.JBool? && word == if v.b then TRUE_TEXT else FALSE_TEXT)
    ensures ReadValue(word + a) == Some(Read(v, a))
  {
    var t := word + a;
    assert word <= t && t[0] == word[0] && t[|word|..] == a;
  }

  lemma {:induction false} ArrayReads(v: Json, a: Text)
    requires v.JArray? && WellFormed(v)
    ensures GivesBack(ReadValue(Stringify(v) + a), v, a)
    decreases v, 1
  {
    var xs := v.items;
    var t := JoinItems(xs) + ([RBRACKET] + a);
    Bracketed(LBRACKET, JoinItems(xs), RBRACKET, a);
    assert ([LBRACKET] + t)[1..] == t && ([LBRACKET] + t)[1] == t[0];
    FirstOfItems(xs, a);
    if xs == [] {
      assert t == [RBRACKET] + a && ([LBRACKET] + t)[2..] == a;
    } else {
      ItemsRead(v, xs, a);
    }
  }

  ghost predicate GivesItems(r: Option<Read<seq<Json>>>, xs: seq<Json>, a: Text) {
    && r.Some? && r.value.rest == a && |r.value.value| == |xs|
    && forall i :: 0 <= i < |xs| ==> Same(xs[i], r.value.value[i]) && KeysInOrder(r.value.value[i])
  }

  lemma {:induction false} ItemsRead(v: Json, xs: seq<Json>, a: Text)
    requires xs != [] && forall i :: 0 <= i < |xs| ==> xs[i] < v && WellFormed(xs[i])
    ensures GivesItems(ReadItems(JoinItems(xs) + ([RBRACKET] + a)), xs, a)
    decreases v, 0, |xs|
  {
    var rest := AfterItem(xs, a);
    ItemsUnfold(xs, a);
    ValueReads(xs[0], rest);
    if |xs| == 1 {
      assert rest[1..] == a;
    } else {
      assert rest[1..] == JoinItems(xs[1..]) + ([RBRACKET] + a);
      ItemsRead(v, xs[1..], a);
    }
  }

  lemma NoKeys(ms: seq<Member>)
    ensures KeySet(ms) == {} <==> ms == []
  {
    assert ms != [] ==> ms[0].key in KeySet(ms);
  }

  lemma {:induction false} ObjectReads(v: Json, a: Text)
    requires v.JObject? && WellFormed(v)
    ensures GivesBack(ReadValue(Stringify(v) + a), v, a)
    decreases v, 1
  {
    var ks := Sort(Keys(v.members));
    var t := JoinMembers(ks, TextsByKey(v.members)) + ([RBRACE] + a);
    Bracketed(LBRACE, JoinMembers(ks, TextsByKey(v.members)), RBRACE, a);
    assert ([LBRACE] + t)[1..] == t && ([LBRACE] + t)[1] == t[0];
    FirstOfMembers(ks, TextsByKey(v.members), a);
    SortedKeys(v.members);
    assert forall k :: k in ks <==> k in Elements(ks);
    if ks == [] {
      assert t == [RBRACE] + a && ([LBRACE] + t)[2..] == a;
      NoKeys(v.members);
    } else {
      MembersRead(v, ks, a);
      SameAsRead(v, ks, ReadMembers(t).value.value);
    }
  }

  ghost predicate GivesMembers(r: Option<Read<seq<Member>>>, v: Json, ks: seq<Text>, a: Text)
    requires v.JObject?
  {
    && r.Some? && r.value.rest == a && |r.value.value| == |ks|
    && forall i :: 0 <= i < |ks| ==> IsMember(r.value.value[i], v, ks[i])
  }

  /** A member with this key and the value the object has under it. */
  ghost predicate IsMember(m: Member, v: Json, k: Text)
    requires v.JObject?
  {
    && m.key == k && KeysInOrder(m.value)
    && forall j :: 0 <= j < |v.members| && v.members[j].key == k ==> Same(v.members[j].value, m.value)
  }

  lemma SameAsRead(v: Json, ks: seq<Text>, ms: seq<Member>)
    requires v.JObject? && Elements(ks) == KeySet(v.members) && Ascending(ks) && |ms| == |ks|
    requires forall i :: 0 <= i < |ks| ==> IsMember(ms[i], v, ks[i])
    ensures Same(v, JObject(ms)) && KeysInOrder(JObject(ms))
  {
    forall k ensures k in KeySet(ms) <==> k in Elements(ks) {
      if k in Elements(ks) {
        var i :| 0 <= i < |ks| && ks[i] == k;
        assert ms[i].key == k;
      }
    }
    forall i, j | 0 <= i < j < |ms| ensures ComesFirst(ms[i].key, ms[j].key) {
      LessComesFirst(ks[i], ks[j]);
    }
  }

  lemma {:induction false} MembersRead(v: Json, ks: seq<Text>, a: Text)
    requires v.JObject? && WellFormed(v) && ks != [] && forall k :: k in ks ==> k in KeySet(v.members)
    ensures GivesMembers(ReadMembers(JoinMembers(ks, TextsByKey(v.members)) + ([RBRACE] + a)), v, ks, a)
    decreases v, 0, |ks|
  {
    var rest := AfterMember(ks, TextsByKey(v.members), a);
    MembersUnfold(ks, TextsByKey(v.members), a);
    MemberReads(v, ks[0], rest);
    if |ks| == 1 {
      assert rest[1..] == a;
    } else {
      assert rest[1..] == JoinMembers(ks[1..], TextsByKey(v.members)) + ([RBRACE] + a);
      MembersRead(v, ks[1..], a);
    }
  }

  lemma {:induction false} MemberReads(v: Json, k: Text, a: Text)
    requires v.JObject? && WellFormed(v) && k in KeySet(v.members) && Follows(a)
    ensures var r := ReadMember(MemberText(k, TextsByKey(v.members)) + a);
            r.Some? && r.value.rest == a && IsMember(r.value.value, v, k)
    decreases v, 0, 0
  {
    var ms := v.members;
    var i :| 0 <= i < |ms| && ms[i].key == k;
    MemberUnfold(ms, i, a);
    var value := Stringify(ms[i].value) + a;
    QuoteReads(k, [COLON] + value);
    assert ([COLON] + value)[1..] == value;
    ValueReads(ms[i].value, a);
    assert forall j :: 0 <= j < |ms| && ms[j].key == k ==> j == i;
  }

  /** Reading the canonical text of a value gives a value equal to it up to the order of keys, and with
      the keys of every object in ascending order of code units. */
  lemma CanonicalTextReadsBack(v: Json)
    requires WellFormed(v)
    ensures var r := ReadText(Stringify(v)); r.Some? && Same(v, r.value) && KeysInOrder(r.value)
  {
    assert Stringify(v) + [] == Stringify(v);
    ValueReads(v, []);
  }
}
