/** The canonical JSON printer: compact text with object keys sorted at every level. It is proved
    to print two values alike exactly when they are equal up to the order of object keys. */
module StableJson {
  import opened Utf16

  /** A number is represented by the text JavaScript prints for it, which is different for
      different numbers. Object members are in insertion order. */
  datatype Json =
    | JNull
    | JBool(b: bool)
    | JNumber(lexeme: Text)
    | JString(s: Text)
    | JArray(items: seq<Json>)
    | JObject(members: seq<Member>)

  datatype Member = Member(key: Text, value: Json)

  const QUOTE: CodeUnit := 0x22
  const BACKSLASH: CodeUnit := 0x5C
  const COMMA: CodeUnit := 0x2C
  const COLON: CodeUnit := 0x3A
  const LBRACKET: CodeUnit := 0x5B
  const RBRACKET: CodeUnit := 0x5D
  const LBRACE: CodeUnit := 0x7B
  const RBRACE: CodeUnit := 0x7D
  const NULL_TEXT: Text := [0x6E, 0x75, 0x6C, 0x6C]
  const TRUE_TEXT: Text := [0x74, 0x72, 0x75, 0x65]
  const FALSE_TEXT: Text := [0x66, 0x61, 0x6C, 0x73, 0x65]

  /** Digits, sign, point and exponent mark. */
  predicate IsNumberUnit(u: CodeUnit) {
    0x30 <= u <= 0x39 || u == 0x2B || u == 0x2D || u == 0x2E || u == 0x65
  }

  /** Values JSON can express: numbers are finite, keys of one object differ. */
  predicate WellFormed(v: Json) {
    match v
    case JNumber(x) => x != [] && forall i :: 0 <= i < |x| ==> IsNumberUnit(x[i])
    case JArray(items) => forall i :: 0 <= i < |items| ==> WellFormed(items[i])
    case JObject(ms) =>
      && (forall i, j :: 0 <= i < j < |ms| ==> ms[i].key != ms[j].key)
      && (forall i :: 0 <= i < |ms| ==> WellFormed(ms[i].value))
    case _ => true
  }

  /** Equal up to the order of object keys. */
  ghost predicate Same(a: Json, b: Json) {
    match (a, b)
    case (JArray(xs), JArray(ys)) => |xs| == |ys| && forall i :: 0 <= i < |xs| ==> Same(xs[i], ys[i])
    case (JObject(ms), JObject(ns)) =>
      && KeySet(ms) == KeySet(ns)
      && (forall i, j :: 0 <= i < |ms| && 0 <= j < |ns| && ms[i].key == ns[j].key ==> Same(ms[i].value, ns[j].value))
    case _ => a == b
  }

  function Keys(ms: seq<Member>): seq<Text> {
    seq(|ms|, i requires 0 <= i < |ms| => ms[i].key)
  }

  ghost function KeySet(ms: seq<Member>): set<Text> {
    set i | 0 <= i < |ms| :: ms[i].key
  }

  // ----- JSON.stringify on strings -----

  function HexDigit(n: int): CodeUnit
    requires 0 <= n < 16
  {
    if n < 10 then 0x30 + n else 0x57 + n
  }

  function UnicodeEscape(u: CodeUnit): Text {
    [BACKSLASH, 0x75, HexDigit(u / 4096), HexDigit(u / 256 % 16), HexDigit(u / 16 % 16), HexDigit(u % 16)]
  }

  /** One code unit that is not the first half of a surrogate pair. */
  function EscapeUnit(u: CodeUnit): Text {
    if u == 0x08 then [BACKSLASH, 0x62]
    else if u == 0x09 then [BACKSLASH, 0x74]
    else if u == 0x0A then [BACKSLASH, 0x6E]
    else if u == 0x0C then [BACKSLASH, 0x66]
    else if u == 0x0D then [BACKSLASH, 0x72]
    else if u == QUOTE || u == BACKSLASH then [BACKSLASH, u]
    else if u < 0x20 || IsSurrogate(u) then UnicodeEscape(u)
    else [u]
  }

  predicate StartsWithPair(s: Text) {
    |s| >= 2 && IsHigh(s[0]) && IsLow(s[1])
  }

  function Escape(s: Text): Text {
    if s == [] then []
    else if StartsWithPair(s) then s[..2] + Escape(s[2..])
    else EscapeUnit(s[0]) + Escape(s[1..])
  }

  function Quote(s: Text): Text {
    [QUOTE] + Escape(s) + [QUOTE]
  }

  // ----- stableStringify -----

  function Stringify(v: Json): Text
    decreases v, 1
  {
    match v
    case JNull => NULL_TEXT
    case JBool(b) => if b then TRUE_TEXT else FALSE_TEXT
    case JNumber(x) => x
    case JString(s) => Quote(s)
    case JArray(items) => [LBRACKET] + JoinItems(items) + [RBRACKET]
    case JObject(ms) => [LBRACE] + JoinMembers(Sort(Keys(ms)), TextsByKey(ms)) + [RBRACE]
  }

  function JoinItems(items: seq<Json>): Text
    decreases items, 0
  {
    if items == [] then []
    else if |items| == 1 then Stringify(items[0])
    else Stringify(items[0]) + [COMMA] + JoinItems(items[1..])
  }

  /** The text of the value under each key. */
  function TextsByKey(ms: seq<Member>): (r: map<Text, Text>)
    ensures forall i :: 0 <= i < |ms| ==> ms[i].key in r
    decreases ms, 0
  {
    if ms == [] then map[]
    else
      var last := |ms| - 1;
      TextsByKey(ms[..last])[ms[last].key := Stringify(ms[last].value)]
  }

  function MemberText(k: Text, texts: map<Text, Text>): Text {
    Quote(k) + [COLON] + (if k in texts then texts[k] else [])
  }

  function JoinMembers(keys: seq<Text>, texts: map<Text, Text>): Text {
    if keys == [] then []
    else if |keys| == 1 then MemberText(keys[0], texts)
    else MemberText(keys[0], texts) + [COMMA] + JoinMembers(keys[1..], texts)
  }

  lemma {:induction false} TextsByKeyAt(ms: seq<Member>, i: nat)
    requires i < |ms| && forall i, j :: 0 <= i < j < |ms| ==> ms[i].key != ms[j].key
    ensures TextsByKey(ms)[ms[i].key] == Stringify(ms[i].value)
  {
    var last := |ms| - 1;
    if i < last {
      TextsByKeyAt(ms[..last], i);
    }
  }

  lemma {:induction false} TextsByKeyDomain(ms: seq<Member>)
    ensures TextsByKey(ms).Keys == KeySet(ms)
  {
    if ms != [] {
      TextsByKeyDomain(ms[..|ms| - 1]);
    }
  }

  /** The sorted keys of a well-formed object: ascending, and exactly its keys. */
  lemma SortedKeys(ms: seq<Member>)
    requires forall i, j :: 0 <= i < j < |ms| ==> ms[i].key != ms[j].key
    ensures Ascending(Sort(Keys(ms))) && Elements(Sort(Keys(ms))) == KeySet(ms)
  {
    SortProperties(Keys(ms));
    assert Elements(Keys(ms)) == KeySet(ms) by {
      forall k | k in KeySet(ms) ensures k in Keys(ms) {
        var i :| 0 <= i < |ms| && ms[i].key == k;
        assert Keys(ms)[i] == k;
      }
    }
  }

  // ----- Equal up to key order implies equal text -----

  lemma {:induction false} SameImpliesEqualText(a: Json, b: Json)
    requires WellFormed(a) && WellFormed(b) && Same(a, b)
    ensures Stringify(a) == Stringify(b)
    decreases a, 1
  {
    match (a, b) {
      case (JArray(xs), JArray(ys)) => SameItems(a, xs, ys);
      case (JObject(ms), JObject(ns)) =>
        SortedKeys(ms);
        SortedKeys(ns);
        AscendingUnique(Sort(Keys(ms)), Sort(Keys(ns)));
        SameTexts(a, ms, ns);
      case _ =>
    }
  }

  lemma {:induction false} SameItems(a: Json, xs: seq<Json>, ys: seq<Json>)
    requires forall i :: 0 <= i < |xs| ==> xs[i] < a && WellFormed(xs[i])
    requires |xs| == |ys| && forall i :: 0 <= i < |xs| ==> WellFormed(ys[i]) && Same(xs[i], ys[i])
    ensures JoinItems(xs) == JoinItems(ys)
    decreases a, 0, |xs|
  {
    if xs != [] {
      SameImpliesEqualText(xs[0], ys[0]);
      SameItems(a, xs[1..], ys[1..]);
    }
  }

  lemma {:induction false} SameTexts(a: Json, ms: seq<Member>, ns: seq<Member>)
    requires a == JObject(ms) && WellFormed(a) && WellFormed(JObject(ns)) && Same(a, JObject(ns))
    ensures TextsByKey(ms) == TextsByKey(ns)
    decreases a, 0
  {
    hide Stringify;
    TextsByKeyDomain(ms);
    TextsByKeyDomain(ns);
    forall k | k in KeySet(ms)
      ensures TextsByKey(ms)[k] == TextsByKey(ns)[k]
    {
      var i :| 0 <= i < |ms| && ms[i].key == k;
      assert k in KeySet(ns);
      var j :| 0 <= j < |ns| && ns[j].key == k;
      TextsByKeyAt(ms, i);
      TextsByKeyAt(ns, j);
      SameImpliesEqualText(ms[i].value, ns[j].value);
    }
  }
}
