/** Batch translation: a greedy budget, one provider string per distinct text, and a cache. */
module Translation {
  import opened Basics
  import opened Utf16
  import opened MaskPipeline

  const MAX_STRINGS := 200
  const MAX_CHARS := 120_000

  /** The cache key of a text: the source uses its hash, here the text itself stands for it. */
  datatype Key = Key(dictVer: nat, text: Text, lang: string)
  datatype Cached = Readable(t: Text) | Unreadable

  // ---- The greedy cut ----

  /** The index at which collecting work stops, from `i` on with `count` strings of `chars` characters. */
  function CutFrom(texts: seq<Text>, i: nat, count: nat, chars: nat): nat
    requires i <= |texts|
    decreases |texts| - i
  {
    if i == |texts| || count >= MAX_STRINGS then i
    else if texts[i] == [] then CutFrom(texts, i + 1, count, chars)
    else if chars + |texts[i]| > MAX_CHARS then i
    else CutFrom(texts, i + 1, count + 1, chars + |texts[i]|)
  }

  function Cut(texts: seq<Text>): nat { CutFrom(texts, 0, 0, 0) }

  /** The texts that are not empty, in order. */
  function NonEmpty(texts: seq<Text>): seq<Text> {
    if texts == [] then []
    else
      var before, x := NonEmpty(texts[..|texts| - 1]), texts[|texts| - 1];
      if x == [] then before else before + [x]
  }

  function TotalChars(texts: seq<Text>): nat {
    if texts == [] then 0 else TotalChars(texts[..|texts| - 1]) + |texts[|texts| - 1]|
  }

  lemma Grow(texts: seq<Text>, i: nat)
    requires i < |texts|
    ensures NonEmpty(texts[..i + 1]) == NonEmpty(texts[..i]) + (if texts[i] == [] then [] else [texts[i]])
    ensures TotalChars(texts[..i + 1]) == TotalChars(texts[..i]) + |texts[i]|
  {
    assert texts[..i + 1][..i] == texts[..i];
  }

  lemma {:induction false} CutFromProperties(texts: seq<Text>, i: nat)
    requires i <= |texts| && |NonEmpty(texts[..i])| <= MAX_STRINGS && TotalChars(texts[..i]) <= MAX_CHARS
    ensures var cut := CutFrom(texts, i, |NonEmpty(texts[..i])|, TotalChars(texts[..i]));
            && i <= cut <= |texts|
            && |NonEmpty(texts[..cut])| <= MAX_STRINGS && TotalChars(texts[..cut]) <= MAX_CHARS
            && (cut < |texts| ==> |NonEmpty(texts[..cut])| == MAX_STRINGS || TotalChars(texts[..cut + 1]) > MAX_CHARS)
    decreases |texts| - i
  {
    if i < |texts| && |NonEmpty(texts[..i])| < MAX_STRINGS {
      Grow(texts, i);
      if TotalChars(texts[..i + 1]) <= MAX_CHARS { CutFromProperties(texts, i + 1); }
    }
  }

  /** The cut leaves at most 200 strings and 120000 characters before it, and cannot be moved on. */
  lemma CutProperties(texts: seq<Text>)
    ensures Cut(texts) <= |texts|
    ensures |NonEmpty(texts[..Cut(texts)])| <= MAX_STRINGS && TotalChars(texts[..Cut(texts)]) <= MAX_CHARS
    ensures Cut(texts) < |texts| ==>
              |NonEmpty(texts[..Cut(texts)])| == MAX_STRINGS || TotalChars(texts[..Cut(texts) + 1]) > MAX_CHARS
  {
    assert texts[..0] == [];
    CutFromProperties(texts, 0);
  }

  // ---- One provider string per distinct text ----

  /** `[...new Set(s)]` */
  function Distinct(s: seq<Text>): seq<Text> {
    if s == [] then []
    else
      var before, x := Distinct(s[..|s| - 1]), s[|s| - 1];
      if x in before then before else before + [x]
  }

  lemma {:induction false} DistinctProperties(s: seq<Text>)
    ensures forall x :: x in Distinct(s) <==> x in s
    ensures forall i, j :: 0 <= i < j < |Distinct(s)| ==> Distinct(s)[i] != Distinct(s)[j]
  {
    if s != [] {
      DistinctProperties(s[..|s| - 1]);
      assert s == s[..|s| - 1] + [s[|s| - 1]];
    }
  }

  function Reading(cache: map<Key, Cached>, dictVer: nat, lang: string, readsFail: bool, x: Text): Option<Text> {
    var k := Key(dictVer, x, lang);
    if !readsFail && k in cache && cache[k].Readable? then Some(cache[k].t) else None
  }

  function Misses(cache: map<Key, Cached>, dictVer: nat, lang: string, readsFail: bool, xs: seq<Text>): seq<Text> {
    if xs == [] then []
    else
      var before, x := Misses(cache, dictVer, lang, readsFail, xs[..|xs| - 1]), xs[|xs| - 1];
      if Reading(cache, dictVer, lang, readsFail, x).None? then before + [x] else before
  }

  lemma {:induction false} MissesProperties(cache: map<Key, Cached>, dictVer: nat, lang: string, readsFail: bool, xs: seq<Text>)
    ensures var m := Misses(cache, dictVer, lang, readsFail, xs);
            && (forall x :: x in m <==> x in xs && Reading(cache, dictVer, lang, readsFail, x).None?)
            && ((forall i, j :: 0 <= i < j < |xs| ==> xs[i] != xs[j]) ==> forall i, j :: 0 <= i < j < |m| ==> m[i] != m[j])
  {
    if xs != [] {
      MissesProperties(cache, dictVer, lang, readsFail, xs[..|xs| - 1]);
      assert xs == xs[..|xs| - 1] + [xs[|xs| - 1]];
    }
  }

  /** The cache after the values of these misses are stored; a value equal to its source is not, and
      a failed write is ignored. */
  function Stored(cache: map<Key, Cached>, dictVer: nat, lang: string, value: Text -> Text, writes: Text -> bool,
                  misses: seq<Text>): map<Key, Cached> {
    if misses == [] then cache
    else
      var before, x := Stored(cache, dictVer, lang, value, writes, misses[..|misses| - 1]), misses[|misses| - 1];
      if (value(x) == x && x != []) || !writes(x) then before
      else before[Key(dictVer, x, lang) := Readable(value(x))]
  }

  lemma StoredNothing(cache: map<Key, Cached>, dictVer: nat, lang: string, value: Text -> Text, writes: Text -> bool)
    ensures Stored(cache, dictVer, lang, value, writes, []) == cache
  {
  }

  lemma StoredOneMore(cache: map<Key, Cached>, dictVer: nat, lang: string, value: Text -> Text, writes: Text -> bool,
                      misses: seq<Text>, x: Text)
    ensures var before := Stored(cache, dictVer, lang, value, writes, misses);
            Stored(cache, dictVer, lang, value, writes, misses + [x]) ==
            if (value(x) == x && x != []) || !writes(x) then before else before[Key(dictVer, x, lang) := Readable(value(x))]
  {
    assert (misses + [x])[..|misses|] == misses;
  }

  lemma {:induction false} StoredAt(cache: map<Key, Cached>, dictVer: nat, lang: string, value: Text -> Text, writes: Text -> bool,
                                    misses: seq<Text>, k: Key)
    ensures var after := Stored(cache, dictVer, lang, value, writes, misses);
            var stored := k.dictVer == dictVer && k.lang == lang && k.text in misses
                          && (value(k.text) != k.text || k.text == []) && writes(k.text);
            if stored then k in after && after[k] == Readable(value(k.text))
            else (k in after <==> k in cache) && (k in cache ==> after[k] == cache[k])
  {
    if misses != [] {
      StoredAt(cache, dictVer, lang, value, writes, misses[..|misses| - 1], k);
      assert misses == misses[..|misses| - 1] + [misses[|misses| - 1]];
    }
  }

  /** What a text before the cut becomes. */
  function Answer(cache: map<Key, Cached>, dictVer: nat, lang: string, readsFail: bool, value: Text -> Text, x: Text): Text {
    var r := Reading(cache, dictVer, lang, readsFail, x);
    if r.Some? then r.value else value(x)
  }

  /** The output of a batch of normalised texts. */
  function Outputs(cache: map<Key, Cached>, dictVer: nat, lang: string, readsFail: bool, value: Text -> Text, texts: seq<Text>): seq<Text> {
    seq(|texts|, i requires 0 <= i < |texts| =>
      if i < Cut(texts) && texts[i] != [] then Answer(cache, dictVer, lang, readsFail, value, texts[i]) else texts[i])
  }

  /** The texts given to the provider. */
  function Sent(cache: map<Key, Cached>, dictVer: nat, lang: string, readsFail: bool, texts: seq<Text>): seq<Text> {
    CutFromInRange(texts, 0, 0, 0);
    Misses(cache, dictVer, lang, readsFail, Distinct(NonEmpty(texts[..Cut(texts)])))
  }

  lemma {:induction false} CutFromInRange(texts: seq<Text>, i: nat, count: nat, chars: nat)
    requires i <= |texts|
    ensures i <= CutFrom(texts, i, count, chars) <= |texts|
    decreases |texts| - i
  {
    if i < |texts| {
      CutFromInRange(texts, i + 1, count, chars);
      CutFromInRange(texts, i + 1, count + 1, chars + |texts[i]|);
    }
  }

  // ---- The batch against pointwise translation ----

  /** Every readable entry is the translation its key asks for. */
  ghost predicate Sound(cache: map<Key, Cached>, meaning: Key -> Text) {
    forall k :: k in cache && cache[k].Readable? ==> cache[k].t == meaning(k)
  }

  ghost predicate Agrees(value: Text -> Text, meaning: Key -> Text, dictVer: nat, lang: string) {
    forall x :: value(x) == meaning(Key(dictVer, x, lang))
  }

  /** With a sound cache and a provider that translates string by string, each output before the cut
      is the translation of its own text and each later one its text, no text is sent twice, and the
      cache stays sound whatever reads and writes fail. */
  lemma RefinesPointwise(cache: map<Key, Cached>, dictVer: nat, lang: string, readsFail: bool, value: Text -> Text,
                         writes: Text -> bool, texts: seq<Text>, meaning: Key -> Text)
    requires Sound(cache, meaning) && Agrees(value, meaning, dictVer, lang)
    ensures var out := Outputs(cache, dictVer, lang, readsFail, value, texts);
            && |out| == |texts|
            && forall i :: 0 <= i < |texts| ==>
                 out[i] == if i < Cut(texts) && texts[i] != [] then meaning(Key(dictVer, texts[i], lang)) else texts[i]
    ensures var sent := Sent(cache, dictVer, lang, readsFail, texts);
            && (forall i, j :: 0 <= i < j < |sent| ==> sent[i] != sent[j])
            && Sound(Stored(cache, dictVer, lang, value, writes, sent), meaning)
  {
    CutFromInRange(texts, 0, 0, 0);
    var xs := Distinct(NonEmpty(texts[..Cut(texts)]));
    DistinctProperties(NonEmpty(texts[..Cut(texts)]));
    MissesProperties(cache, dictVer, lang, readsFail, xs);
    var sent := Sent(cache, dictVer, lang, readsFail, texts);
    var after := Stored(cache, dictVer, lang, value, writes, sent);
    forall k | k in after && after[k].Readable? ensures after[k].t == meaning(k) {
      StoredAt(cache, dictVer, lang, value, writes, sent, k);
      assert value(k.text) == meaning(Key(dictVer, k.text, lang));
    }
  }

  /** A provider that fails leaves the source text in its place and the cache as it was. */
  lemma FailureStoresNothing(cache: map<Key, Cached>, dictVer: nat, lang: string, readsFail: bool, value: Text -> Text,
                             writes: Text -> bool, texts: seq<Text>)
    requires forall x :: value(x) == x
    ensures Stored(cache, dictVer, lang, value, writes, Sent(cache, dictVer, lang, readsFail, texts)) == cache
  {
    CutFromInRange(texts, 0, 0, 0);
    var work := NonEmpty(texts[..Cut(texts)]);
    var sent := Sent(cache, dictVer, lang, readsFail, texts);
    DistinctProperties(work);
    MissesProperties(cache, dictVer, lang, readsFail, Distinct(work));
    NonEmptyElements(texts[..Cut(texts)]);
    var after := Stored(cache, dictVer, lang, value, writes, sent);
    forall k ensures (k in after <==> k in cache) && (k in cache ==> after[k] == cache[k]) {
      StoredAt(cache, dictVer, lang, value, writes, sent, k);
    }
  }

  lemma {:induction false} NonEmptyElements(texts: seq<Text>)
    ensures forall x :: x in NonEmpty(texts) <==> x in texts && x != []
  {
    if texts != [] {
      NonEmptyElements(texts[..|texts| - 1]);
      assert texts == texts[..|texts| - 1] + [texts[|texts| - 1]];
    }
  }

  /** The same batch again, with working reads and writes, asks the provider only for texts whose
      translation is the text itself. */
  lemma RepeatedBatch(cache: map<Key, Cached>, dictVer: nat, lang: string, value: Text -> Text, texts: seq<Text>, x: Text)
    ensures var sent := Sent(cache, dictVer, lang, false, texts);
            var after := Stored(cache, dictVer, lang, value, y => true, sent);
            x in Sent(after, dictVer, lang, false, texts) <==> x in sent && value(x) == x
  {
    CutFromInRange(texts, 0, 0, 0);
    var xs := Distinct(NonEmpty(texts[..Cut(texts)]));
    var sent := Sent(cache, dictVer, lang, false, texts);
    var after := Stored(cache, dictVer, lang, value, y => true, sent);
    DistinctProperties(NonEmpty(texts[..Cut(texts)]));
    NonEmptyElements(texts[..Cut(texts)]);
    MissesProperties(cache, dictVer, lang, false, xs);
    MissesProperties(after, dictVer, lang, false, xs);
    StoredAt(cache, dictVer, lang, value, y => true, sent, Key(dictVer, x, lang));
  }

  // ---- The service ----

  datatype Work = Work(idx: nat, text: Text)

  function TextsOf(work: seq<Work>): seq<Text> {
    seq(|work|, i requires 0 <= i < |work| => work[i].text)
  }

  /** The work list is the non-empty texts before `i`, each with its own index. */
  ghost predicate Collected(work: seq<Work>, texts: seq<Text>, i: nat)
    requires i <= |texts|
  {
    && TextsOf(work) == NonEmpty(texts[..i])
    && (forall j :: 0 <= j < |work| ==> work[j].idx < i && texts[work[j].idx] == work[j].text && work[j].text != [])
    && (forall n: nat :: n < i && texts[n] != [] ==> exists j :: 0 <= j < |work| && work[j].idx == n)
  }

  lemma CollectedMore(work: seq<Work>, texts: seq<Text>, i: nat)
    requires i < |texts| && Collected(work, texts, i) && texts[i] != []
    ensures Collected(work + [Work(i, texts[i])], texts, i + 1)
  {
    var more := work + [Work(i, texts[i])];
    Grow(texts, i);
    assert TextsOf(more) == TextsOf(work) + [texts[i]];
    forall n: nat | n < i + 1 && texts[n] != [] ensures exists j :: 0 <= j < |more| && more[j].idx == n {
      if n == i {
        assert more[|work|].idx == n;
      } else {
        var j :| 0 <= j < |work| && work[j].idx == n;
        assert more[j].idx == n;
      }
    }
  }

  lemma CollectedSame(work: seq<Work>, texts: seq<Text>, i: nat)
    requires i < |texts| && Collected(work, texts, i) && texts[i] == []
    ensures Collected(work, texts, i + 1)
  {
    Grow(texts, i);
  }

  lemma CutStep(texts: seq<Text>, i: nat, count: nat, chars: nat)
    requires i < |texts|
    ensures CutFrom(texts, i, count, chars) ==
            if count >= MAX_STRINGS then i
            else if texts[i] == [] then CutFrom(texts, i + 1, count, chars)
            else if chars + |texts[i]| > MAX_CHARS then i
            else CutFrom(texts, i + 1, count + 1, chars + |texts[i]|)
  {
  }

  method Collect(texts: seq<Text>) returns (work: seq<Work>)
    ensures Cut(texts) <= |texts| && Collected(work, texts, Cut(texts))
  {
    work := [];
    var charBudget: nat, idx: nat := 0, 0;
    assert texts[..0] == [];
    while idx < |texts|
      invariant idx <= |texts| && Collected(work, texts, idx)
      invariant CutFrom(texts, idx, |work|, charBudget) == Cut(texts)
    {
      hide CutFrom, Collected;
      CutStep(texts, idx, |work|, charBudget);
      if |work| >= MAX_STRINGS { break; }
      var t := texts[idx];
      if t != [] {
        if charBudget + |t| > MAX_CHARS { break; }
        CollectedMore(work, texts, idx);
        charBudget, work := charBudget + |t|, work + [Work(idx, t)];
      } else {
        CollectedSame(work, texts, idx);
      }
      idx := idx + 1;
    }
    CutFromInRange(texts, idx, |work|, charBudget);
  }

  lemma NothingToDo(cache: map<Key, Cached>, dictVer: nat, lang: string, readsFail: bool, value: Text -> Text,
                    writes: Text -> bool, texts: seq<Text>)
    requires Cut(texts) <= |texts| && Collected([], texts, Cut(texts))
    ensures Outputs(cache, dictVer, lang, readsFail, value, texts) == texts
    ensures Stored(cache, dictVer, lang, value, writes, Sent(cache, dictVer, lang, readsFail, texts)) == cache
  {
    assert TextsOf([]) == [];
    assert Sent(cache, dictVer, lang, readsFail, texts) == [];
  }

  class TranslationService {
    var cache: map<Key, Cached>

    constructor ()
      ensures cache == map[]
    {
      cache := map[];
    }

    /** The values of the misses, each stored unless it equals its source or the write fails. */
    method StoreMisses(misses: seq<Text>, pieces: seq<Text>, dictVer: nat, lang: string, value: Text -> Text,
                       writes: Text -> bool, hits: map<Text, Text>) returns (translated: map<Text, Text>)
      requires |pieces| == |misses| && forall i :: 0 <= i < |misses| ==> pieces[i] == value(misses[i])
      modifies this
      ensures cache == Stored(old(cache), dictVer, lang, value, writes, misses)
      ensures forall x :: x in translated <==> x in hits || x in misses
      ensures forall x :: x in translated ==> translated[x] == if x in misses then value(x) else hits[x]
    {
      hide Stored;
      translated := hits;
      var i := 0;
      StoredNothing(cache, dictVer, lang, value, writes);
      assert misses[..0] == [];
      while i < |misses|
        invariant i <= |misses|
        invariant cache == Stored(old(cache), dictVer, lang, value, writes, misses[..i])
        invariant forall x :: x in translated <==> x in hits || x in misses[..i]
        invariant forall x :: x in translated ==> translated[x] == if x in misses[..i] then value(x) else hits[x]
      {
        var src, val := misses[i], pieces[i];
        assert misses[..i + 1] == misses[..i] + [src];
        StoredOneMore(old(cache), dictVer, lang, value, writes, misses[..i], src);
        translated := translated[src := val];
        if !(val == src && src != []) && writes(src) {
          cache := cache[Key(dictVer, src, lang) := Readable(val)];
        }
        i := i + 1;
      }
      assert misses[..|misses|] == misses;
    }

    /** The cached translations of the distinct texts, and those texts that have none. */
    method ReadCache(xs: seq<Text>, dictVer: nat, lang: string, readsFail: bool)
      returns (hits: map<Text, Text>, misses: seq<Text>)
      ensures misses == Misses(cache, dictVer, lang, readsFail, xs)
      ensures forall x :: x in hits <==> x in xs && Reading(cache, dictVer, lang, readsFail, x).Some?
      ensures forall x :: x in hits ==> hits[x] == Reading(cache, dictVer, lang, readsFail, x).value
    {
      hits, misses := map[], [];
      var i := 0;
      while i < |xs|
        invariant i <= |xs| && misses == Misses(cache, dictVer, lang, readsFail, xs[..i])
        invariant forall x :: x in hits <==> x in xs[..i] && Reading(cache, dictVer, lang, readsFail, x).Some?
        invariant forall x :: x in hits ==> hits[x] == Reading(cache, dictVer, lang, readsFail, x).value
      {
        var r := Reading(cache, dictVer, lang, readsFail, xs[i]);
        assert xs[..i + 1] == xs[..i] + [xs[i]];
        assert xs[..i + 1][..i] == xs[..i];
        if r.Some? { hits := hits[xs[i] := r.value]; } else { misses := misses + [xs[i]]; }
        i := i + 1;
      }
      assert xs[..|xs|] == xs;
    }

    /** `translateBatch`: `active` stands for the runtime switch and the feature flag, `fails` for an
        error of the provider, `readsFail` and `writes` for errors of the cache. */
    method TranslateBatch(inputs: seq<Text>, lang: string, active: bool, normalize: Text -> Text,
                          fold: CodeUnit -> CodeUnit, terms: seq<Text>, dictVer: nat, provider: Text -> Text, fails: bool,
                          readsFail: bool, writes: Text -> bool)
      returns (outputs: seq<Text>)
      modifies this
      ensures lang == "en" || inputs == [] || !active ==> outputs == inputs && cache == old(cache)
      ensures lang != "en" && inputs != [] && active ==>
        var texts := seq(|inputs|, i requires 0 <= i < |inputs| => normalize(inputs[i]));
        var value := (x: Text) => if fails then x else Through(fold, terms, provider, x);
        && outputs == Outputs(old(cache), dictVer, lang, readsFail, value, texts)
        && cache == Stored(old(cache), dictVer, lang, value, writes, Sent(old(cache), dictVer, lang, readsFail, texts))
    {
      hide Distinct, NonEmpty, Cut, Stored, Misses, Through;
      if lang == "en" || inputs == [] || !active { return inputs; }
      var texts := seq(|inputs|, i requires 0 <= i < |inputs| => normalize(inputs[i]));
      var value := (x: Text) => if fails then x else Through(fold, terms, provider, x);
      var work := Collect(texts);
      ghost var cut := Cut(texts);
      var xs := Distinct(TextsOf(work));
      DistinctProperties(TextsOf(work));
      MissesProperties(cache, dictVer, lang, readsFail, xs);
      outputs := texts;
      if work == [] {
        NothingToDo(old(cache), dictVer, lang, readsFail, value, writes, texts);
        return;
      }
      var hits, misses := ReadCache(xs, dictVer, lang, readsFail);
      var pieces := seq(|misses|, i requires 0 <= i < |misses| => value(misses[i]));
      ghost var start := cache;
      var translated := StoreMisses(misses, pieces, dictVer, lang, value, writes, hits);
      assert forall x :: x in xs ==> x in translated && translated[x] == Answer(start, dictVer, lang, readsFail, value, x);
      outputs := Place(texts, work, translated, x => Answer(start, dictVer, lang, readsFail, value, x), cut);
    }
  }

  /** The translations written back to the places their texts came from. */
  method Place(texts: seq<Text>, work: seq<Work>, translated: map<Text, Text>, ghost answer: Text -> Text, ghost cut: nat)
    returns (outputs: seq<Text>)
    requires cut <= |texts| && Collected(work, texts, cut)
    requires forall x :: x in TextsOf(work) ==> x in translated && translated[x] == answer(x)
    ensures |outputs| == |texts|
    ensures forall i :: 0 <= i < |texts| ==> outputs[i] == if i < cut && texts[i] != [] then answer(texts[i]) else texts[i]
  {
    outputs := texts;
    var w := 0;
    while w < |work|
      invariant w <= |work| && |outputs| == |texts|
      invariant forall i :: 0 <= i < |texts| ==>
                  outputs[i] == if exists j :: 0 <= j < w && work[j].idx == i then answer(texts[i]) else texts[i]
    {
      var row := work[w];
      assert TextsOf(work)[w] == row.text;
      if row.text in translated { outputs := outputs[row.idx := translated[row.text]]; }
      w := w + 1;
    }
  }
}
