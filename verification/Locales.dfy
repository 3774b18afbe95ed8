/** Translating a locale in batches: cutting the missing texts up, joining the answers, and putting each beside its
    key. */
module Locales {
  import opened Options

  const BATCH_SIZE: nat := 50

  // ---- batches ----

  function Chunks<T>(a: seq<T>, size: nat): seq<seq<T>>
    requires size > 0
    decreases |a|
  {
    if a == [] then [] else if |a| <= size then [a] else [a[..size]] + Chunks(a[size..], size)
  }

  function Flat<T>(parts: seq<seq<T>>): seq<T> {
    if parts == [] then [] else parts[0] + Flat(parts[1..])
  }

  function Offset<T>(parts: seq<seq<T>>, b: nat): nat
    requires b <= |parts|
  {
    if b == 0 then 0 else |parts[0]| + Offset(parts[1..], b - 1)
  }

  method Chunk<T>(a: seq<T>, size: nat) returns (out: seq<seq<T>>)
    requires size > 0
    ensures out == Chunks(a, size)
  {
    out := [];
    var i := 0;
    while i < |a|
      invariant 0 <= i
      invariant out + (if i < |a| then Chunks(a[i..], size) else []) == Chunks(a, size)
    {
      var end := if i + size <= |a| then i + size else |a|;
      NextChunk(a, i, end, size);
      ghost var rest := if end < |a| then Chunks(a[end..], size) else [];
      assert out + ([a[i..end]] + rest) == out + [a[i..end]] + rest;
      out := out + [a[i..end]];
      i := i + size;
    }
  }

  lemma NextChunk<T>(a: seq<T>, i: nat, end: nat, size: nat)
    requires i < end <= |a| && size > 0 && (end == i + size || end == |a| < i + size)
    ensures Chunks(a[i..], size) == [a[i..end]] + if end < |a| then Chunks(a[end..], size) else []
  {
    if end < |a| {
      assert a[i..][..size] == a[i..end] && a[i..][size..] == a[end..];
    } else {
      assert a[i..end] == a[i..];
    }
  }

  /** The batches make up the list, and every batch but the last is full. */
  lemma {:induction false} ChunksMakeUp<T>(a: seq<T>, size: nat)
    requires size > 0
    ensures Flat(Chunks(a, size)) == a
    ensures forall b :: 0 <= b < |Chunks(a, size)| ==> 0 < |Chunks(a, size)[b]| <= size
    ensures forall b :: 0 <= b < |Chunks(a, size)| - 1 ==> |Chunks(a, size)[b]| == size
    decreases |a|
  {
    var c := Chunks(a, size);
    if a != [] && |a| > size {
      ChunksMakeUp(a[size..], size);
      assert c[1..] == Chunks(a[size..], size);
      assert a[..size] + a[size..] == a;
    } else if a != [] {
      assert Flat([a]) == a + Flat([]);
    }
  }

  lemma {:induction false} FlatAt<T>(parts: seq<seq<T>>, b: nat, j: nat)
    requires b < |parts| && j < |parts[b]|
    ensures Offset(parts, b) + j < |Flat(parts)| && Flat(parts)[Offset(parts, b) + j] == parts[b][j]
  {
    if b > 0 {
      FlatAt(parts[1..], b - 1, j);
    }
  }

  lemma {:induction false} OffsetNext<T>(parts: seq<seq<T>>, b: nat)
    requires b < |parts|
    ensures Offset(parts, b + 1) == Offset(parts, b) + |parts[b]|
  {
    if b > 0 {
      OffsetNext(parts[1..], b - 1);
    }
  }

  // ---- which answer ends up where ----

  /** Every answer marked with its batch and its place in it. */
  predicate Marked(parts: seq<seq<(nat, nat)>>) {
    forall b :: 0 <= b < |parts| ==> forall j :: 0 <= j < |parts[b]| ==> parts[b][j] == (b, j)
  }

  lemma {:induction false} FromSomePart<T>(parts: seq<seq<T>>, x: T)
    ensures x in Flat(parts) <==> exists b :: 0 <= b < |parts| && x in parts[b]
  {
    if parts != [] {
      FromSomePart(parts[1..], x);
      assert forall b :: 0 < b < |parts| ==> parts[b] == parts[1..][b - 1];
      if x in Flat(parts[1..]) {
        var b :| 0 <= b < |parts[1..]| && x in parts[1..][b];
        assert x in parts[b + 1];
      }
    }
  }

  predicate MeetsOwn(parts: seq<seq<(nat, nat)>>, p: nat) {
    p < |Flat(parts)| && Flat(parts)[p] == (p / 50, p % 50)
  }

  /** Each of the first `n` texts meets its own answer. */
  predicate InPlace(parts: seq<seq<(nat, nat)>>, n: nat) {
    forall p :: 0 <= p < n ==> MeetsOwn(parts, p)
  }

  lemma {:induction false} OffsetsLineUp<T>(parts: seq<seq<T>>, b: nat)
    requires b < |parts| && forall c :: 0 <= c < b ==> |parts[c]| == 50
    ensures Offset(parts, b) == 50 * b
  {
    if b > 0 {
      OffsetsLineUp(parts, b - 1);
      OffsetNext(parts, b - 1);
    }
  }

  lemma {:induction false} FullBatches(parts: seq<seq<(nat, nat)>>, n: nat, b: nat)
    requires Marked(parts) && InPlace(parts, n) && b < |parts| && 50 * (|parts| - 1) < n
    ensures forall c :: 0 <= c < b ==> |parts[c]| == 50
  {
    if b > 0 {
      FullBatches(parts, n, b - 1);
      OffsetsLineUp(parts, b - 1);
      var c, size := b - 1, |parts[b - 1]|;
      if size < 50 {
        var p := 50 * c + size;
        assert p < n && p / 50 == c && p % 50 == size;
        assert MeetsOwn(parts, p) && Flat(parts)[p] == (c, size);
        OwnPlaceOnly(parts, c, size);
      }
      NotTooLong(parts, n, c);
    }
  }

  lemma NotTooLong(parts: seq<seq<(nat, nat)>>, n: nat, c: nat)
    requires Marked(parts) && InPlace(parts, n) && c < |parts| && 50 * (c + 1) < n && Offset(parts, c) == 50 * c
    ensures |parts[c]| <= 50
  {
    assert MeetsOwn(parts, 50 * (c + 1));
    if |parts[c]| > 50 {
      FlatAt(parts, c, 50);
    }
  }

  lemma OwnPlaceOnly(parts: seq<seq<(nat, nat)>>, b: nat, j: nat)
    requires Marked(parts) && b < |parts| && (b, j) in Flat(parts)
    ensures j < |parts[b]|
  {
    FromSomePart(parts, (b, j));
    var c :| 0 <= c < |parts| && (b, j) in parts[c];
    var k :| 0 <= k < |parts[c]| && parts[c][k] == (b, j);
  }

  /** Every text meets its own answer exactly when each batch but the last came back with one answer a text, and the
      last with no fewer. A batch that was refused counts as its own texts. */
  lemma AlignedExactlyWhen(parts: seq<seq<(nat, nat)>>, n: nat)
    requires Marked(parts) && parts != [] && 50 * (|parts| - 1) < n <= 50 * |parts|
    ensures InPlace(parts, n) <==>
      && (forall b :: 0 <= b < |parts| - 1 ==> |parts[b]| == 50)
      && |parts[|parts| - 1]| >= n - 50 * (|parts| - 1)
  {
    var last := |parts| - 1;
    if InPlace(parts, n) {
      FullBatches(parts, n, last);
      var j := n - 1 - 50 * last;
      assert (n - 1) / 50 == last && (n - 1) % 50 == j;
      assert MeetsOwn(parts, n - 1) && Flat(parts)[n - 1] == (last, j);
      OwnPlaceOnly(parts, last, j);
    }
    if (forall b :: 0 <= b < last ==> |parts[b]| == 50) && |parts[last]| >= n - 50 * last {
      forall p | 0 <= p < n
        ensures MeetsOwn(parts, p)
      {
        assert p / 50 <= last && (p / 50 < last ==> |parts[p / 50]| == 50);
        assert p / 50 == last ==> p % 50 < n - 50 * last;
        OffsetsLineUp(parts, p / 50);
        FlatAt(parts, p / 50, p % 50);
      }
    }
  }

  /** It happens: of sixty texts the first fifty come back as forty-nine, and the fiftieth takes the answer to the
      fifty-first. */
  lemma ShortBatchShifts()
    ensures var parts := [seq(49, j => (0, j)), seq(10, j => (1, j))];
      Marked(parts) && !InPlace(parts, 60) && |Flat(parts)| > 49 && Flat(parts)[49] == (1, 0)
  {
    var parts: seq<seq<(nat, nat)>> := [seq(49, j => (0, j)), seq(10, j => (1, j))];
    assert Marked(parts) && |parts[0]| == 49;
    AlignedExactlyWhen(parts, 60);
    assert Offset(parts, 1) == |parts[0]| + Offset(parts[1..], 0);
    FlatAt(parts, 1, 0);
  }

  // ---- one locale ----

  type Locale = map<string, string>

  /** A key without a translation, or with an empty one, is translated (again). */
  predicate IsMissing(existing: Locale, key: string) {
    key !in existing || existing[key] == ""
  }

  /** The places of the missing keys, in order. */
  function Missing(keys: seq<string>, existing: Locale): (todo: seq<nat>)
    ensures |todo| <= |keys| && forall i :: 0 <= i < |todo| ==>
      i <= todo[i] < |keys| && IsMissing(existing, keys[todo[i]])
    ensures forall i, j :: 0 <= i < j < |todo| ==> todo[i] < todo[j]
  {
    if keys == [] then []
    else
      var rest := Missing(keys[..|keys| - 1], existing);
      if IsMissing(existing, keys[|keys| - 1]) then rest + [|keys| - 1] else rest
  }

  lemma {:induction false} MissingPlaces(keys: seq<string>, existing: Locale, k: nat)
    requires k < |keys|
    ensures k in Missing(keys, existing) <==> IsMissing(existing, keys[k])
  {
    if k < |keys| - 1 {
      MissingPlaces(keys[..|keys| - 1], existing, k);
    }
  }

  function TextsAt(values: seq<string>, todo: seq<nat>): (texts: seq<string>)
    requires forall i :: 0 <= i < |todo| ==> todo[i] < |values|
    ensures |texts| == |todo| && forall i :: 0 <= i < |todo| ==> texts[i] == values[todo[i]]
  {
    seq(|todo|, i requires 0 <= i < |todo| => values[todo[i]])
  }

  /** What the service answers to each batch: none is a failed call, and single answers may be null. */
  type Answers = nat -> Option<seq<Option<string>>>

  function Texts(batch: seq<string>): (r: seq<Option<string>>)
    ensures |r| == |batch| && forall j :: 0 <= j < |r| ==> r[j] == Some(batch[j])
  {
    seq(|batch|, j requires 0 <= j < |batch| => Some(batch[j]))
  }

  /** What each batch adds: its answers, or its own texts if the call fails. */
  function Contributions(batches: seq<seq<string>>, answers: Answers): (parts: seq<seq<Option<string>>>)
    ensures |parts| == |batches|
    ensures forall b :: 0 <= b < |parts| ==>
      parts[b] == if answers(b).Some? then answers(b).value else Texts(batches[b])
  {
    seq(|batches|, b requires 0 <= b < |batches| => if answers(b).Some? then answers(b).value else Texts(batches[b]))
  }

  /** A missing key takes the translation at its place among the missing; if there is none, or it is null, it takes
      the English text at that place among all keys, which is another key's. */
  function TextFor(values: seq<string>, translated: seq<Option<string>>, i: nat): string
    requires i < |values|
  {
    if i < |translated| && translated[i].Some? then translated[i].value else values[i]
  }

  function Translated(texts: seq<string>, answers: Answers): seq<Option<string>> {
    Flat(Contributions(Chunks(texts, BATCH_SIZE), answers))
  }

  lemma {:induction false} FlatSnoc<T>(parts: seq<seq<T>>, part: seq<T>)
    ensures Flat(parts + [part]) == Flat(parts) + part
  {
    if parts == [] {
      assert parts + [part] == [part] && Flat([part]) == part + Flat([]);
    } else {
      assert (parts + [part])[1..] == parts[1..] + [part];
      FlatSnoc(parts[1..], part);
    }
  }

  method TranslateBatches(texts: seq<string>, answers: Answers) returns (translated: seq<Option<string>>)
    ensures translated == Translated(texts, answers)
  {
    var batches := Chunk(texts, BATCH_SIZE);
    ghost var parts := Contributions(batches, answers);
    translated := [];
    for b := 0 to |batches|
      invariant translated == Flat(parts[..b])
    {
      assert parts[..b + 1] == parts[..b] + [parts[b]];
      FlatSnoc(parts[..b], parts[b]);
      translated := translated + if answers(b).Some? then answers(b).value else Texts(batches[b]);
    }
    assert parts[..|batches|] == parts;
  }

  method CollectMissing(keys: seq<string>, existing: Locale) returns (todo: seq<nat>)
    ensures todo == Missing(keys, existing)
  {
    todo := [];
    for k := 0 to |keys|
      invariant todo == Missing(keys[..k], existing)
    {
      assert keys[..k + 1][..k] == keys[..k];
      if IsMissing(existing, keys[k]) {
        todo := todo + [k];
      }
    }
    assert keys[..|keys|] == keys;
  }

  ghost predicate Ascending(todo: seq<nat>, n: nat) {
    && (forall i :: 0 <= i < |todo| ==> i <= todo[i] < n)
    && (forall i, j :: 0 <= i < j < |todo| ==> todo[i] < todo[j])
  }

  /** The missing keys take their texts, one after the other. */
  method Merge(keys: seq<string>, values: seq<string>, existing: Locale, todo: seq<nat>,
      translated: seq<Option<string>>)
    returns (output: Locale)
    requires |keys| == |values| && Ascending(todo, |keys|) && forall i, j :: 0 <= i < j < |keys| ==> keys[i] != keys[j]
    ensures forall i :: 0 <= i < |todo| ==>
      keys[todo[i]] in output && output[keys[todo[i]]] == TextFor(values, translated, i)
    ensures forall k :: 0 <= k < |keys| && k !in todo && keys[k] in existing ==>
      keys[k] in output && output[keys[k]] == existing[keys[k]]
  {
    hide TextFor;
    output := existing;
    for i := 0 to |todo|
      invariant forall j :: 0 <= j < i ==>
        keys[todo[j]] in output && output[keys[todo[j]]] == TextFor(values, translated, j)
      invariant forall k :: 0 <= k < |keys| && k !in todo && keys[k] in existing ==>
        keys[k] in output && output[keys[k]] == existing[keys[k]]
    {
      output := output[keys[todo[i]] := TextFor(values, translated, i)];
    }
  }

  /** The lines of a locale's file: every key of the English file in its order, with its text. */
  type Lines = seq<(string, string)>

  ghost predicate Writes(keys: seq<string>, values: seq<string>, existing: Locale, answers: Answers, lines: Lines)
    requires |keys| == |values|
  {
    var todo := Missing(keys, existing);
    && |lines| == |keys| && Ascending(todo, |keys|)
    && (forall k :: 0 <= k < |keys| ==> lines[k].0 == keys[k])
    && (forall k :: 0 <= k < |keys| && !IsMissing(existing, keys[k]) ==> lines[k].1 == existing[keys[k]])
    && var translated := Translated(TextsAt(values, todo), answers);
       forall i :: 0 <= i < |todo| ==> lines[todo[i]].1 == TextFor(values, translated, i)
  }

  method InOrder(keys: seq<string>, output: Locale) returns (lines: Lines)
    requires forall k :: 0 <= k < |keys| ==> keys[k] in output
    ensures |lines| == |keys| && forall k :: 0 <= k < |keys| ==> lines[k] == (keys[k], output[keys[k]])
  {
    lines := [];
    for k := 0 to |keys|
      invariant |lines| == k && forall j :: 0 <= j < k ==> lines[j] == (keys[j], output[keys[j]])
    {
      lines := lines + [(keys[k], output[keys[k]])];
    }
  }

  /** translateLanguage: nothing is written when no key is missing; otherwise every key of the English file in its
      order, with the translation it had, or what was found for it. */
  method TranslateLanguage(keys: seq<string>, values: seq<string>, existing: Locale, answers: Answers)
    returns (written: Option<Lines>)
    requires |keys| == |values| && forall i, j :: 0 <= i < j < |keys| ==> keys[i] != keys[j]
    ensures written == None <==> forall k :: k in keys ==> k in existing && existing[k] != ""
    ensures written.Some? ==> Writes(keys, values, existing, answers, written.value)
    ensures written.Some? ==> |written.value| == |keys| && forall k :: 0 <= k < |keys| ==>
      && written.value[k].0 == keys[k]
      && (keys[k] in existing && existing[keys[k]] != "" ==> written.value[k].1 == existing[keys[k]])
  {
    var todo := CollectMissing(keys, existing);
    forall k | 0 <= k < |keys| {
      MissingPlaces(keys, existing, k);
    }
    if todo == [] {
      return None;
    }
    assert IsMissing(existing, keys[todo[0]]);
    hide Missing, Translated, TextFor;
    var translated := TranslateBatches(TextsAt(values, todo), answers);
    var output := Merge(keys, values, existing, todo, translated);
    assert forall k :: 0 <= k < |keys| ==> keys[k] in output;
    var lines := InOrder(keys, output);
    written := Some(lines);
  }
}
