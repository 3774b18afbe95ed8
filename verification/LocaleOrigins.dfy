/** Where the text of each newly translated key comes from, told from the shape of the answers alone. */
module LocaleOrigins {
  import opened Locales
  import opened Options

  /** An answer of the service to a text, or the English text of a key. */
  datatype Mark = Answer(batch: nat, place: nat) | English(key: nat)

  /** The shape of the answers: which calls fail, how many answers come back, and which of them are not null. */
  type Shape = nat -> Option<seq<bool>>

  ghost predicate HasShape(answers: Answers, shape: Shape, batches: nat) {
    forall b :: 0 <= b < batches ==>
      if shape(b) == None then answers(b) == None
      else answers(b).Some? && |answers(b).value| == |shape(b).value|
           && forall j :: 0 <= j < |shape(b).value| ==> (answers(b).value[j].Some? <==> shape(b).value[j])
  }

  // ---- the pipeline on marks ----

  /** The places of the missing keys, cut into batches. */
  function Places(todo: seq<nat>): seq<seq<nat>> {
    Chunks(todo, BATCH_SIZE)
  }

  function MarkedPart(places: seq<nat>, answer: Option<seq<bool>>, b: nat): (part: seq<Option<Mark>>)
    ensures |part| == if answer == None then |places| else |answer.value|
    ensures forall j :: 0 <= j < |part| ==>
      part[j] == if answer == None then Some(English(places[j]))
                 else if answer.value[j] then Some(Answer(b, j)) else None
  {
    if answer == None then seq(|places|, j requires 0 <= j < |places| => Some(English(places[j])))
    else seq(|answer.value|, j requires 0 <= j < |answer.value| => if answer.value[j] then Some(Answer(b, j)) else None)
  }

  function MarkedParts(todo: seq<nat>, shape: Shape): (parts: seq<seq<Option<Mark>>>)
    ensures |parts| == |Places(todo)|
    ensures forall b :: 0 <= b < |parts| ==> parts[b] == MarkedPart(Places(todo)[b], shape(b), b)
  {
    seq(|Places(todo)|, b requires 0 <= b < |Places(todo)| => MarkedPart(Places(todo)[b], shape(b), b))
  }

  /** What the i-th missing key ends up with. */
  function OriginOf(todo: seq<nat>, shape: Shape, i: nat): Mark {
    var marks := Flat(MarkedParts(todo, shape));
    if i < |marks| && marks[i].Some? then marks[i].value else English(i)
  }

  /** What it should end up with: the answer to its own text, or that text when there is none. */
  function OwnMark(todo: seq<nat>, shape: Shape, i: nat): Mark
    requires i < |todo|
  {
    var b, j := i / BATCH_SIZE, i % BATCH_SIZE;
    if shape(b).Some? && j < |shape(b).value| && shape(b).value[j] then Answer(b, j) else English(todo[i])
  }

  ghost predicate Readable(m: Mark, values: seq<string>, answers: Answers) {
    match m
    case English(k) => k < |values|
    case Answer(b, j) => answers(b).Some? && j < |answers(b).value| && answers(b).value[j].Some?
  }

  ghost function Reading(m: Mark, values: seq<string>, answers: Answers): string
    requires Readable(m, values, answers)
  {
    match m
    case English(k) => values[k]
    case Answer(b, j) => answers(b).value[j].value
  }

  // ---- the marks tell the texts ----

  lemma {:induction false} PlacesMatchTexts(values: seq<string>, todo: seq<nat>)
    requires forall i :: 0 <= i < |todo| ==> todo[i] < |values|
    ensures var batches := Chunks(TextsAt(values, todo), BATCH_SIZE);
      && |batches| == |Places(todo)|
      && forall b :: 0 <= b < |batches| ==>
           |batches[b]| == |Places(todo)[b]|
           && forall j :: 0 <= j < |batches[b]| ==>
                Places(todo)[b][j] < |values| && batches[b][j] == values[Places(todo)[b][j]]
    decreases |todo|
  {
    var texts := TextsAt(values, todo);
    if |todo| > BATCH_SIZE {
      assert texts[BATCH_SIZE..] == TextsAt(values, todo[BATCH_SIZE..]);
      PlacesMatchTexts(values, todo[BATCH_SIZE..]);
      var batches := Chunks(texts, BATCH_SIZE);
      assert batches[0] == texts[..BATCH_SIZE] && Places(todo)[0] == todo[..BATCH_SIZE];
      assert batches[1..] == Chunks(TextsAt(values, todo[BATCH_SIZE..]), BATCH_SIZE);
      assert Places(todo)[1..] == Places(todo[BATCH_SIZE..]);
      assert forall b :: 0 < b < |batches| ==> batches[b] == batches[1..][b - 1];
      assert forall b :: 0 < b < |batches| ==> Places(todo)[b] == Places(todo)[1..][b - 1];
    }
  }

  /** Two lists of parts of the same lengths agree place by place when their parts do. */
  lemma {:induction false} FlatAlike(a: seq<seq<Option<Mark>>>, b: seq<seq<Option<string>>>, values: seq<string>,
      answers: Answers)
    requires |a| == |b|
    requires forall c :: 0 <= c < |a| ==> PartAlike(a[c], b[c], values, answers)
    ensures PartAlike(Flat(a), Flat(b), values, answers)
  {
    if a != [] {
      assert forall c :: 0 <= c < |a| - 1 ==> PartAlike(a[1..][c], b[1..][c], values, answers);
      FlatAlike(a[1..], b[1..], values, answers);
    }
  }

  ghost predicate PartAlike(a: seq<Option<Mark>>, b: seq<Option<string>>, values: seq<string>, answers: Answers) {
    |a| == |b| && forall j :: 0 <= j < |a| ==>
      if a[j] == None then b[j] == None
      else Readable(a[j].value, values, answers) && b[j] == Some(Reading(a[j].value, values, answers))
  }

  /** The text of a key is the reading of its origin. */
  lemma TextIsReadingOfOrigin(values: seq<string>, todo: seq<nat>, answers: Answers, shape: Shape, i: nat)
    requires forall i :: 0 <= i < |todo| ==> todo[i] < |values|
    requires HasShape(answers, shape, |Places(todo)|) && i < |values|
    ensures Readable(OriginOf(todo, shape, i), values, answers)
    ensures TextFor(values, Translated(TextsAt(values, todo), answers), i)
         == Reading(OriginOf(todo, shape, i), values, answers)
  {
    PlacesMatchTexts(values, todo);
    var batches := Chunks(TextsAt(values, todo), BATCH_SIZE);
    var marks, parts := MarkedParts(todo, shape), Contributions(batches, answers);
    hide Chunks, Flat, TextsAt, Places;
    forall b | 0 <= b < |marks|
      ensures PartAlike(marks[b], parts[b], values, answers)
    {
    }
    FlatAlike(marks, parts, values, answers);
  }

  // ---- when the origin is the key's own ----

  /** The call for the key's batch failed, or it brought an answer that is not null at the key's place. */
  predicate OwnIsThere(shape: Shape, i: nat) {
    var b, j := i / BATCH_SIZE, i % BATCH_SIZE;
    shape(b) == None || (j < |shape(b).value| && shape(b).value[j])
  }

  /** The batches before the i-th missing key's own brought as many texts as were asked for, together. */
  predicate CountsFit(todo: seq<nat>, shape: Shape, i: nat)
    requires i < |todo|
  {
    var b := i / BATCH_SIZE;
    b <= |MarkedParts(todo, shape)| && Offset(MarkedParts(todo, shape), b) == BATCH_SIZE * b
  }

  /** The joined list is too short for the i-th missing key, or has null there. */
  predicate NothingThere(todo: seq<nat>, shape: Shape, i: nat) {
    var marks := Flat(MarkedParts(todo, shape));
    i >= |marks| || marks[i] == None
  }

  lemma PlacesAt(todo: seq<nat>, b: nat, j: nat)
    requires b < |Places(todo)| && j < |Places(todo)[b]|
    ensures j < BATCH_SIZE && BATCH_SIZE * b + j < |todo| && Places(todo)[b][j] == todo[BATCH_SIZE * b + j]
  {
    ChunksMakeUp(todo, BATCH_SIZE);
    OffsetsLineUp(Places(todo), b);
    FlatAt(Places(todo), b, j);
  }

  lemma {:induction false} WhereInChunks<T>(a: seq<T>, i: nat)
    requires i < |a|
    ensures var c := Chunks(a, BATCH_SIZE);
      i / BATCH_SIZE < |c| && i % BATCH_SIZE < |c[i / BATCH_SIZE]|
    decreases |a|
  {
    if |a| > BATCH_SIZE && i >= BATCH_SIZE {
      WhereInChunks(a[BATCH_SIZE..], i - BATCH_SIZE);
      var c := Chunks(a, BATCH_SIZE);
      assert c[1..] == Chunks(a[BATCH_SIZE..], BATCH_SIZE);
      assert (i - 50) / 50 == i / 50 - 1;
    }
  }

  lemma {:induction false} Located<T>(parts: seq<seq<T>>, p: nat) returns (b: nat, j: nat)
    requires p < |Flat(parts)|
    ensures b < |parts| && j < |parts[b]| && p == Offset(parts, b) + j && Flat(parts)[p] == parts[b][j]
  {
    if p < |parts[0]| {
      b, j := 0, p;
    } else {
      b, j := Located(parts[1..], p - |parts[0]|);
      b := b + 1;
    }
  }

  lemma OwnThereIsTaken(todo: seq<nat>, shape: Shape, i: nat)
    requires i < |todo| && OwnIsThere(shape, i) && CountsFit(todo, shape, i)
    ensures OriginOf(todo, shape, i) == OwnMark(todo, shape, i)
  {
    hide Chunks, Flat, Offset;
    var b, j := i / BATCH_SIZE, i % BATCH_SIZE;
    WhereInChunks(todo, i);
    PlacesAt(todo, b, j);
    FlatAt(MarkedParts(todo, shape), b, j);
  }

  lemma TakenIsThere(todo: seq<nat>, shape: Shape, i: nat)
    requires i < |todo| && (forall x, y :: 0 <= x < y < |todo| ==> todo[x] != todo[y])
    requires !NothingThere(todo, shape, i) && OriginOf(todo, shape, i) == OwnMark(todo, shape, i)
    ensures OwnIsThere(shape, i) && CountsFit(todo, shape, i)
  {
    var parts := MarkedParts(todo, shape);
    var c, k := Located(parts, i);
    hide Chunks, Flat, Offset, Places;
    var b, j := i / BATCH_SIZE, i % BATCH_SIZE;
    assert parts[c] == MarkedPart(Places(todo)[c], shape(c), c);
    if shape(c) == None {
      PlacesAt(todo, c, k);
      assert BATCH_SIZE * c + k == i;
    }
    assert c == b && k == j;
  }

  /** EXACT. The i-th missing key ends up with its own answer, or its own text where there is none, if and only if
      the answer or failed call is there and the batches before it brought as many texts as were asked for; or
      there is no answer of its own, the joined list has nothing for it, and it happens to be the i-th key of all. */
  lemma OriginIsOwnExactlyWhen(todo: seq<nat>, shape: Shape, i: nat)
    requires i < |todo| && (forall x, y :: 0 <= x < y < |todo| ==> todo[x] != todo[y])
    ensures OriginOf(todo, shape, i) == OwnMark(todo, shape, i) <==>
      || (OwnIsThere(shape, i) && CountsFit(todo, shape, i))
      || (NothingThere(todo, shape, i) && !OwnMark(todo, shape, i).Answer? && todo[i] == i)
  {
    hide CountsFit, NothingThere;
    if OwnIsThere(shape, i) && CountsFit(todo, shape, i) {
      OwnThereIsTaken(todo, shape, i);
    } else if NothingThere(todo, shape, i) {
      assert OriginOf(todo, shape, i) == English(i) by { NothingIsEnglish(todo, shape, i); }
    } else if OriginOf(todo, shape, i) == OwnMark(todo, shape, i) {
      TakenIsThere(todo, shape, i);
      assert false;
    }
  }

  lemma NothingIsEnglish(todo: seq<nat>, shape: Shape, i: nat)
    requires NothingThere(todo, shape, i)
    ensures OriginOf(todo, shape, i) == English(i)
  {
  }

  // ---- and so what the file says ----

  /** Answers and texts that tell one mark from every other. */
  function Telling(own: Mark, m: Mark): string {
    if m == own then "own" else "other"
  }

  function TellingValues(own: Mark, n: nat): (values: seq<string>)
    ensures |values| == n && forall k :: 0 <= k < n ==> values[k] == Telling(own, English(k))
  {
    seq(n, k requires 0 <= k < n => Telling(own, English(k)))
  }

  function TellingPart(own: Mark, flags: seq<bool>, b: nat): (part: seq<Option<string>>)
    ensures |part| == |flags|
    ensures forall j :: 0 <= j < |part| ==> part[j] == if flags[j] then Some(Telling(own, Answer(b, j))) else None
  {
    seq(|flags|, j requires 0 <= j < |flags| => if flags[j] then Some(Telling(own, Answer(b, j))) else None)
  }

  function TellingAnswers(own: Mark, shape: Shape): Answers {
    (b: nat) => if shape(b) == None then None else Some(TellingPart(own, shape(b).value, b))
  }

  lemma TellingHasShape(own: Mark, shape: Shape, batches: nat)
    ensures HasShape(TellingAnswers(own, shape), shape, batches)
  {
  }

  lemma TellingReads(own: Mark, m: Mark, shape: Shape, n: nat)
    requires Readable(m, TellingValues(own, n), TellingAnswers(own, shape))
    ensures Reading(m, TellingValues(own, n), TellingAnswers(own, shape)) == Telling(own, m)
  {
    if m.Answer? {
      assert TellingAnswers(own, shape)(m.batch) == Some(TellingPart(own, shape(m.batch).value, m.batch));
    }
  }

  lemma OwnIsReadable(values: seq<string>, todo: seq<nat>, answers: Answers, shape: Shape, i: nat)
    requires i < |todo| && todo[i] < |values| && HasShape(answers, shape, |Places(todo)|)
    ensures Readable(OwnMark(todo, shape, i), values, answers)
  {
    WhereInChunks(todo, i);
    hide Chunks;
  }

  /** What the written file holds for the i-th missing key, and what it should hold. */
  ghost predicate HoldsOwn(todo: seq<nat>, values: seq<string>, answers: Answers, shape: Shape, i: nat)
    requires i < |todo| && i < |values| && forall k :: 0 <= k < |todo| ==> todo[k] < |values|
  {
    var own := OwnMark(todo, shape, i);
    Readable(own, values, answers)
    && TextFor(values, Translated(TextsAt(values, todo), answers), i) == Reading(own, values, answers)
  }

  lemma OwnOriginHoldsOwn(todo: seq<nat>, values: seq<string>, answers: Answers, shape: Shape, i: nat)
    requires i < |todo| && i < |values| && forall k :: 0 <= k < |todo| ==> todo[k] < |values|
    requires HasShape(answers, shape, |Places(todo)|) && OriginOf(todo, shape, i) == OwnMark(todo, shape, i)
    ensures HoldsOwn(todo, values, answers, shape, i)
  {
    hide Translated, OriginOf, OwnMark, TextFor;
    TextIsReadingOfOrigin(values, todo, answers, shape, i);
  }

  /** Where the origin is another's, some texts show it. */
  lemma OtherOriginShows(todo: seq<nat>, n: nat, shape: Shape, i: nat) returns (values: seq<string>, answers: Answers)
    requires i < |todo| && i < n && forall k :: 0 <= k < |todo| ==> todo[k] < n
    requires OriginOf(todo, shape, i) != OwnMark(todo, shape, i)
    ensures |values| == n && HasShape(answers, shape, |Places(todo)|) && !HoldsOwn(todo, values, answers, shape, i)
  {
    var own := OwnMark(todo, shape, i);
    values, answers := TellingValues(own, n), TellingAnswers(own, shape);
    TellingHasShape(own, shape, |Places(todo)|);
    TextIsReadingOfOrigin(values, todo, answers, shape, i);
    OwnIsReadable(values, todo, answers, shape, i);
    TellingReads(own, own, shape, n);
    TellingReads(own, OriginOf(todo, shape, i), shape, n);
  }

  /** FILES. A missing key of a written file holds its own answer, or its own English text where there is none,
      whatever the texts are, exactly when the counts and nulls of the answers are as told above. */
  lemma KeyHoldsItsOwnExactlyWhen(keys: seq<string>, existing: Locale, shape: Shape, i: nat)
    requires i < |Missing(keys, existing)|
    ensures var todo := Missing(keys, existing);
      i <= todo[i] < |keys| &&
      ((forall values: seq<string>, answers: Answers ::
         |values| == |keys| && HasShape(answers, shape, |Places(todo)|) ==> HoldsOwn(todo, values, answers, shape, i))
       <==>
         || (OwnIsThere(shape, i) && CountsFit(todo, shape, i))
         || (NothingThere(todo, shape, i) && !OwnMark(todo, shape, i).Answer? && todo[i] == i))
  {
    hide Missing, OwnIsThere, CountsFit, NothingThere, OriginOf, OwnMark, HoldsOwn;
    var todo := Missing(keys, existing);
    OriginIsOwnExactlyWhen(todo, shape, i);
    if OriginOf(todo, shape, i) == OwnMark(todo, shape, i) {
      forall values: seq<string>, answers: Answers | |values| == |keys| && HasShape(answers, shape, |Places(todo)|)
        ensures HoldsOwn(todo, values, answers, shape, i)
      {
        OwnOriginHoldsOwn(todo, values, answers, shape, i);
      }
    } else {
      var values, answers := OtherOriginShows(todo, |keys|, shape, i);
    }
  }

  /** A written file holds, for the i-th missing key, what `HoldsOwn` speaks of. */
  lemma WrittenTexts(keys: seq<string>, values: seq<string>, existing: Locale, answers: Answers, lines: Lines,
      shape: Shape, i: nat)
    requires |keys| == |values| && Writes(keys, values, existing, answers, lines) && i < |Missing(keys, existing)|
    ensures var todo := Missing(keys, existing);
      HoldsOwn(todo, values, answers, shape, i) <==>
        Readable(OwnMark(todo, shape, i), values, answers)
        && lines[todo[i]] == (keys[todo[i]], Reading(OwnMark(todo, shape, i), values, answers))
  {
    hide Translated, TextFor, OwnMark;
  }

  /** One null answer, though there is one answer a text: the key takes the English text of another. */
  lemma NullTakesAnotherKeysText()
    ensures var todo, shape := [1], (b: nat) => Some([false]);
      OriginOf(todo, shape, 0) == English(0) && OwnMark(todo, shape, 0) == English(1)
  {
    var shape := (b: nat) => Some([false]);
    assert Places([1]) == [[1]];
    assert MarkedParts([1], shape)[0] == [None];
    assert Flat(MarkedParts([1], shape)) == [None] + Flat(MarkedParts([1], shape)[1..]);
  }
}
