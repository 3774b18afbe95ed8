/** Translating collected strings through a service that may fail on any call: retries, splitting, and putting a
    whole section back together. */
module LegalTranslation {
  import opened LegalText
  import opened Options
  import opened Sequences

  const RETRIES: nat := 4
  const SPLIT_ABOVE: nat := 4500

  /** What the service answers to its k-th call; none is any exception. */
  type Answers = nat -> string -> Option<string>

  predicate IsSpace(c: char) {
    || '\U{0009}' <= c <= '\U{000d}' || '\U{001c}' <= c <= ' ' || c == '\U{0085}' || c == '\U{00a0}' || c == '\U{1680}'
    || '\U{2000}' <= c <= '\U{200a}' || c == '\U{2028}' || c == '\U{2029}' || c == '\U{202f}' || c == '\U{205f}'
    || c == '\U{3000}'
  }

  predicate Blank(text: string) {
    forall i :: 0 <= i < |text| ==> IsSpace(text[i])
  }

  /** What Python's `strip` takes away. */
  const SPACES := "\t\n\U{000b}\U{000c}\r\U{001c}\U{001d}\U{001e}\U{001f} \U{0085}\U{00a0}\U{1680}\U{2000}\U{2001}"
    + "\U{2002}\U{2003}\U{2004}\U{2005}\U{2006}\U{2007}\U{2008}\U{2009}\U{200a}\U{2028}\U{2029}\U{202f}\U{205f}"
    + "\U{3000}"

  lemma {:induction false} SpacesListed(c: char)
    ensures IsSpace(c) <==> c in SPACES
  {
  }

  /** A text is blank when every character of it is one of these; the empty text is. */
  lemma {:induction false} BlankMeans(text: string)
    ensures Blank(text) <==> forall c :: c in text ==> c in SPACES
  {
    forall c {
      SpacesListed(c);
    }
    hide IsSpace;
    assert forall i :: 0 <= i < |text| ==> text[i] in text;
  }

  // ---- one string ----

  function Attempts(answers: Answers, call: nat, text: string, left: nat): (Option<string>, nat)
    decreases left
  {
    if left == 0 then (None, call)
    else
      match answers(call)(text)
      case Some(t) => (Some(t), call + 1)
      case None => Attempts(answers, call + 1, text, left - 1)
  }

  /** The translation of a text, and the number of the next call. */
  function Translated(answers: Answers, call: nat, text: string): (string, nat)
    decreases |text|
  {
    if Blank(text) then (text, call)
    else
      var (answer, next) := Attempts(answers, call, text, RETRIES);
      if answer.Some? then (answer.value, next)
      else if |text| > SPLIT_ABOVE then
        var left := Translated(answers, next, text[..|text| / 2]);
        var right := Translated(answers, left.1, text[|text| / 2..]);
        (left.0 + right.0, right.1)
      else (text, next)
  }

  function All(answers: Answers, call: nat, ss: seq<string>): (seq<string>, nat)
    decreases |ss|
  {
    if ss == [] then ([], call)
    else
      var first := Translated(answers, call, ss[0]);
      var rest := All(answers, first.1, ss[1..]);
      ([first.0] + rest.0, rest.1)
  }

  // ---- what a translation is made of ----

  datatype Piece = Answered(source: string, output: string, call: nat) | Left(source: string, call: nat)

  function Output(p: Piece): string {
    if p.Answered? then p.output else p.source
  }

  function Sources(ps: seq<Piece>): string {
    if ps == [] then "" else ps[0].source + Sources(ps[1..])
  }

  function Outputs(ps: seq<Piece>): string {
    if ps == [] then "" else Output(ps[0]) + Outputs(ps[1..])
  }

  /** A piece holds the service's answer to it, or is left as it was: blank, or short and refused four times. */
  predicate Accounted(p: Piece, answers: Answers) {
    match p
    case Answered(source, output, call) => answers(call)(source) == Some(output)
    case Left(source, call) =>
      || Blank(source)
      || (|source| <= SPLIT_ABOVE && forall k :: call <= k < call + RETRIES ==> answers(k)(source) == None)
  }

  lemma {:induction false} PiecesAppend(a: seq<Piece>, b: seq<Piece>)
    ensures Sources(a + b) == Sources(a) + Sources(b) && Outputs(a + b) == Outputs(a) + Outputs(b)
  {
    if a == [] {
      assert a + b == b;
    } else {
      assert (a + b)[1..] == a[1..] + b;
      PiecesAppend(a[1..], b);
    }
  }

  lemma {:induction false} AttemptsAnswer(answers: Answers, call: nat, text: string, left: nat)
    ensures var (answer, next) := Attempts(answers, call, text, left);
      && call <= next <= call + left
      && (answer.Some? ==> next > call && answers(next - 1)(text) == answer)
      && (answer == None ==> next == call + left && forall k :: call <= k < call + left ==> answers(k)(text) == None)
    decreases left
  {
    if left > 0 && answers(call)(text) == None {
      AttemptsAnswer(answers, call + 1, text, left - 1);
    }
  }

  lemma OnePiece(p: Piece)
    ensures Sources([p]) == p.source && Outputs([p]) == Output(p)
  {
    assert Sources([p]) == p.source + Sources([]) && Outputs([p]) == Output(p) + Outputs([]);
  }

  /** A text that is not split is one piece: left blank, answered, or refused and left. */
  lemma UnsplitPiece(answers: Answers, call: nat, text: string) returns (p: Piece)
    requires Blank(text) || Attempts(answers, call, text, RETRIES).0.Some? || |text| <= SPLIT_ABOVE
    ensures p.source == text && Output(p) == Translated(answers, call, text).0 && Accounted(p, answers)
  {
    AttemptsAnswer(answers, call, text, RETRIES);
    var (answer, next) := Attempts(answers, call, text, RETRIES);
    p := if Blank(text) || answer == None then Left(text, call) else Answered(text, answer.value, next - 1);
  }

  /** Whatever fails, the translation is a list of pieces whose sources make up the text and whose outputs make up
      the result, each accounted for. */
  lemma {:induction false} MadeOfPieces(answers: Answers, call: nat, text: string) returns (ps: seq<Piece>)
    ensures Sources(ps) == text && Outputs(ps) == Translated(answers, call, text).0
    ensures forall p :: p in ps ==> Accounted(p, answers)
    decreases |text|
  {
    hide Attempts, Blank, Accounted, Sources, Outputs;
    var (answer, next) := Attempts(answers, call, text, RETRIES);
    if Blank(text) || answer.Some? || |text| <= SPLIT_ABOVE {
      var p := UnsplitPiece(answers, call, text);
      OnePiece(p);
      ps := [p];
    } else {
      var mid := |text| / 2;
      var left := MadeOfPieces(answers, next, text[..mid]);
      var right := MadeOfPieces(answers, Translated(answers, next, text[..mid]).1, text[mid..]);
      PiecesAppend(left, right);
      assert text[..mid] + text[mid..] == text;
      ps := left + right;
    }
  }

  /** A service that never answers leaves every text as it is. */
  lemma {:induction false} NoAnswerNoChange(answers: Answers, call: nat, text: string)
    requires forall k, t: string :: answers(k)(t) == None
    ensures Translated(answers, call, text).0 == text
    decreases |text|
  {
    AttemptsAnswer(answers, call, text, RETRIES);
    if !Blank(text) && |text| > SPLIT_ABOVE {
      var next := Attempts(answers, call, text, RETRIES).1;
      NoAnswerNoChange(answers, next, text[..|text| / 2]);
      NoAnswerNoChange(answers, Translated(answers, next, text[..|text| / 2]).1, text[|text| / 2..]);
      assert text[..|text| / 2] + text[|text| / 2..] == text;
    }
  }

  /** The most pieces a text of some length is ever split into: halves of a text over 4500 are at least 2250 long. */
  function MostPieces(length: nat): nat {
    if length <= SPLIT_ABOVE then 1 else length / 2250
  }

  /** Splitting is not unbounded work: four calls for each piece, and for each text that was split. */
  lemma {:induction false} CallsAreBounded(answers: Answers, call: nat, text: string)
    ensures call <= Translated(answers, call, text).1 <= call + RETRIES * (2 * MostPieces(|text|) - 1)
    decreases |text|
  {
    AttemptsAnswer(answers, call, text, RETRIES);
    hide MostPieces, Attempts, Blank;
    PositivePieces(|text|);
    if !Blank(text) && |text| > SPLIT_ABOVE {
      var next := Attempts(answers, call, text, RETRIES).1;
      var mid := |text| / 2;
      CallsAreBounded(answers, next, text[..mid]);
      CallsAreBounded(answers, Translated(answers, next, text[..mid]).1, text[mid..]);
      HalvesFit(|text|);
    }
  }

  lemma PositivePieces(n: nat)
    ensures MostPieces(n) >= 1
  {
  }

  lemma HalvesFit(n: nat)
    requires n > SPLIT_ABOVE
    ensures MostPieces(n / 2) + MostPieces(n - n / 2) <= MostPieces(n)
  {
    QuotientsAdd(n / 2, n - n / 2);
  }

  lemma QuotientsAdd(a: nat, b: nat)
    ensures a / 2250 + b / 2250 <= (a + b) / 2250
  {
  }

  // ---- in place ----

  class Translator {
    const answers: Answers
    var calls: nat

    constructor (answers: Answers)
      ensures this.answers == answers && calls == 0
    {
      this.answers := answers;
      calls := 0;
    }

    method TranslateOne(text: string) returns (r: string)
      modifies this
      ensures (r, calls) == Translated(answers, old(calls), text)
      decreases |text|
    {
      if Blank(text) {
        return text;
      }
      for attempt := 0 to RETRIES
        invariant Attempts(answers, old(calls), text, RETRIES) == Attempts(answers, calls, text, RETRIES - attempt)
        invariant |text| > SPLIT_ABOVE ==> attempt < RETRIES
      {
        var answer := answers(calls)(text);
        calls := calls + 1;
        if answer.Some? {
          assert Attempts(answers, old(calls), text, RETRIES) == (answer, calls);
          return answer.value;
        }
        if |text| > SPLIT_ABOVE && attempt == RETRIES - 1 {
          assert Attempts(answers, old(calls), text, RETRIES) == Attempts(answers, calls, text, 0) == (None, calls);
          var mid := |text| / 2;
          var left := TranslateOne(text[..mid]);
          var right := TranslateOne(text[mid..]);
          return left + right;
        }
      }
      return text;
    }

    method TranslateFlat(strings: seq<string>) returns (out: seq<string>)
      modifies this
      ensures out == All(answers, old(calls), strings).0 && calls == All(answers, old(calls), strings).1
    {
      out := [];
      assert strings[0..] == strings;
      for i := 0 to |strings|
        invariant out + All(answers, calls, strings[i..]).0 == All(answers, old(calls), strings).0
        invariant All(answers, calls, strings[i..]).1 == All(answers, old(calls), strings).1
      {
        assert strings[i..][0] == strings[i] && strings[i..][1..] == strings[i + 1..];
        var s := TranslateOne(strings[i]);
        out := out + [s];
      }
      assert strings[|strings|..] == [];
      assert All(answers, calls, []) == ([], calls);
    }

    /** One section of a document; none is a StopIteration or the error raised for strings left over. */
    method TranslateSection(search: Json, blocks: Json) returns (r: Option<(Json, Json)>)
      modifies this
      ensures r.Some?
      ensures SameShape(search, r.value.0) && SameShape(blocks, r.value.1)
      ensures Strings(r.value.0) + Strings(r.value.1) == All(answers, old(calls), Strings(search) + Strings(blocks)).0
    {
      hide *;
      var flat := new StringList();
      CollectStrings(search, flat);
      CollectStrings(blocks, flat);
      assert flat.strings == Strings(search) + Strings(blocks);
      var it := new StringList();
      it.strings := TranslateFlat(flat.strings);
      AllKeepsLength(answers, old(calls), flat.strings);
      SectionFits(search, blocks, it.strings);
      var newSearch := ApplyStrings(search, it);
      var newBlocks := ApplyStrings(blocks, it);
      r := if newSearch.Some? && newBlocks.Some? && it.strings == []
           then Some((newSearch.value, newBlocks.value)) else None;
    }
  }

  /** As many strings as were collected fit the section exactly. */
  lemma SectionFits(search: Json, blocks: Json, ss: seq<string>)
    requires |ss| == |Strings(search)| + |Strings(blocks)|
    ensures Apply(search, ss).Some? && Apply(blocks, Apply(search, ss).value.1).Some?
    ensures var a := Apply(search, ss).value;
      var b := Apply(blocks, a.1).value;
      b.1 == [] && SameShape(search, a.0) && SameShape(blocks, b.0) && Strings(a.0) + Strings(b.0) == ss
  {
    ApplyTakes(search, ss);
    ApplyTakes(blocks, Apply(search, ss).value.1);
  }

  lemma {:induction false} AllKeepsLength(answers: Answers, call: nat, ss: seq<string>)
    ensures |All(answers, call, ss).0| == |ss|
    decreases |ss|
  {
    if ss != [] {
      AllKeepsLength(answers, Translated(answers, call, ss[0]).1, ss[1..]);
    }
  }

  lemma {:induction false} NoAnswersNoChange(answers: Answers, call: nat, ss: seq<string>)
    requires forall k, t: string :: answers(k)(t) == None
    ensures All(answers, call, ss).0 == ss
    decreases |ss|
  {
    if ss != [] {
      NoAnswerNoChange(answers, call, ss[0]);
      NoAnswersNoChange(answers, Translated(answers, call, ss[0]).1, ss[1..]);
    }
  }

  /** A section translated by a service that never answers comes back as it was. */
  lemma UnansweredSectionUnchanged(answers: Answers, call: nat, search: Json, blocks: Json, newSearch: Json,
      newBlocks: Json)
    requires forall k, t: string :: answers(k)(t) == None
    requires SameShape(search, newSearch) && SameShape(blocks, newBlocks)
    requires Strings(newSearch) + Strings(newBlocks) == All(answers, call, Strings(search) + Strings(blocks)).0
    ensures newSearch == search && newBlocks == blocks
  {
    NoAnswersNoChange(answers, call, Strings(search) + Strings(blocks));
    ShapeFixesCount(search, newSearch);
    SplitsAlike(Strings(newSearch), Strings(newBlocks), Strings(search), Strings(blocks));
    SameAsItself(search);
    SameAsItself(blocks);
    ShapeAndStringsDetermine(search, newSearch, search);
    ShapeAndStringsDetermine(blocks, newBlocks, blocks);
  }
}
