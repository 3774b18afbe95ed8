/** Which phrases of the metric table can be recognised at all, and which are when said alone. */
module MetricVocabulary {
  import opened MetricRecognition
  import opened Options
  import opened PhraseSpans

  // ---- normalised questions ----

  /** The characters `normalize` leaves: lower-case word characters. */
  predicate IsPlain(c: char) {
    'a' <= c <= 'z' || '0' <= c <= '9' || c == '_'
  }

  predicate IsPlainText(s: string) {
    forall i :: 0 <= i < |s| ==> IsPlain(s[i]) || s[i] == ' '
  }

  predicate SingleSpaced(s: string) {
    forall i :: 0 < i < |s| ==> !(s[i - 1] == ' ' && s[i] == ' ')
  }

  /** What `normalize` returns: plain words with one space between them. */
  predicate IsNormalised(q: string) {
    IsPlainText(q) && SingleSpaced(q) && (q != "" ==> q[0] != ' ' && q[|q| - 1] != ' ')
  }

  function Padded(q: string): string {
    " " + q + " "
  }

  ghost predicate Phrases(pats: seq<Pattern>) {
    forall t :: 0 <= t < |pats| ==> IsPhrase(pats[t].phrase)
  }

  /** Some normalised question makes the loop find the pattern. */
  ghost predicate CanBeFound(pats: seq<Pattern>, t: nat) {
    exists q, found: seq<Option<nat>> ::
      IsNormalised(q) && Accounted(Padded(q), pats, found) && t < |found| && found[t].Some?
  }

  // ---- every question has an outcome ----

  lemma {:induction false} FirstPlace(text: string, p: string, spans: seq<Span>, o: nat) returns (first: nat)
    requires StandsFree(text, p, spans, o)
    ensures StandsFree(text, p, spans, first) && forall x: nat :: x < first ==> !StandsFree(text, p, spans, x)
  {
    hide StandsFree;
    if x: nat :| x < o && StandsFree(text, p, spans, x) {
      first := FirstPlace(text, p, spans, x);
    } else {
      first := o;
    }
  }

  lemma {:induction false} OutcomeExists(text: string, pats: seq<Pattern>, n: nat) returns (found: seq<Option<nat>>)
    requires n <= |pats|
    ensures |found| == n && forall u :: 0 <= u < n ==> FirstFree(text, pats, found, u)
  {
    hide StandsFree, FirstFree;
    if n == 0 {
      found := [];
    } else {
      found := OutcomeExists(text, pats, n - 1);
      var spans, p := SpansBefore(pats, found, n - 1), pats[n - 1].phrase;
      var at: Option<nat> := None;
      if o: nat :| StandsFree(text, p, spans, o) {
        var first := FirstPlace(text, p, spans, o);
        at := Some(first);
      }
      FoundOneMore(text, pats, found, at);
      found := found + [at];
    }
  }

  // ---- a question that repeats a phrase, each time behind a long word ----

  function Filler(n: nat): (s: string)
    ensures |s| == n && forall i :: 0 <= i < n ==> s[i] == 'q'
  {
    seq(n, i => 'q')
  }

  function Unit(p: string, n: nat): string {
    Filler(n) + " " + p + " "
  }

  function Tape(p: string, n: nat, copies: nat): string {
    if copies == 0 then " " else Tape(p, n, copies - 1) + Unit(p, n)
  }

  function PlaceOn(p: string, n: nat, k: nat): nat {
    1 + k * (n + |p| + 2) + n + 1
  }

  lemma {:induction false} TapeShape(p: string, n: nat, copies: nat)
    requires IsPhrase(p) && IsPlainText(p) && n > 0
    ensures var s := Tape(p, n, copies);
      && |s| == 1 + copies * (n + |p| + 2) && s[0] == ' ' && s[|s| - 1] == ' '
      && IsPlainText(s) && SingleSpaced(s)
      && (copies > 0 ==> s[1] == 'q' && IsWordChar(s[|s| - 2]))
  {
    if copies > 0 {
      TapeShape(p, n, copies - 1);
      var before, unit := Tape(p, n, copies - 1), Unit(p, n);
      UnitShape(p, n);
      assert copies * (n + |p| + 2) == (copies - 1) * (n + |p| + 2) + (n + |p| + 2);
      JoinedSpacing(before, unit);
    }
  }

  lemma UnitShape(p: string, n: nat)
    requires IsPhrase(p) && IsPlainText(p) && n > 0
    ensures var u := Unit(p, n);
      && |u| == n + |p| + 2 && IsPlainText(u) && SingleSpaced(u) && u[0] == 'q' && u[|u| - 1] == ' '
      && IsWordChar(u[|u| - 2])
  {
    var head := Filler(n) + " ";
    assert SingleSpaced(p);
    JoinedSpacing(head, p);
    JoinedSpacing(head + p, " ");
  }

  lemma JoinedSpacing(a: string, b: string)
    requires SingleSpaced(a) && SingleSpaced(b) && (a != "" && b != "" ==> !(a[|a| - 1] == ' ' && b[0] == ' '))
    ensures SingleSpaced(a + b)
    ensures IsPlainText(a) && IsPlainText(b) ==> IsPlainText(a + b)
  {
  }

  lemma PhraseInUnit(before: string, p: string, n: nat)
    requires IsPhrase(p) && n > 0
    ensures Stands(before + Unit(p, n), p, |before| + n + 1)
  {
    var s, unit := before + Unit(p, n), Unit(p, n);
    assert forall t :: 0 <= t < |unit| ==> s[|before| + t] == unit[t];
    assert unit[n] == ' ' && unit[n + 1 + |p|] == ' ';
    assert s[|before| + n] == ' ' && s[|before| + (n + 1 + |p|)] == ' ';
    forall t | 0 <= t < |p|
      ensures s[|before| + n + 1 + t] == p[t]
    {
      assert s[|before| + (n + 1 + t)] == unit[n + 1 + t] == p[t];
    }
  }

  lemma {:induction false} PhraseOnTape(p: string, n: nat, copies: nat, k: nat)
    requires IsPhrase(p) && IsPlainText(p) && n > 0 && k < copies
    ensures Stands(Tape(p, n, copies), p, PlaceOn(p, n, k))
  {
    hide Stands, Unit;
    TapeShape(p, n, copies - 1);
    if k < copies - 1 {
      PhraseOnTape(p, n, copies - 1, k);
      PlaceInside(p, n, copies - 1, k);
    } else {
      PhraseInUnit(Tape(p, n, copies - 1), p, n);
    }
  }

  lemma {:induction false} Apart(j: nat, k: nat, width: nat)
    requires j < k
    ensures k * width >= j * width + width
  {
    assert k * width == (k - 1) * width + width;
    if j < k - 1 {
      Apart(j, k - 1, width);
    }
  }

  lemma PlaceBeforeEnd(p: string, n: nat, copies: nat, k: nat)
    requires k < copies
    ensures PlaceOn(p, n, k) + |p| < 1 + copies * (n + |p| + 2)
  {
    Apart(k, copies, n + |p| + 2);
  }

  lemma PlaceInside(p: string, n: nat, copies: nat, k: nat)
    requires IsPhrase(p) && IsPlainText(p) && n > 0 && k < copies
    requires Stands(Tape(p, n, copies), p, PlaceOn(p, n, k))
    ensures Stands(Tape(p, n, copies) + Unit(p, n), p, PlaceOn(p, n, k))
  {
    var s := Tape(p, n, copies);
    TapeShape(p, n, copies);
    PlaceBeforeEnd(p, n, copies, k);
    assert forall t :: 0 <= t < |s| ==> (s + Unit(p, n))[t] == s[t];
  }

  // ---- few spans cannot cover many far apart places ----

  predicate Touches(s: Span, p: string, n: nat, k: nat) {
    s.start < PlaceOn(p, n, k) + |p| && PlaceOn(p, n, k) < s.start + s.size
  }

  lemma PlacesApart(p: string, n: nat, j: nat, k: nat)
    requires j < k
    ensures PlaceOn(p, n, k) >= PlaceOn(p, n, j) + n + |p| + 2
  {
    Apart(j, k, n + |p| + 2);
  }

  lemma TouchesOne(s: Span, p: string, n: nat, j: nat, k: nat)
    requires s.size <= n && j < k && Touches(s, p, n, j)
    ensures !Touches(s, p, n, k)
  {
    PlacesApart(p, n, j, k);
    hide PlaceOn;
  }

  lemma {:induction false} UntouchedPlace(spans: seq<Span>, p: string, n: nat, ks: set<nat>) returns (k: nat)
    requires |ks| > |spans| && forall s :: s in spans ==> s.size <= n
    ensures k in ks && forall s :: s in spans ==> !Touches(s, p, n, k)
  {
    hide Touches;
    if spans == [] {
      k :| k in ks;
    } else {
      var last := spans[|spans| - 1];
      var rest := spans[..|spans| - 1];
      assert spans == rest + [last];
      if j :| j in ks && Touches(last, p, n, j) {
        k := UntouchedPlace(rest, p, n, ks - {j});
        if k < j && Touches(last, p, n, k) { TouchesOne(last, p, n, k, j); }
        if j < k { TouchesOne(last, p, n, j, k); }
      } else {
        k := UntouchedPlace(rest, p, n, ks);
      }
    }
  }

  function LongestOf(pats: seq<Pattern>): (n: nat)
    ensures forall t :: 0 <= t < |pats| ==> |pats[t].phrase| <= n
  {
    if pats == [] then 0
    else
      var rest := LongestOf(pats[..|pats| - 1]);
      if rest < |pats[|pats| - 1].phrase| then |pats[|pats| - 1].phrase| else rest
  }

  lemma {:induction false} FewSpans(pats: seq<Pattern>, found: seq<Option<nat>>, t: nat)
    requires t <= |found| && t <= |pats|
    ensures |SpansBefore(pats, found, t)| <= t
  {
    if t > 0 { FewSpans(pats, found, t - 1); }
  }

  lemma {:induction false} UpTo(n: nat) returns (ks: set<nat>)
    ensures |ks| == n && forall k :: k in ks ==> k < n
  {
    if n == 0 {
      ks := {};
    } else {
      ks := UpTo(n - 1);
      assert n - 1 !in ks;
      ks := ks + {n - 1};
    }
  }

  lemma UntouchedIsFree(spans: seq<Span>, p: string, n: nat, k: nat)
    requires forall s :: s in spans ==> !Touches(s, p, n, k)
    ensures Free(spans, PlaceOn(p, n, k), |p|)
  {
    hide PlaceOn;
    forall x | PlaceOn(p, n, k) <= x < PlaceOn(p, n, k) + |p|
      ensures !Consumed(spans, x)
    {
      forall s | s in spans
        ensures !Covers(s, x)
      {
        assert !Touches(s, p, n, k);
      }
    }
  }

  /** Said often enough, a phrase is found, whatever stands before it in the table. */
  lemma SaidOftenIsFound(pats: seq<Pattern>, found: seq<Option<nat>>, t: nat)
    requires Phrases(pats) && t < |pats| && IsPlainText(pats[t].phrase)
    requires Accounted(Tape(pats[t].phrase, LongestOf(pats), t + 1), pats, found)
    ensures found[t].Some?
  {
    var p, n := pats[t].phrase, LongestOf(pats);
    var spans := SpansBefore(pats, found, t);
    assert IsPhrase(p);
    FewSpans(pats, found, t);
    forall s | s in spans
      ensures s.size <= n
    {
      SpanComesFrom(pats, found, t, s);
    }
    var ks := UpTo(t + 1);
    var k := UntouchedPlace(spans, p, n, ks);
    PhraseOnTape(p, n, t + 1, k);
    UntouchedIsFree(spans, p, n, k);
    assert FirstFree(Tape(p, n, t + 1), pats, found, t);
    assert StandsFree(Tape(p, n, t + 1), p, spans, PlaceOn(p, n, k));
  }

  lemma FoundIsPlain(q: string, pats: seq<Pattern>, found: seq<Option<nat>>, t: nat)
    requires IsNormalised(q) && Accounted(Padded(q), pats, found) && t < |found| && found[t].Some?
    ensures IsPlainText(pats[t].phrase)
  {
    var p, o := pats[t].phrase, found[t].value;
    assert FirstFree(Padded(q), pats, found, t);
    assert IsPlainText(Padded(q));
    forall i | 0 <= i < |p|
      ensures IsPlain(p[i]) || p[i] == ' '
    {
      assert Padded(q)[o + i] == p[i];
    }
  }

  lemma TapeIsAQuestion(p: string, n: nat, copies: nat) returns (q: string)
    requires IsPhrase(p) && IsPlainText(p) && n > 0 && copies > 0
    ensures IsNormalised(q) && Padded(q) == Tape(p, n, copies)
  {
    TapeShape(p, n, copies);
    var text := Tape(p, n, copies);
    hide Tape;
    q := text[1..|text| - 1];
    assert forall i :: 0 <= i < |q| ==> q[i] == text[i + 1];
    assert Padded(q) == text;
  }

  lemma PlainCanBeFound(pats: seq<Pattern>, t: nat)
    requires Phrases(pats) && t < |pats| && IsPlainText(pats[t].phrase)
    ensures CanBeFound(pats, t)
  {
    hide Tape, Accounted, IsNormalised, Padded;
    assert IsPhrase(pats[t].phrase);
    var q := TapeIsAQuestion(pats[t].phrase, LongestOf(pats), t + 1);
    var found := OutcomeExists(Padded(q), pats, |pats|);
    OutcomeIsAccounted(Padded(q), pats, found);
    SaidOftenIsFound(pats, found, t);
    OutcomeLength(Padded(q), pats, found);
  }

  lemma OutcomeIsAccounted(text: string, pats: seq<Pattern>, found: seq<Option<nat>>)
    requires |found| == |pats| && forall u :: 0 <= u < |pats| ==> FirstFree(text, pats, found, u)
    ensures Accounted(text, pats, found)
  {
  }

  /** EXACT. A phrase of the table can be found by some question if and only if it is made of lower-case word
      characters and spaces only: the hyphenated synonyms are dead, and no other is. */
  lemma CanBeFoundExactlyWhen(pats: seq<Pattern>, t: nat)
    requires Phrases(pats) && t < |pats|
    ensures CanBeFound(pats, t) <==> IsPlainText(pats[t].phrase)
  {
    hide Accounted, IsNormalised, IsPlainText;
    if CanBeFound(pats, t) {
      var q, found: seq<Option<nat>> :|
        IsNormalised(q) && Accounted(Padded(q), pats, found) && t < |found| && found[t].Some?;
      FoundIsPlain(q, pats, found, t);
    }
    if IsPlainText(pats[t].phrase) { PlainCanBeFound(pats, t); }
  }

  /** The synonyms of the table that are written with a hyphen. */
  const HYPHENATED: set<string> := {
    "main-app payout failures", "take-rate", "offer click-through rate", "offer opt-out rate"}

  lemma HyphenatedCannotBeFound(pats: seq<Pattern>, t: nat)
    requires Phrases(pats) && t < |pats| && pats[t].phrase in HYPHENATED
    ensures !CanBeFound(pats, t)
  {
    var p := pats[t].phrase;
    var k := if p[4] == '-' then 4 else if p[9] == '-' then 9 else 11;
    assert p[k] == '-';
    hide CanBeFound;
    CanBeFoundExactlyWhen(pats, t);
  }

  // ---- said alone ----

  /** In a question that is one phrase, only that phrase and shorter ones stand. */
  lemma OnlyItselfStands(p: string, r: string, o: nat)
    requires IsPhrase(p) && IsPhrase(r) && |r| >= |p| && Stands(Padded(p), r, o)
    ensures o == 1 && r == p
  {
    var text := Padded(p);
    assert text[o + 0] == r[0] && text[o + (|r| - 1)] == r[|r| - 1];
    assert forall i :: 0 <= i < |r| ==> text[1 + i] == p[i];
  }

  lemma ItselfStands(p: string)
    requires IsPhrase(p)
    ensures Stands(Padded(p), p, 1)
  {
  }

  lemma {:induction false} FirstOfItsKind(pats: seq<Pattern>, p: string, u: nat) returns (first: nat)
    requires u < |pats| && pats[u].phrase == p
    ensures first <= u && pats[first].phrase == p && forall v :: 0 <= v < first ==> pats[v].phrase != p
  {
    if v: nat :| v < u && pats[v].phrase == p {
      first := FirstOfItsKind(pats, p, v);
    } else {
      first := u;
    }
  }

  lemma FirstOfItsKindIsFound(pats: seq<Pattern>, found: seq<Option<nat>>, t: nat)
    requires Phrases(pats) && LongestFirst(pats) && t < |pats| && Accounted(Padded(pats[t].phrase), pats, found)
    requires forall v :: 0 <= v < t ==> pats[v].phrase != pats[t].phrase
    ensures found[t] == Some(1)
  {
    var p := pats[t].phrase;
    hide Stands;
    forall v | 0 <= v < t
      ensures found[v] == None
    {
      assert FirstFree(Padded(p), pats, found, v) && |pats[v].phrase| >= |p|;
      if found[v].Some? { OnlyItselfStands(p, pats[v].phrase, found[v].value); }
    }
    NothingBefore(pats, found, t);
    assert FirstFree(Padded(p), pats, found, t);
    ItselfStands(p);
    FreeOfNone(1, |p|);
    assert StandsFree(Padded(p), p, [], 1);
    OnlyItselfStands(p, p, found[t].value);
  }

  /** EXACT. Said alone, a phrase is found if and only if no earlier pattern has the same phrase: no shorter one can
      take its place, since longer phrases are tried first. */
  lemma SaidAloneIsFoundExactlyWhen(pats: seq<Pattern>, found: seq<Option<nat>>, t: nat)
    requires Phrases(pats) && LongestFirst(pats) && t < |pats| && Accounted(Padded(pats[t].phrase), pats, found)
    ensures found[t].Some? <==> forall u :: 0 <= u < t ==> pats[u].phrase != pats[t].phrase
  {
    var p := pats[t].phrase;
    if u: nat :| u < t && pats[u].phrase == p {
      var first := FirstOfItsKind(pats, p, u);
      FirstOfItsKindIsFound(pats, found, first);
      if found[t].Some? {
        assert FirstFree(Padded(p), pats, found, t);
        OnlyItselfStands(p, p, found[t].value);
        var s := Span(1, |p|);
        SpanComesFrom(pats, found, t, s);
        assert s in SpansBefore(pats, found, t) && Covers(s, 1);
        assert Consumed(SpansBefore(pats, found, t), 1);
      }
    } else {
      FirstOfItsKindIsFound(pats, found, t);
    }
  }
}
