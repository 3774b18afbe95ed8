/** Recognising metrics in a question: phrases are tried longest first, and each match is cut out of the text before
    the next phrase is tried. */
module PhraseSpans {

  // ---- whole-word matches ----

  predicate IsWordChar(c: char) {
    'a' <= c <= 'z' || 'A' <= c <= 'Z' || '0' <= c <= '9' || c == '_'
  }

  const LETTERS := "abcdefghijklmnopqrstuvwxyz"
  const CAPITALS := "ABCDEFGHIJKLMNOPQRSTUVWXYZ"

  lemma {:induction false} LettersListed(c: char)
    ensures 'a' <= c <= 'z' <==> c in LETTERS
  {
    if 'a' <= c <= 'z' { assert LETTERS[c as int - 97] == c; }
  }

  lemma {:induction false} CapitalsListed(c: char)
    ensures 'A' <= c <= 'Z' <==> c in CAPITALS
  {
    if 'A' <= c <= 'Z' { assert CAPITALS[c as int - 65] == c; }
  }

  /** The word characters are the letters, the digits and the underscore. */
  lemma {:induction false} WordCharsListed(c: char)
    ensures IsWordChar(c) <==> c in LETTERS || c in CAPITALS || c in "0123456789" || c == '_'
  {
    LettersListed(c);
    CapitalsListed(c);
    if '0' <= c <= '9' { assert "0123456789"[c as int - 48] == c; }
  }

  /** A phrase begins and ends with word characters and has no two spaces in a row. */
  predicate IsPhrase(p: string) {
    && p != "" && IsWordChar(p[0]) && IsWordChar(p[|p| - 1])
    && forall i :: 0 < i < |p| ==> !(p[i - 1] == ' ' && p[i] == ' ')
  }

  /** The phrase stands at position `i` as whole words. */
  predicate Stands(s: string, p: string, i: nat) {
    && i + |p| <= |s| && (forall t :: 0 <= t < |p| ==> s[i + t] == p[t])
    && (i == 0 || !IsWordChar(s[i - 1]))
    && (i + |p| == |s| || !IsWordChar(s[i + |p|]))
  }

  /** A normalised question between two spaces: single words and single spaces. */
  predicate IsPadded(s: string) {
    && |s| >= 2 && s[0] == ' ' && s[|s| - 1] == ' '
    && forall i :: 0 <= i < |s| ==> IsWordChar(s[i]) || s[i] == ' '
  }

  // ---- spans of the question ----

  datatype Span = Span(start: nat, size: nat)

  predicate Covers(span: Span, o: int) {
    span.start <= o < span.start + span.size
  }

  predicate Consumed(spans: seq<Span>, o: int) {
    exists s :: s in spans && Covers(s, o)
  }

  predicate Free(spans: seq<Span>, o: nat, size: nat) {
    forall x :: o <= x < o + size ==> !Consumed(spans, x)
  }

  /** How the shrinking text stands to the question: `org` gives the place each character came from, and -1 for the
      spaces put in for what was cut out. */
  ghost predicate Shrunk(text: string, rest: string, org: seq<int>, spans: seq<Span>) {
    && |org| == |rest| >= 2 && org[0] == 0 && org[|org| - 1] == |text| - 1
    && (forall k :: 0 <= k < |org| ==> -1 <= org[k] < |text|)
    && (forall k :: 0 <= k < |org| && org[k] >= 0 ==> rest[k] == text[org[k]])
    && SpacesAround(rest, org)
    && InOrder(org)
    && (forall o :: 0 <= o < |text| ==> (o in org <==> !Consumed(spans, o)))
  }

  /** What each cut leaves beside it. */
  predicate SpacesAround(rest: string, org: seq<int>) {
    |rest| == |org| && forall k :: 0 <= k < |org| && org[k] == -1 ==>
      rest[k] == ' ' && 0 < k < |org| - 1 && rest[k - 1] == ' ' && rest[k + 1] == ' '
  }

  /** Places increase; neighbours are neighbours in the question; and around a cut they are not. */
  ghost predicate InOrder(org: seq<int>) {
    Increasing(org) && Adjacent(org) && Gapped(org)
  }

  ghost predicate Increasing(org: seq<int>) {
    forall k, l :: 0 <= k < l < |org| && org[k] >= 0 && org[l] >= 0 ==> org[k] < org[l]
  }

  ghost predicate Adjacent(org: seq<int>) {
    forall k :: 0 < k < |org| && org[k - 1] >= 0 && org[k] >= 0 ==> org[k] == org[k - 1] + 1
  }

  ghost predicate Gapped(org: seq<int>) {
    forall k, m, l :: 0 <= k < m < l < |org| && org[k] >= 0 && org[m] == -1 && org[l] >= 0 ==> org[l] > org[k] + 1
  }

  // ---- a match in what is left is a match in the question ----

  lemma NoCutInside(text: string, rest: string, org: seq<int>, spans: seq<Span>, p: string, i: nat, t: nat)
    requires Shrunk(text, rest, org, spans) && IsPhrase(p) && Stands(rest, p, i) && t < |p|
    ensures org[i + t] >= 0
  {
    hide InOrder;
    assert rest[i + t] == p[t];
    assert t + 1 < |p| ==> rest[i + (t + 1)] == p[t + 1];
    assert t + 1 < |p| ==> !(p[t] == ' ' && p[t + 1] == ' ');
  }

  lemma {:induction false} PlacesFollow(
    text: string, rest: string, org: seq<int>, spans: seq<Span>, p: string, i: nat, t: nat)
    requires Shrunk(text, rest, org, spans) && IsPhrase(p) && Stands(rest, p, i) && t < |p|
    ensures org[i] >= 0 && org[i + t] == org[i] + t
    decreases t
  {
    NoCutInside(text, rest, org, spans, p, i, t);
    if t > 0 {
      PlacesFollow(text, rest, org, spans, p, i, t - 1);
      var k := i + t;
      assert org[k] == org[k - 1] + 1;
    }
  }

  lemma PlaceIsFree(text: string, rest: string, org: seq<int>, spans: seq<Span>, p: string, i: nat, t: nat)
    requires Shrunk(text, rest, org, spans) && IsPhrase(p) && Stands(rest, p, i) && t < |p|
    ensures org[i] >= 0 && org[i + t] == org[i] + t < |text|
    ensures text[org[i] + t] == rest[i + t] == p[t] && !Consumed(spans, org[i] + t)
  {
    hide InOrder, Consumed, IsPhrase;
    PlacesFollow(text, rest, org, spans, p, i, t);
    assert org[i + t] in org;
  }

  /** Consuming a phrase never makes a new one: what stands in the shrunk text stands, as whole words, in a free
      place of the question. */
  lemma MatchIsInQuestion(text: string, rest: string, org: seq<int>, spans: seq<Span>, p: string, i: nat)
    requires IsPadded(text) && Shrunk(text, rest, org, spans) && IsPhrase(p) && Stands(rest, p, i)
    ensures 0 < i && i + |p| < |rest| && org[i] >= 0
    ensures Stands(text, p, org[i]) && Free(spans, org[i], |p|)
  {
    var n := |p|;
    EndsAreSpaces(text, rest, org, spans);
    PlaceIsFree(text, rest, org, spans, p, i, 0);
    PlaceIsFree(text, rest, org, spans, p, i, n - 1);
    NeighboursOutside(text, rest, org, spans, i, i + n);
    hide Shrunk, IsPadded, IsWordChar, Consumed;
    var o := org[i];
    forall t | 0 <= t < n
      ensures text[o + t] == p[t]
    {
      PlaceIsFree(text, rest, org, spans, p, i, t);
    }
    forall x | o <= x < o + n
      ensures !Consumed(spans, x)
    {
      PlaceIsFree(text, rest, org, spans, p, i, x - o);
    }
  }

  lemma EndsAreSpaces(text: string, rest: string, org: seq<int>, spans: seq<Span>)
    requires IsPadded(text) && Shrunk(text, rest, org, spans)
    ensures rest[0] == ' ' && rest[|rest| - 1] == ' '
  {
  }

  lemma NeighboursOutside(text: string, rest: string, org: seq<int>, spans: seq<Span>, i: nat, j: nat)
    requires IsPadded(text) && Shrunk(text, rest, org, spans) && 0 < i < j < |rest|
    requires org[i] >= 0 && org[j - 1] >= 0 && IsWordChar(rest[i]) && IsWordChar(rest[j - 1])
    requires !IsWordChar(rest[i - 1]) && !IsWordChar(rest[j])
    ensures org[i] > 0 && !IsWordChar(text[org[i] - 1])
    ensures org[j - 1] + 1 < |text| && !IsWordChar(text[org[j - 1] + 1])
  {
    assert org[i - 1] >= 0;
    assert org[j] >= 0;
    assert org[i] == org[i - 1] + 1 && org[j] == org[j - 1] + 1;
  }

  // ---- a free match of the question is a match in what is left ----

  lemma NextPlace(text: string, rest: string, org: seq<int>, spans: seq<Span>, k: nat)
    requires Shrunk(text, rest, org, spans) && k < |org| && org[k] >= 0 && org[k] + 1 < |text|
    requires !Consumed(spans, org[k] + 1)
    ensures k + 1 < |org| && org[k + 1] == org[k] + 1
  {
    var o := org[k] + 1;
    assert o in org;
    var l :| 0 <= l < |org| && org[l] == o;
    assert l > k;
    assert org[k + 1] >= -1;
  }

  lemma {:induction false} FreePlaces(text: string, rest: string, org: seq<int>, spans: seq<Span>, k: nat, o: nat,
      t: nat)
    requires Shrunk(text, rest, org, spans) && k < |org| && org[k] == o && o + t < |text| && Free(spans, o, t + 1)
    ensures k + t < |org| && org[k + t] == o + t && rest[k + t] == text[o + t]
    decreases t
  {
    if t > 0 {
      FreePlaces(text, rest, org, spans, k, o, t - 1);
      NextPlace(text, rest, org, spans, k + (t - 1));
    }
  }

  /** Nothing free is overlooked: a phrase that stands free in the question stands in the shrunk text. */
  lemma FreeMatchIsLeft(text: string, rest: string, org: seq<int>, spans: seq<Span>, p: string, o: nat) returns (i: nat)
    requires IsPadded(text) && Shrunk(text, rest, org, spans) && IsPhrase(p)
    requires Stands(text, p, o) && Free(spans, o, |p|)
    ensures i < |org| && org[i] == o && Stands(rest, p, i)
  {
    assert !Consumed(spans, o);
    assert o in org;
    i :| 0 <= i < |org| && org[i] == o;
    forall t | 0 <= t < |p|
      ensures i + t < |org| && org[i + t] == o + t && rest[i + t] == text[o + t] == p[t]
    {
      FreePlaces(text, rest, org, spans, i, o, t);
    }
    FreePlaces(text, rest, org, spans, i, o, |p| - 1);
    BoundaryLeft(text, rest, org, spans, p, o, i);
  }

  lemma BoundaryLeft(text: string, rest: string, org: seq<int>, spans: seq<Span>, p: string, o: nat, i: nat)
    requires IsPadded(text) && Shrunk(text, rest, org, spans) && IsPhrase(p) && Stands(text, p, o)
    requires i + |p| <= |rest| && org[i] == o && org[i + (|p| - 1)] == o + (|p| - 1)
    ensures i > 0 ==> !IsWordChar(rest[i - 1])
    ensures i + |p| < |rest| ==> !IsWordChar(rest[i + |p|])
  {
    hide Consumed;
    if i > 0 {
      assert org[i - 1] == -1 || org[i] == org[i - 1] + 1;
    }
    var j := i + |p|;
    if j < |rest| {
      assert org[j] == -1 || org[j] == org[j - 1] + 1;
    }
  }

  // ---- cutting a match out ----

  function CutText(rest: string, i: nat, n: nat): string
    requires i + n <= |rest|
  {
    rest[..i] + " " + rest[i + n..]
  }

  function CutPlaces(org: seq<int>, i: nat, n: nat): seq<int>
    requires i + n <= |org|
  {
    org[..i] + [-1] + org[i + n..]
  }

  lemma PlacesOfCut(org: seq<int>, i: nat, n: nat)
    requires n > 0 && i + n <= |org|
    ensures var cut := CutPlaces(org, i, n);
      && |cut| == |org| - n + 1 && cut[i] == -1
      && (forall k :: 0 <= k < i ==> cut[k] == org[k])
      && (forall k :: i < k < |cut| ==> cut[k] == org[k + n - 1])
  {
  }

  lemma CutIncreases(org: seq<int>, i: nat, n: nat)
    requires Increasing(org) && n > 0 && i + n <= |org|
    ensures Increasing(CutPlaces(org, i, n))
  {
    PlacesOfCut(org, i, n);
    hide CutPlaces;
  }

  lemma CutAdjoins(org: seq<int>, i: nat, n: nat)
    requires Adjacent(org) && n > 0 && i + n <= |org|
    ensures Adjacent(CutPlaces(org, i, n))
  {
    PlacesOfCut(org, i, n);
    hide CutPlaces;
    var cut := CutPlaces(org, i, n);
    forall k | 0 < k < |cut| && cut[k - 1] >= 0 && cut[k] >= 0
      ensures cut[k] == cut[k - 1] + 1
    {
      if k > i {
        assert k - 1 > i;
        assert org[k + n - 1] == org[k + n - 1 - 1] + 1;
      }
    }
  }

  lemma CutGaps(org: seq<int>, i: nat, n: nat)
    requires InOrder(org) && n > 0 && i + n <= |org| && org[i] >= 0
    ensures Gapped(CutPlaces(org, i, n))
  {
    PlacesOfCut(org, i, n);
    hide CutPlaces;
    var cut := CutPlaces(org, i, n);
    forall k, m, l | 0 <= k < m < l < |cut| && cut[k] >= 0 && cut[m] == -1 && cut[l] >= 0
      ensures cut[l] > cut[k] + 1
    {
      if l > i && k < i {
        assert cut[l] == org[l + n - 1];
        assert org[k] < org[i] < org[l + n - 1];
      } else if k > i {
        assert cut[k] == org[k + n - 1] && cut[m] == org[m + n - 1] && cut[l] == org[l + n - 1];
      }
    }
  }

  lemma CutConsumes(text: string, org: seq<int>, spans: seq<Span>, i: nat, n: nat)
    requires n > 0 && i + n <= |org| && org[i] >= 0
    requires forall o :: 0 <= o < |text| ==> (o in org <==> !Consumed(spans, o))
    requires forall x :: i <= x < i + n ==> org[x] == org[i] + (x - i)
    requires Increasing(org)
    ensures forall o :: 0 <= o < |text| ==>
      (o in CutPlaces(org, i, n) <==> !Consumed(spans + [Span(org[i], n)], o))
  {
    forall o | 0 <= o < |text|
      ensures o in CutPlaces(org, i, n) <==> !Consumed(spans + [Span(org[i], n)], o)
    {
      SpanAdded(spans, Span(org[i], n), o);
      LeftOfCut(org, i, n, o);
    }
  }

  lemma LeftOfCut(org: seq<int>, i: nat, n: nat, o: nat)
    requires n > 0 && i + n <= |org| && org[i] >= 0 && Increasing(org)
    requires forall x :: i <= x < i + n ==> org[x] == org[i] + (x - i)
    ensures o in CutPlaces(org, i, n) <==> o in org && !(org[i] <= o < org[i] + n)
  {
    PlacesOfCut(org, i, n);
    var cut := CutPlaces(org, i, n);
    hide CutPlaces;
    if o in org && !(org[i] <= o < org[i] + n) {
      var k :| 0 <= k < |org| && org[k] == o;
      assert k < i || k >= i + n;
      assert k < i ==> cut[k] == o;
      assert k >= i + n ==> cut[k - n + 1] == org[k - n + 1 + n - 1] == o;
    }
    if o in cut {
      var k :| 0 <= k < |cut| && cut[k] == o;
      assert k < i ==> org[k] == o && org[k] < org[i];
      assert k > i ==> org[k + n - 1] == o && org[i + n - 1] < org[k + n - 1];
      assert org[i + n - 1] == org[i] + (n - 1);
    }
  }

  lemma SpanAdded(spans: seq<Span>, span: Span, o: int)
    ensures Consumed(spans + [span], o) <==> Consumed(spans, o) || Covers(span, o)
  {
    assert span in spans + [span];
    assert forall s :: s in spans ==> s in spans + [span];
  }

  lemma WordOrSpace(text: string, rest: string, org: seq<int>, spans: seq<Span>, k: nat)
    requires IsPadded(text) && Shrunk(text, rest, org, spans) && k < |rest|
    ensures IsWordChar(rest[k]) || rest[k] == ' '
  {
    hide InOrder, Consumed;
    assert org[k] == -1 || rest[k] == text[org[k]];
  }

  lemma TextOfCut(rest: string, i: nat, n: nat)
    requires n > 0 && i + n <= |rest|
    ensures var cut := CutText(rest, i, n);
      && |cut| == |rest| - n + 1 && cut[i] == ' '
      && (forall k :: 0 <= k < i ==> cut[k] == rest[k])
      && (forall k :: i < k < |cut| ==> cut[k] == rest[k + n - 1])
  {
  }

  lemma CutNeighbours(rest: string, org: seq<int>, i: nat, n: nat)
    requires SpacesAround(rest, org) && n > 0 && 0 < i && i + n < |rest|
    requires rest[i - 1] == ' ' && rest[i + n] == ' ' && rest[i] != ' ' && rest[i + n - 1] != ' '
    ensures SpacesAround(CutText(rest, i, n), CutPlaces(org, i, n))
  {
    TextOfCut(rest, i, n);
    PlacesOfCut(org, i, n);
    hide CutText, CutPlaces;
    var cut, places := CutText(rest, i, n), CutPlaces(org, i, n);
    forall k | 0 <= k < |places| && places[k] == -1
      ensures cut[k] == ' ' && 0 < k < |places| - 1 && cut[k - 1] == ' ' && cut[k + 1] == ' '
    {
      if k < i {
        assert org[k] == -1 && k + 1 != i;
      } else if k > i {
        assert org[k + n - 1] == -1 && k - 1 != i;
        assert cut[k - 1] == rest[k - 1 + n - 1] && cut[k + 1] == rest[k + 1 + n - 1];
      } else {
        assert cut[i - 1] == rest[i - 1] && cut[i + 1] == rest[i + 1 + n - 1];
      }
    }
  }

  lemma CutStandsForText(text: string, rest: string, org: seq<int>, i: nat, n: nat)
    requires |rest| == |org| && n > 0 && i + n < |rest| && 0 < i
    requires forall k :: 0 <= k < |org| ==> -1 <= org[k] < |text|
    requires forall k :: 0 <= k < |org| && org[k] >= 0 ==> rest[k] == text[org[k]]
    ensures var cut, places := CutText(rest, i, n), CutPlaces(org, i, n);
      && |cut| == |places| >= 2 && places[0] == org[0] && places[|places| - 1] == org[|org| - 1]
      && (forall k :: 0 <= k < |places| ==> -1 <= places[k] < |text|)
      && (forall k :: 0 <= k < |places| && places[k] >= 0 ==> cut[k] == text[places[k]])
  {
    TextOfCut(rest, i, n);
    PlacesOfCut(org, i, n);
    hide CutText, CutPlaces;
  }

  /** What stands around a match, and where its characters come from. */
  lemma CutSurroundings(text: string, rest: string, org: seq<int>, spans: seq<Span>, p: string, i: nat)
    requires IsPadded(text) && Shrunk(text, rest, org, spans) && IsPhrase(p) && Stands(rest, p, i)
    ensures 0 < i && i + |p| < |rest| && org[i] >= 0
    ensures rest[i - 1] == ' ' && rest[i + |p|] == ' ' && rest[i] != ' ' && rest[i + |p| - 1] != ' '
    ensures forall x :: i <= x < i + |p| ==> org[x] == org[i] + (x - i)
  {
    var n := |p|;
    MatchIsInQuestion(text, rest, org, spans, p, i);
    WordOrSpace(text, rest, org, spans, i - 1);
    WordOrSpace(text, rest, org, spans, i + n);
    assert rest[i + 0] == p[0] && rest[i + (n - 1)] == p[n - 1];
    forall x | i <= x < i + n
      ensures org[x] == org[i] + (x - i)
    {
      PlaceIsFree(text, rest, org, spans, p, i, x - i);
    }
  }

  /** Cutting out a match leaves a text that still stands to the question as before. */
  lemma CutKeepsShrunk(text: string, rest: string, org: seq<int>, spans: seq<Span>, p: string, i: nat)
    requires IsPadded(text) && Shrunk(text, rest, org, spans) && IsPhrase(p) && Stands(rest, p, i)
    ensures org[i] >= 0
    ensures Shrunk(text, CutText(rest, i, |p|), CutPlaces(org, i, |p|), spans + [Span(org[i], |p|)])
  {
    var n := |p|;
    CutSurroundings(text, rest, org, spans, p, i);
    hide Consumed, Increasing, Adjacent, Gapped, CutText, CutPlaces, Stands, IsPadded;
    CutIncreases(org, i, n);
    CutAdjoins(org, i, n);
    CutGaps(org, i, n);
    CutConsumes(text, org, spans, i, n);
    CutNeighbours(rest, org, i, n);
    CutStandsForText(text, rest, org, i, n);
  }
}
