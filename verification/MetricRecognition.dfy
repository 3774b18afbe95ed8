/** The loop that recognises metrics: which phrases it finds, and where. */
module MetricRecognition {
  import opened Options
  import opened PhraseSpans

  datatype Pattern = Pattern(phrase: string, metric: string)

  function SpanOf(pat: Pattern, at: Option<nat>): seq<Span> {
    if at.Some? then [Span(at.value, |pat.phrase|)] else []
  }

  /** The spans cut out for the first `t` patterns. */
  function SpansBefore(pats: seq<Pattern>, found: seq<Option<nat>>, t: nat): seq<Span>
    requires t <= |found| && t <= |pats|
  {
    if t == 0 then [] else SpansBefore(pats, found, t - 1) + SpanOf(pats[t - 1], found[t - 1])
  }

  /** The phrase stands at `o` clear of everything cut out before. */
  predicate StandsFree(text: string, p: string, spans: seq<Span>, o: nat) {
    Stands(text, p, o) && Free(spans, o, |p|)
  }

  /** The first free place of each phrase, if it has one, given the places of the phrases before it. */
  ghost predicate FirstFree(text: string, pats: seq<Pattern>, found: seq<Option<nat>>, t: nat)
    requires t < |found| && t < |pats|
  {
    var spans, p := SpansBefore(pats, found, t), pats[t].phrase;
    match found[t]
    case None => forall o: nat :: !StandsFree(text, p, spans, o)
    case Some(o) => StandsFree(text, p, spans, o) && forall x: nat :: x < o ==> !StandsFree(text, p, spans, x)
  }

  ghost predicate Accounted(text: string, pats: seq<Pattern>, found: seq<Option<nat>>) {
    |found| == |pats| && forall t :: 0 <= t < |pats| ==> FirstFree(text, pats, found, t)
  }

  // ---- the loop ----

  method FirstMatch(rest: string, p: string) returns (i: Option<nat>)
    ensures i == None ==> forall k: nat :: !Stands(rest, p, k)
    ensures i.Some? ==> Stands(rest, p, i.value) && forall k: nat :: k < i.value ==> !Stands(rest, p, k)
  {
    for k := 0 to |rest| + 1
      invariant forall x: nat :: x < k ==> !Stands(rest, p, x)
    {
      if Stands(rest, p, k) {
        return Some(k);
      }
    }
    return None;
  }

  lemma WholeTextIsShrunk(text: string) returns (org: seq<int>)
    requires IsPadded(text)
    ensures Shrunk(text, text, org, [])
  {
    org := Identity(|text|);
    IdentityInOrder(|text|);
    NothingConsumed();
    hide Consumed, IsWordChar, InOrder;
    forall o | 0 <= o < |text|
      ensures o in org <==> !Consumed([], o)
    {
      assert org[o] == o;
    }
    assert SpacesAround(text, org);
  }

  lemma IdentityInOrder(n: nat)
    ensures InOrder(Identity(n))
  {
    hide Identity;
  }

  function Identity(n: nat): (org: seq<int>)
    ensures |org| == n && forall k :: 0 <= k < n ==> org[k] == k
  {
    seq(n, k => k)
  }

  lemma NothingConsumed()
    ensures forall o :: !Consumed([], o)
  {
  }

  lemma SpansBeforeStay(pats: seq<Pattern>, found: seq<Option<nat>>, more: Option<nat>, t: nat)
    requires t <= |found| < |pats|
    ensures SpansBefore(pats, found + [more], t) == SpansBefore(pats, found, t)
  {
    if t > 0 {
      SpansBeforeStay(pats, found, more, t - 1);
    }
  }

  /** What a search of the shrunk text says of the question. */
  lemma SearchAccounts(
    text: string, rest: string, org: seq<int>, spans: seq<Span>, p: string, i: Option<nat>)
    requires IsPadded(text) && Shrunk(text, rest, org, spans) && IsPhrase(p)
    requires i == None ==> forall k: nat :: !Stands(rest, p, k)
    requires i.Some? ==> Stands(rest, p, i.value) && forall k: nat :: k < i.value ==> !Stands(rest, p, k)
    ensures i == None ==> forall o: nat :: !StandsFree(text, p, spans, o)
    ensures i.Some? ==> org[i.value] >= 0 && StandsFree(text, p, spans, org[i.value])
    ensures i.Some? ==> forall x: nat :: x < org[i.value] ==> !StandsFree(text, p, spans, x)
  {
    hide Stands, Free, IsPhrase;
    if i.Some? {
      MatchIsInQuestion(text, rest, org, spans, p, i.value);
    }
    forall o: nat | StandsFree(text, p, spans, o)
      ensures i.Some? && org[i.value] <= o
    {
      var k := FreeMatchIsLeft(text, rest, org, spans, p, o);
      assert i.Some? && i.value <= k;
    }
  }

  method Recognise(text: string, pats: seq<Pattern>) returns (metrics: seq<string>, ghost found: seq<Option<nat>>)
    requires IsPadded(text) && forall t :: 0 <= t < |pats| ==> IsPhrase(pats[t].phrase)
    ensures Accounted(text, pats, found)
    ensures forall m :: m in metrics <==> exists t :: 0 <= t < |pats| && found[t].Some? && pats[t].metric == m
    ensures forall i, j :: 0 <= i < j < |metrics| ==> metrics[i] != metrics[j]
  {
    hide Shrunk, IsPhrase, Stands, IsPadded, FirstFree;
    var rest := text;
    metrics, found := [], [];
    ghost var org := WholeTextIsShrunk(text);
    for t := 0 to |pats|
      invariant |found| == t
      invariant Shrunk(text, rest, org, SpansBefore(pats, found, t))
      invariant forall u :: 0 <= u < t ==> FirstFree(text, pats, found, u)
      invariant forall m :: m in metrics <==> exists u :: 0 <= u < t && found[u].Some? && pats[u].metric == m
      invariant forall i, j :: 0 <= i < j < |metrics| ==> metrics[i] != metrics[j]
    {
      var p := pats[t].phrase;
      var i := FirstMatch(rest, p);
      ghost var at := Place(text, rest, org, SpansBefore(pats, found, t), p, i);
      FoundOneMore(text, pats, found, at);
      if i.Some? {
        ghost var spans := SpansBefore(pats, found, t);
        CutKeepsShrunk(text, rest, org, spans, p, i.value);
        StandsInside(rest, p, i.value);
        org := CutPlaces(org, i.value, |p|);
        rest := CutText(rest, i.value, |p|);
        if pats[t].metric !in metrics {
          metrics := metrics + [pats[t].metric];
        }
      }
      assert at == None ==> SpansBefore(pats, found, t) + [] == SpansBefore(pats, found, t);
      found := found + [at];
    }
  }

  lemma StandsInside(rest: string, p: string, i: nat)
    requires Stands(rest, p, i)
    ensures i + |p| <= |rest|
  {
  }

  lemma Place(text: string, rest: string, org: seq<int>, spans: seq<Span>, p: string, i: Option<nat>)
    returns (at: Option<nat>)
    requires IsPadded(text) && Shrunk(text, rest, org, spans) && IsPhrase(p)
    requires i == None ==> forall k: nat :: !Stands(rest, p, k)
    requires i.Some? ==> Stands(rest, p, i.value) && forall k: nat :: k < i.value ==> !Stands(rest, p, k)
    ensures |org| == |rest|
    ensures i == None ==> at == None && forall o: nat :: !StandsFree(text, p, spans, o)
    ensures i.Some? ==> i.value < |org| && org[i.value] >= 0 && at == Some(org[i.value])
    ensures i.Some? ==> StandsFree(text, p, spans, org[i.value])
    ensures i.Some? ==> forall x: nat :: x < org[i.value] ==> !StandsFree(text, p, spans, x)
  {
    SearchAccounts(text, rest, org, spans, p, i);
    at := if i.Some? then Some(org[i.value]) else None;
  }

  lemma {:induction false} FoundOneMore(text: string, pats: seq<Pattern>, found: seq<Option<nat>>, at: Option<nat>)
    requires |found| < |pats| && forall u :: 0 <= u < |found| ==> FirstFree(text, pats, found, u)
    requires var spans, p := SpansBefore(pats, found, |found|), pats[|found|].phrase;
      match at
      case None => forall o: nat :: !StandsFree(text, p, spans, o)
      case Some(o) => StandsFree(text, p, spans, o) && forall x: nat :: x < o ==> !StandsFree(text, p, spans, x)
    ensures forall u :: 0 <= u <= |found| ==> FirstFree(text, pats, found + [at], u)
    ensures SpansBefore(pats, found + [at], |found| + 1) == SpansBefore(pats, found, |found|)
      + SpanOf(pats[|found|], at)
  {
    hide StandsFree, SpanOf;
    SpansBeforeStay(pats, found, at, |found|);
    forall u | 0 <= u < |found|
      ensures FirstFree(text, pats, found + [at], u)
    {
      FirstFreeStays(text, pats, found, at, u);
    }
    assert (found + [at])[|found|] == at;
  }

  lemma FirstFreeStays(text: string, pats: seq<Pattern>, found: seq<Option<nat>>, at: Option<nat>, u: nat)
    requires u < |found| < |pats| && FirstFree(text, pats, found, u)
    ensures FirstFree(text, pats, found + [at], u)
  {
    hide StandsFree;
    SpansBeforeStay(pats, found, at, u);
    assert (found + [at])[u] == found[u];
  }

  // ---- what the outcome means ----

  /** The places found are determined by the question and the patterns. */
  lemma {:induction false} AccountsDetermine(
    text: string, pats: seq<Pattern>, a: seq<Option<nat>>, b: seq<Option<nat>>, n: nat)
    requires Accounted(text, pats, a) && Accounted(text, pats, b) && n <= |pats|
    ensures a[..n] == b[..n] && SpansBefore(pats, a, n) == SpansBefore(pats, b, n)
  {
    hide StandsFree;
    if n > 0 {
      AccountsDetermine(text, pats, a, b, n - 1);
      assert FirstFree(text, pats, a, n - 1) && FirstFree(text, pats, b, n - 1);
      assert a[n - 1] == b[n - 1] by {
        if a[n - 1].Some? && b[n - 1].Some? {
          assert a[n - 1].value == b[n - 1].value;
        }
      }
      assert a[..n] == a[..n - 1] + [a[n - 1]] && b[..n] == b[..n - 1] + [b[n - 1]];
    }
  }

  lemma {:induction false} SpanComesFrom(pats: seq<Pattern>, found: seq<Option<nat>>, t: nat, s: Span)
    requires t <= |found| && t <= |pats|
    ensures s in SpansBefore(pats, found, t) <==>
      exists u :: 0 <= u < t && found[u].Some? && s == Span(found[u].value, |pats[u].phrase|)
  {
    if t > 0 {
      SpanComesFrom(pats, found, t - 1, s);
    }
  }

  ghost predicate LongestFirst(pats: seq<Pattern>) {
    forall t, u :: 0 <= t < u < |pats| ==> |pats[t].phrase| >= |pats[u].phrase|
  }

  /** The more specific phrase wins: a phrase that stands in the question and is not found is overlapped, wherever it
      stands, by one that is found, comes earlier and is at least as long. */
  lemma LongestWins(text: string, pats: seq<Pattern>, found: seq<Option<nat>>, t: nat, o: nat) returns (u: nat, x: int)
    requires Accounted(text, pats, found) && LongestFirst(pats)
    requires t < |pats| && found[t] == None && Stands(text, pats[t].phrase, o)
    ensures u < t && found[u].Some? && |pats[u].phrase| >= |pats[t].phrase|
    ensures o <= x < o + |pats[t].phrase| && Covers(Span(found[u].value, |pats[u].phrase|), x)
  {
    var spans := SpansBefore(pats, found, t);
    assert FirstFree(text, pats, found, t);
    assert !StandsFree(text, pats[t].phrase, spans, o);
    x :| o <= x < o + |pats[t].phrase| && Consumed(spans, x);
    var s :| s in spans && Covers(s, x);
    SpanComesFrom(pats, found, t, s);
    u :| 0 <= u < t && found[u].Some? && s == Span(found[u].value, |pats[u].phrase|);
  }

  lemma {:induction false} NothingBefore(pats: seq<Pattern>, found: seq<Option<nat>>, t: nat)
    requires t <= |found| && t <= |pats| && forall v :: 0 <= v < t ==> found[v] == None
    ensures SpansBefore(pats, found, t) == []
  {
    if t > 0 {
      NothingBefore(pats, found, t - 1);
    }
  }

  /** Do the `n` characters at `x` keep clear of the place where a phrase of `size` was found? */
  predicate Clear(at: Option<nat>, size: nat, x: nat, n: nat) {
    at == None || x + n <= at.value || at.value + size <= x
  }

  lemma ClearOfOne(pats: seq<Pattern>, found: seq<Option<nat>>, t: nat, u: nat, x: nat, n: nat)
    requires t < u <= |found| && u <= |pats| && n > 0 && pats[t].phrase != ""
    requires forall v :: 0 <= v < u && v != t ==> found[v] == None
    ensures Free(SpansBefore(pats, found, u), x, n) <==> Clear(found[t], |pats[t].phrase|, x, n)
  {
    var spans := SpansBefore(pats, found, u);
    if found[t].Some? {
      var s := Span(found[t].value, |pats[t].phrase|);
      SpanComesFrom(pats, found, u, s);
      assert s in spans;
      if !Clear(found[t], s.size, x, n) {
        var y := if x < s.start then s.start else x;
        assert Covers(s, y) && x <= y < x + n;
        assert Consumed(spans, y);
      }
    }
    if !Free(spans, x, n) {
      var y :| x <= y < x + n && Consumed(spans, y);
      var s :| s in spans && Covers(s, y);
      SpanComesFrom(pats, found, u, s);
      assert found[t].Some? && s == Span(found[t].value, |pats[t].phrase|);
    }
  }

  /** When of the phrases up to `u` only two stand in a question, the second is found if and only if it stands
      somewhere clear of the first place of the first. */
  lemma SecondPhraseFoundExactlyWhen(text: string, pats: seq<Pattern>, found: seq<Option<nat>>, t: nat, u: nat)
    requires Accounted(text, pats, found) && t < u < |pats| && pats[t].phrase != "" && pats[u].phrase != ""
    requires forall v, o: nat :: 0 <= v < u && v != t ==> !Stands(text, pats[v].phrase, o)
    ensures match found[t]
      case None => forall o: nat :: !Stands(text, pats[t].phrase, o)
      case Some(o) => Stands(text, pats[t].phrase, o) && forall x: nat :: x < o ==> !Stands(text, pats[t].phrase, x)
    ensures found[u].Some? <==> exists x: nat ::
      Stands(text, pats[u].phrase, x) && Clear(found[t], |pats[t].phrase|, x, |pats[u].phrase|)
  {
    hide Stands, Free, Clear;
    forall v | 0 <= v < u && v != t
      ensures found[v] == None
    {
      assert FirstFree(text, pats, found, v);
    }
    assert FirstFree(text, pats, found, t) && FirstFree(text, pats, found, u);
    NothingBefore(pats, found, t);
    forall o: nat
      ensures Stands(text, pats[t].phrase, o) <==> StandsFree(text, pats[t].phrase, [], o)
    {
      FreeOfNone(o, |pats[t].phrase|);
    }
    var spans := SpansBefore(pats, found, u);
    forall x: nat
      ensures StandsFree(text, pats[u].phrase, spans, x)
          <==> Stands(text, pats[u].phrase, x) && Clear(found[t], |pats[t].phrase|, x, |pats[u].phrase|)
    {
      ClearOfOne(pats, found, t, u, x, |pats[u].phrase|);
    }
  }

  lemma FreeOfNone(o: nat, n: nat)
    ensures Free([], o, n)
  {
  }

  const TWICE := " consulting nps consulting nps "

  lemma TwiceStands()
    ensures Stands(TWICE, "consulting nps", 1) && !Stands(TWICE, "consulting nps", 0)
  {
    assert "consulting nps"[0] == 'c';
  }

  lemma ShortStands()
    ensures Stands(TWICE, "nps", 27)
  {
  }

  /** Only one occurrence is cut out: said twice, "consulting nps" also counts as "nps", which is another metric, and
      the question is refused as ambiguous whatever else is in the table. */
  lemma RepeatedPhraseIsAmbiguous(pats: seq<Pattern>, found: seq<Option<nat>>, metrics: seq<string>, t: nat, u: nat)
    requires Accounted(TWICE, pats, found) && t < u < |pats|
    requires forall m :: m in metrics <==> exists v :: 0 <= v < |pats| && found[v].Some? && pats[v].metric == m
    requires pats[t] == Pattern("consulting nps", "consulting_avg_nps")
      && pats[u] == Pattern("nps", "support_nps_index")
    requires forall v, o: nat :: 0 <= v < u && v != t ==> !Stands(TWICE, pats[v].phrase, o)
    ensures "consulting_avg_nps" in metrics && "support_nps_index" in metrics && |metrics| > 1
  {
    TwiceStands();
    ShortStands();
    OutcomeLength(TWICE, pats, found);
    hide Stands, Accounted;
    SecondPhraseFoundExactlyWhen(TWICE, pats, found, t, u);
    assert found[t] == Some(1);
    assert Clear(found[t], |pats[t].phrase|, 27, |pats[u].phrase|);
    TwoMembers(metrics, "consulting_avg_nps", "support_nps_index");
  }

  lemma OutcomeLength(text: string, pats: seq<Pattern>, found: seq<Option<nat>>)
    requires Accounted(text, pats, found)
    ensures |found| == |pats|
  {
  }

  lemma TwoMembers(ss: seq<string>, a: string, b: string)
    requires a in ss && b in ss && a != b
    ensures |ss| > 1
  {
  }
}
