/** A statement's text as the region rewriter's patterns see it: its words, the calls that are stripped from it
    before tables are looked for, and the tables found in what is left. */
module StatementText {
  import opened Relational
  import opened Sequences

  // ---- the words of a statement ----

  /** NOW() is written with a pair of parentheses, a placeholder with none. */
  function ScalarWords(ss: seq<Scalar>): seq<Word> {
    if ss == [] then [] else (if ss[0].Now? then [Open, Close] else []) + ScalarWords(ss[1..])
  }

  function Words(q: Query): seq<Word> {
    match q
    case From(name) => [AfterFrom(name)]
    case Aside(_, _) => []
    case Leaf(_, scalars, text) => ScalarWords(scalars) + text
    case Enclosed(open, inner) => [open] + Words(inner) + [Close]
    case Op(_, scalars, l, r) => ScalarWords(scalars) + Words(l) + Words(r)
    case Each(_, scalars, outer, inner) => ScalarWords(scalars) + Words(outer) + Words(inner)
    case With(ctes, body) => CteWords(ctes) + Words(body)
    case Recursive(body) => [WithRecursive] + Words(body)
    case Where(_, from, _) => Words(from)
  }

  function CteWords(ctes: Ctes): seq<Word> {
    match ctes
    case End => []
    case Cte(name, def, rest) => [Head(name)] + Words(def) + [Close] + CteWords(rest)
  }

  predicate Opens(w: Word) {
    w.Open? || w.CallOpen? || w.Head?
  }

  // ---- stripping ----

  datatype Match = NoMatch | Upto(length: nat)

  function Longer(m: Match, n: nat): Match {
    if m.Upto? then Upto(m.length + n) else NoMatch
  }

  /** How much of `text` the pattern of a call takes after its opening parenthesis: words and one level of
      parentheses, up to the closing one. `inside` tells whether that one level is open. */
  function MatchCall(text: seq<Word>, inside: bool): (m: Match)
    ensures m.Upto? ==> 0 < m.length <= |text|
  {
    if text == [] then NoMatch
    else if text[0].Close? then (if inside then Longer(MatchCall(text[1..], false), 1) else Upto(1))
    else if Opens(text[0]) then (if inside then NoMatch else Longer(MatchCall(text[1..], true), 1))
    else Longer(MatchCall(text[1..], inside), 1)
  }

  /** The text without the calls the pattern matches, from left to right. */
  function Strip(text: seq<Word>): seq<Word> {
    if text == [] then []
    else
      var m := if text[0].CallOpen? then MatchCall(text[1..], false) else NoMatch;
      if m.Upto? then Strip(text[1 + m.length..]) else [text[0]] + Strip(text[1..])
  }

  // ---- the tables found ----

  function HeadNames(text: seq<Word>): set<Name> {
    set w | w in text && w.Head? :: w.name
  }

  function FromNames(text: seq<Word>): set<Name> {
    set w | w in text && w.AfterFrom? :: w.name
  }

  /** The names that follow FROM or JOIN outside the stripped calls, less every name the statement gives to a
      common table expression or a window anywhere. */
  function Referenced(text: seq<Word>): set<Name> {
    FromNames(Strip(text)) - HeadNames(text)
  }

  /** The rewriter's scan: CTE names from the whole text, tables from the stripped text. */
  method ReferencedTables(text: seq<Word>) returns (tables: seq<Name>)
    ensures Distinct(tables)
    ensures forall n :: n in tables <==> n in Referenced(text)
  {
    var cteNames: set<Name> := {};
    for i := 0 to |text|
      invariant cteNames == HeadNames(text[..i])
    {
      assert text[..i + 1] == text[..i] + [text[i]];
      if text[i].Head? { cteNames := cteNames + {text[i].name}; }
    }
    assert text[..|text|] == text;
    var stripped := Strip(text);
    tables := [];
    for i := 0 to |stripped|
      invariant Distinct(tables)
      invariant forall n :: n in tables <==> n in FromNames(stripped[..i]) - cteNames
    {
      assert stripped[..i + 1] == stripped[..i] + [stripped[i]];
      if stripped[i].AfterFrom? && stripped[i].name !in cteNames && stripped[i].name !in tables {
        tables := tables + [stripped[i].name];
      }
    }
    assert stripped[..|stripped|] == stripped;
  }

  // ---- what stripping takes away, in terms of the statement ----

  /** Parentheses are written with `Enclosed` and WITH only, so that each is closed. */
  predicate Tidy(q: Query) {
    match q
    case From(_) => true
    case Aside(_, _) => true
    case Leaf(_, _, text) => forall w :: w in text ==> !Opens(w) && !w.Close?
    case Enclosed(open, inner) => Opens(open) && Tidy(inner)
    case Op(_, _, l, r) => Tidy(l) && Tidy(r)
    case Each(_, _, outer, inner) => Tidy(outer) && Tidy(inner)
    case With(ctes, body) => TidyCtes(ctes) && Tidy(body)
    case Recursive(body) => Tidy(body)
    case Where(_, from, _) => Tidy(from)
  }

  predicate TidyCtes(ctes: Ctes) {
    match ctes
    case End => true
    case Cte(_, def, rest) => Tidy(def) && TidyCtes(rest)
  }

  function Max(a: nat, b: nat): nat {
    if a < b then b else a
  }

  function ScalarDepth(ss: seq<Scalar>): nat {
    if ss == [] then 0 else if ss[0].Now? then 1 else ScalarDepth(ss[1..])
  }

  /** How deep parentheses nest in a statement's text. */
  function Depth(q: Query): nat {
    match q
    case From(_) => 0
    case Aside(_, _) => 0
    case Leaf(_, scalars, _) => ScalarDepth(scalars)
    case Enclosed(_, inner) => 1 + Depth(inner)
    case Op(_, scalars, l, r) => Max(ScalarDepth(scalars), Max(Depth(l), Depth(r)))
    case Each(_, scalars, outer, inner) => Max(ScalarDepth(scalars), Max(Depth(outer), Depth(inner)))
    case With(ctes, body) => Max(CteDepth(ctes), Depth(body))
    case Recursive(body) => Depth(body)
    case Where(_, from, _) => Depth(from)
  }

  function CteDepth(ctes: Ctes): nat {
    match ctes
    case End => 0
    case Cte(_, def, rest) => Max(1 + Depth(def), CteDepth(rest))
  }

  /** A call is taken away exactly when parentheses nest at most once within its own. */
  predicate Shallow(open: Word, inner: Query) {
    open.CallOpen? && Depth(inner) <= 1
  }

  /** The words of a statement outside its shallow calls. */
  function Kept(q: Query): seq<Word> {
    match q
    case From(name) => [AfterFrom(name)]
    case Aside(_, _) => []
    case Leaf(_, scalars, text) => ScalarWords(scalars) + text
    case Enclosed(open, inner) => if Shallow(open, inner) then [] else [open] + Kept(inner) + [Close]
    case Op(_, scalars, l, r) => ScalarWords(scalars) + Kept(l) + Kept(r)
    case Each(_, scalars, outer, inner) => ScalarWords(scalars) + Kept(outer) + Kept(inner)
    case With(ctes, body) => KeptCtes(ctes) + Kept(body)
    case Recursive(body) => [WithRecursive] + Kept(body)
    case Where(_, from, _) => Kept(from)
  }

  function KeptCtes(ctes: Ctes): seq<Word> {
    match ctes
    case End => []
    case Cte(name, def, rest) => [Head(name)] + Kept(def) + [Close] + KeptCtes(rest)
  }

  /** `m` after passing over `n` words of nesting `depth`, where one level, if `inside`, is already used up. */
  function Past(depth: nat, n: nat, inside: bool, m: Match): Match {
    if depth + (if inside then 1 else 0) <= 1 then Longer(m, n) else NoMatch
  }

  lemma PastBoth(d: nat, n: nat, e: nat, k: nat, inside: bool, m: Match)
    ensures Past(d, n, inside, Past(e, k, inside, m)) == Past(Max(d, e), n + k, inside, m)
  {
  }

  lemma RegroupTwo(a: seq<Word>, b: seq<Word>, v: seq<Word>)
    ensures a + b + v == a + (b + v)
  {
  }

  lemma Regroup(s: seq<Word>, a: seq<Word>, b: seq<Word>, v: seq<Word>)
    ensures s + a + b + v == s + (a + (b + v))
  {
  }

  lemma MatchPair(v: seq<Word>, inside: bool)
    ensures MatchCall([Open, Close] + v, inside) == Past(1, 2, inside, MatchCall(v, inside))
  {
    var text := [Open, Close] + v;
    assert text[1..] == [Close] + v && ([Close] + v)[1..] == v;
    if !inside {
      assert MatchCall([Close] + v, true) == Longer(MatchCall(v, false), 1);
    }
  }

  lemma {:induction false} MatchPastScalars(ss: seq<Scalar>, v: seq<Word>, inside: bool)
    ensures MatchCall(ScalarWords(ss) + v, inside)
         == Past(ScalarDepth(ss), |ScalarWords(ss)|, inside, MatchCall(v, inside))
    ensures ScalarDepth(ss) <= 1
  {
    hide MatchCall;
    if ss == [] {
      assert ScalarWords(ss) + v == v;
    } else {
      var later := ScalarWords(ss[1..]);
      MatchPastScalars(ss[1..], v, inside);
      if ss[0].Now? {
        MatchPair(later + v, inside);
        RegroupTwo([Open, Close], later, v);
        PastBoth(1, 2, ScalarDepth(ss[1..]), |later|, inside, MatchCall(v, inside));
      } else {
        assert ScalarWords(ss) == later;
      }
    }
  }

  lemma {:induction false} MatchPastPlain(text: seq<Word>, v: seq<Word>, inside: bool)
    requires forall w :: w in text ==> !Opens(w) && !w.Close?
    ensures MatchCall(text + v, inside) == Past(0, |text|, inside, MatchCall(v, inside))
  {
    if text == [] {
      assert text + v == v;
    } else {
      assert (text + v)[0] == text[0] && (text + v)[1..] == text[1..] + v;
      assert text[0] in text && forall w :: w in text[1..] ==> w in text;
      MatchPastPlain(text[1..], v, inside);
    }
  }

  /** An opening word and its closing parenthesis around words of nesting `depth`. */
  lemma MatchPastEnclosed(open: Word, words: seq<Word>, depth: nat, v: seq<Word>, inside: bool)
    requires Opens(open)
    requires !inside ==>
      MatchCall(words + ([Close] + v), true) == Past(depth, |words|, true, MatchCall([Close] + v, true))
    ensures MatchCall([open] + words + [Close] + v, inside)
         == Past(1 + depth, |words| + 2, inside, MatchCall(v, inside))
  {
    var text := [open] + words + [Close] + v;
    assert text[0] == open && text[1..] == words + ([Close] + v);
    assert ([Close] + v)[1..] == v;
  }

  /** Matching a call passes over a statement within it if and only if the nesting allows. */
  lemma {:induction false} MatchPast(q: Query, v: seq<Word>, inside: bool)
    requires Tidy(q)
    ensures MatchCall(Words(q) + v, inside) == Past(Depth(q), |Words(q)|, inside, MatchCall(v, inside))
  {
    hide MatchCall, Past;
    var m := MatchCall(v, inside);
    match q
    case From(name) => MatchPastPlain([AfterFrom(name)], v, inside);
    case Aside(_, _) => MatchPastPlain([], v, inside);
    case Leaf(_, scalars, text) =>
      MatchPastScalars(scalars, text + v, inside);
      MatchPastPlain(text, v, inside);
      RegroupTwo(ScalarWords(scalars), text, v);
      PastBoth(ScalarDepth(scalars), |ScalarWords(scalars)|, 0, |text|, inside, m);
    case Enclosed(open, inner) =>
      MatchPast(inner, [Close] + v, true);
      MatchPastEnclosed(open, Words(inner), Depth(inner), v, inside);
    case Op(_, scalars, l, r) =>
      MatchPast(l, Words(r) + v, inside);
      MatchPast(r, v, inside);
      MatchPastScalars(scalars, Words(l) + (Words(r) + v), inside);
      Regroup(ScalarWords(scalars), Words(l), Words(r), v);
      PastBoth(Depth(l), |Words(l)|, Depth(r), |Words(r)|, inside, m);
      PastBoth(ScalarDepth(scalars), |ScalarWords(scalars)|, Max(Depth(l), Depth(r)), |Words(l)| + |Words(r)|,
               inside, m);
    case Each(_, scalars, outer, inner) =>
      MatchPast(outer, Words(inner) + v, inside);
      MatchPast(inner, v, inside);
      MatchPastScalars(scalars, Words(outer) + (Words(inner) + v), inside);
      Regroup(ScalarWords(scalars), Words(outer), Words(inner), v);
      PastBoth(Depth(outer), |Words(outer)|, Depth(inner), |Words(inner)|, inside, m);
      PastBoth(ScalarDepth(scalars), |ScalarWords(scalars)|, Max(Depth(outer), Depth(inner)),
               |Words(outer)| + |Words(inner)|, inside, m);
    case With(ctes, body) =>
      MatchPastCtes(ctes, Words(body) + v, inside);
      MatchPast(body, v, inside);
      RegroupTwo(CteWords(ctes), Words(body), v);
      PastBoth(CteDepth(ctes), |CteWords(ctes)|, Depth(body), |Words(body)|, inside, m);
    case Recursive(body) =>
      MatchPastPlain([WithRecursive], Words(body) + v, inside);
      MatchPast(body, v, inside);
      RegroupTwo([WithRecursive], Words(body), v);
      PastBoth(0, 1, Depth(body), |Words(body)|, inside, m);
    case Where(_, from, _) => MatchPast(from, v, inside);
  }

  lemma {:induction false} MatchPastCtes(ctes: Ctes, v: seq<Word>, inside: bool)
    requires TidyCtes(ctes)
    ensures MatchCall(CteWords(ctes) + v, inside)
         == Past(CteDepth(ctes), |CteWords(ctes)|, inside, MatchCall(v, inside))
  {
    hide MatchCall, Past;
    match ctes
    case End => MatchPastPlain([], v, inside);
    case Cte(name, def, rest) =>
      var later := CteWords(rest) + v;
      MatchPast(def, [Close] + later, true);
      MatchPastEnclosed(Head(name), Words(def), Depth(def), later, inside);
      MatchPastCtes(rest, v, inside);
      RegroupTwo([Head(name)] + Words(def) + [Close], CteWords(rest), v);
      PastBoth(1 + Depth(def), |Words(def)| + 2, CteDepth(rest), |CteWords(rest)|, inside, MatchCall(v, inside));
  }

  lemma {:induction false} StripScalars(ss: seq<Scalar>, v: seq<Word>)
    ensures Strip(ScalarWords(ss) + v) == ScalarWords(ss) + Strip(v)
  {
    hide Strip;
    if ss == [] {
      assert ScalarWords(ss) + v == v;
      assert ScalarWords(ss) + Strip(v) == Strip(v);
    } else {
      var rest := ScalarWords(ss[1..]) + v;
      StripScalars(ss[1..], v);
      if ss[0].Now? {
        assert ScalarWords(ss) + v == [Open, Close] + rest;
        StripPlainPair(rest);
        assert ScalarWords(ss) + Strip(v) == [Open, Close] + (ScalarWords(ss[1..]) + Strip(v));
      } else {
        assert ScalarWords(ss) == ScalarWords(ss[1..]);
      }
    }
  }

  lemma StripPlainPair(v: seq<Word>)
    ensures Strip([Open, Close] + v) == [Open, Close] + Strip(v)
  {
    var text := [Open, Close] + v;
    assert text[1..] == [Close] + v && ([Close] + v)[1..] == v;
    assert Strip([Close] + v) == [Close] + Strip(v);
  }

  lemma {:induction false} StripPlain(text: seq<Word>, v: seq<Word>)
    requires forall w :: w in text ==> !Opens(w)
    ensures Strip(text + v) == text + Strip(v)
  {
    if text == [] {
      assert text + v == v;
    } else {
      assert (text + v)[0] == text[0] && (text + v)[1..] == text[1..] + v;
      assert text[0] in text && forall w :: w in text[1..] ==> w in text;
      StripPlain(text[1..], v);
      assert text + Strip(v) == [text[0]] + (text[1..] + Strip(v));
    }
  }

  lemma StripClose(v: seq<Word>)
    ensures Strip([Close] + v) == [Close] + Strip(v)
  {
    assert ([Close] + v)[1..] == v;
  }

  lemma StripFirst(w: Word, rest: seq<Word>)
    ensures Strip([w] + rest)
         == if w.CallOpen? && MatchCall(rest, false).Upto? then Strip(rest[MatchCall(rest, false).length..])
            else [w] + Strip(rest)
  {
    var text := [w] + rest;
    assert text[1..] == rest;
    if w.CallOpen? && MatchCall(rest, false).Upto? {
      assert text[1 + MatchCall(rest, false).length..] == rest[MatchCall(rest, false).length..];
    }
  }

  lemma StripEnclosed(open: Word, inner: Query, v: seq<Word>)
    requires Opens(open) && Tidy(inner)
    requires Strip(Words(inner) + ([Close] + v)) == Kept(inner) + Strip([Close] + v)
    ensures Strip([open] + Words(inner) + [Close] + v)
         == (if Shallow(open, inner) then [] else [open] + Kept(inner) + [Close]) + Strip(v)
  {
    hide Strip, Words, Kept, Depth, Tidy;
    var rest := Words(inner) + ([Close] + v);
    MatchPast(inner, [Close] + v, false);
    assert MatchCall([Close] + v, false) == Upto(1);
    hide MatchCall;
    Regroup([open], Words(inner), [Close], v);
    StripFirst(open, rest);
    if Shallow(open, inner) {
      assert rest[|Words(inner)| + 1..] == v;
      assert [] + Strip(v) == Strip(v);
    } else {
      StripClose(v);
      Regroup([open], Kept(inner), [Close], Strip(v));
    }
  }

  /** STRIPPING. Whatever follows, the pattern takes from a statement's text exactly its shallow calls. */
  lemma {:induction false} StripKeeps(q: Query, v: seq<Word>)
    requires Tidy(q)
    ensures Strip(Words(q) + v) == Kept(q) + Strip(v)
  {
    hide Strip, MatchCall, Shallow;
    match q
    case From(name) => StripPlain([AfterFrom(name)], v);
    case Aside(_, _) => StripPlain([], v);
    case Leaf(_, scalars, text) =>
      StripScalars(scalars, text + v);
      StripPlain(text, v);
      RegroupTwo(ScalarWords(scalars), text, v);
      RegroupTwo(ScalarWords(scalars), text, Strip(v));
    case Enclosed(open, inner) =>
      StripKeeps(inner, [Close] + v);
      StripEnclosed(open, inner, v);
    case Op(_, scalars, l, r) =>
      StripScalars(scalars, Words(l) + (Words(r) + v));
      StripKeeps(l, Words(r) + v);
      StripKeeps(r, v);
      Regroup(ScalarWords(scalars), Words(l), Words(r), v);
      Regroup(ScalarWords(scalars), Kept(l), Kept(r), Strip(v));
    case Each(_, scalars, outer, inner) =>
      StripScalars(scalars, Words(outer) + (Words(inner) + v));
      StripKeeps(outer, Words(inner) + v);
      StripKeeps(inner, v);
      Regroup(ScalarWords(scalars), Words(outer), Words(inner), v);
      Regroup(ScalarWords(scalars), Kept(outer), Kept(inner), Strip(v));
    case With(ctes, body) =>
      StripKeepsCtes(ctes, Words(body) + v);
      StripKeeps(body, v);
      RegroupTwo(CteWords(ctes), Words(body), v);
      RegroupTwo(KeptCtes(ctes), Kept(body), Strip(v));
    case Recursive(body) =>
      StripPlain([WithRecursive], Words(body) + v);
      StripKeeps(body, v);
      RegroupTwo([WithRecursive], Words(body), v);
      RegroupTwo([WithRecursive], Kept(body), Strip(v));
    case Where(_, from, _) => StripKeeps(from, v);
  }

  lemma {:induction false} StripKeepsCtes(ctes: Ctes, v: seq<Word>)
    requires TidyCtes(ctes)
    ensures Strip(CteWords(ctes) + v) == KeptCtes(ctes) + Strip(v)
  {
    hide Strip, MatchCall;
    match ctes
    case End => StripPlain([], v);
    case Cte(name, def, rest) =>
      var later := CteWords(rest) + v;
      StripKeeps(def, [Close] + later);
      StripEnclosed(Head(name), def, later);
      StripKeepsCtes(rest, v);
      RegroupTwo([Head(name)] + Words(def) + [Close], CteWords(rest), v);
      RegroupTwo([Head(name)] + Kept(def) + [Close], KeptCtes(rest), Strip(v));
  }

  lemma StrippedText(q: Query)
    requires Tidy(q)
    ensures Strip(Words(q)) == Kept(q)
  {
    hide Words, Kept, Tidy;
    StripKeeps(q, []);
    assert Words(q) + [] == Words(q) && Kept(q) + [] == Kept(q);
  }
}
