/** The as-of rewrite of metric snapshots, which binds every NOW() of a statement to one appended parameter,
    and its composition with the region rewrite. */
module AsOf {
  import opened Relational
  import opened RegionScope
  import opened ScopeExactness
  import opened StatementText

  function BindNowIn(q: Query, k: nat): Query {
    SubstituteIn(BindNow(k), q)
  }

  /** A statement bound to an instant answers, whenever it is run, what it would have answered at that instant. */
  lemma AsOfMeansAtThatInstant(q: Query, params: seq<Value>, env: Env, ctx: seq<Row>, at: Value, now: Value, m: Meaning)
    requires ParamsBound(q, |params|)
    ensures Eval(BindNowIn(q, |params| + 1), env, ctx, Run(params + [at], now, m))
         == Eval(q, env, ctx, Run(params, at, m))
  {
    SubstitutionKeepsValue(BindNow(|params| + 1), |params|, q, env, ctx, Run(params + [at], now, m),
        Run(params, at, m));
  }

  /** The rewriter: pushes the instant, refers every NOW() to it; without an instant it changes nothing. */
  method AsOfRewrite(built: Built, asOf: Value) returns (r: Built)
    requires ParamsBound(built.text, |built.params|)
    ensures asOf == Null ==> r == built
    ensures asOf != Null ==> ParamsBound(r.text, |r.params|) && built.params <= r.params
    ensures asOf != Null ==> forall env, now, m ::
      Eval(r.text, env, [], Run(r.params, now, m)) == Eval(built.text, env, [], Run(built.params, asOf, m))
  {
    if asOf == Null { return built; }
    var values := built.params + [asOf];
    r := Built(BindNowIn(built.text, |values|), values);
    BindNowKeepsBound(built.text, |built.params|);
    forall env, now, m
      ensures Eval(r.text, env, [], Run(r.params, now, m)) == Eval(built.text, env, [], Run(built.params, asOf, m))
    {
      AsOfMeansAtThatInstant(built.text, built.params, env, [], asOf, now, m);
    }
  }

  // ---- the as-of rewrite leaves alone what a statement reads ----

  lemma {:induction false} BindNowKeepsBound(q: Query, n: nat)
    requires ParamsBound(q, n)
    ensures ParamsBound(BindNowIn(q, n + 1), n + 1)
  {
    match q
    case From(_) =>
    case Aside(_, _) =>
    case Leaf(_, _, _) =>
    case Enclosed(_, inner) => BindNowKeepsBound(inner, n);
    case Op(_, _, l, r) =>
      BindNowKeepsBound(l, n);
      BindNowKeepsBound(r, n);
    case Each(_, _, outer, inner) =>
      BindNowKeepsBound(outer, n);
      BindNowKeepsBound(inner, n);
    case With(ctes, body) =>
      BindNowKeepsCtesBound(ctes, n);
      BindNowKeepsBound(body, n);
    case Recursive(body) => BindNowKeepsBound(body, n);
    case Where(_, from, territory) =>
      assert ScalarsBound([territory], n) && [territory][0] == territory;
      BindNowKeepsBound(from, n);
  }

  lemma {:induction false} BindNowKeepsCtesBound(ctes: Ctes, n: nat)
    requires CtesBound(ctes, n)
    ensures CtesBound(SubstituteInCtes(BindNow(n + 1), ctes), n + 1)
  {
    match ctes
    case End =>
    case Cte(_, def, rest) =>
      BindNowKeepsBound(def, n);
      BindNowKeepsCtesBound(rest, n);
  }

  lemma {:induction false} SubstitutionKeepsShape(f: Subst, q: Query)
    ensures Live(SubstituteIn(f, q)) == Live(q)
    ensures Template(SubstituteIn(f, q)) == Template(q)
  {
    match q
    case From(_) =>
    case Aside(_, _) =>
    case Leaf(_, _, _) =>
    case Enclosed(_, inner) => SubstitutionKeepsShape(f, inner);
    case Op(_, _, l, r) =>
      SubstitutionKeepsShape(f, l);
      SubstitutionKeepsShape(f, r);
    case Each(_, _, outer, inner) =>
      SubstitutionKeepsShape(f, outer);
      SubstitutionKeepsShape(f, inner);
    case With(ctes, body) =>
      SubstitutionKeepsCteShape(f, ctes, Live(body));
      SubstitutionKeepsShape(f, body);
    case Recursive(body) => SubstitutionKeepsShape(f, body);
    case Where(_, from, _) => SubstitutionKeepsShape(f, from);
  }

  lemma {:induction false} SubstitutionKeepsCteShape(f: Subst, ctes: Ctes, wanted: set<Name>)
    ensures LiveThrough(SubstituteInCtes(f, ctes), wanted) == LiveThrough(ctes, wanted)
    ensures TemplateCtes(SubstituteInCtes(f, ctes)) == TemplateCtes(ctes)
  {
    match ctes
    case End =>
    case Cte(_, def, rest) =>
      SubstitutionKeepsShape(f, def);
      SubstitutionKeepsCteShape(f, rest, wanted);
  }

  /** COMPOSED. A snapshot of a regional territory, which binds the instant first and scopes the bound text,
      is the plain statement evaluated at that instant on the regional database. */
  lemma SnapshotIsRegionalAtInstant(q: Query, params: seq<Value>, shadow: seq<Table>, bases: seq<Table>,
                                    regions: seq<Region>, source: Source, db: Env, at: Value, now: Value, m: Meaning)
    requires Template(q) && ParamsBound(q, |params|)
    requires var bound := BindNowIn(q, |params| + 1); IsPlan(Words(bound), shadow, bases) && Covered(bound)
    ensures Eval(Prefixed(BindNowIn(q, |params| + 1), shadow, bases, Param(|params| + 2), source), db, [],
                 Run(params + [at] + [Territory(regions)], now, m))
         == Eval(q, Regionalized(db, Territory(regions), source, m), [], Run(params, at, m))
  {
    hide Regionalized, Eval, IsAnchor, SubstituteIn, Prefixed, ParamsBound, Template, Words, Live, Referenced, IsPlan;
    var bound := BindNowIn(q, |params| + 1);
    SubstitutionKeepsShape(BindNow(|params| + 1), q);
    BindNowKeepsBound(q, |params|);
    assert |params + [at]| + 1 == |params| + 2;
    ScopePreservesMeaning(bound, params + [at], shadow, bases, regions, source, db, now, m);
    AsOfMeansAtThatInstant(q, params, Regionalized(db, Territory(regions), source, m), [], at, now, m);
  }

  /** A snapshot's scoped text, run at any later time, answers what the plain statement answers at the instant on the
      regional database. */
  ghost predicate SnapshotIsRight(q: Query, params: seq<Value>, shadow: seq<Table>, bases: seq<Table>,
                                  regions: seq<Region>, source: Source, db: Env, at: Value, now: Value, m: Meaning)
    requires forall t :: t in shadow ==> IsAnchor(t)
  {
    Eval(Prefixed(BindNowIn(q, |params| + 1), shadow, bases, Param(|params| + 2), source), db, [],
         Run(params + [at] + [Territory(regions)], now, m))
      == Eval(q, Regionalized(db, Territory(regions), source, m), [], Run(params, at, m))
  }

  lemma SnapshotIsScopedBoundText(q: Query, params: seq<Value>, shadow: seq<Table>, bases: seq<Table>,
                                  regions: seq<Region>, source: Source, db: Env, at: Value, now: Value, m: Meaning)
    requires ParamsBound(q, |params|) && forall t :: t in shadow ==> IsAnchor(t)
    ensures SnapshotIsRight(q, params, shadow, bases, regions, source, db, at, now, m)
         == SameAnswer(BindNowIn(q, |params| + 1), shadow, bases, source, params + [at], regions, db, now, m)
  {
    hide Regionalized, Eval, IsAnchor, SubstituteIn, Prefixed, ParamsBound;
    assert |params + [at]| + 1 == |params| + 2;
    AsOfMeansAtThatInstant(q, params, Regionalized(db, Territory(regions), source, m), [], at, now, m);
  }

  /** EXACT. Snapshots of a statement are right for every database, territory and reading of its operators, if and
      only if its text is covered once the instant is bound. */
  lemma SnapshotsRightExactlyWhenBoundCovered(q: Query, params: seq<Value>, shadow: seq<Table>, bases: seq<Table>,
                                              source: Source, at: Value, now: Value)
    requires Template(q) && ParamsBound(q, |params|)
    requires IsPlan(Words(BindNowIn(q, |params| + 1)), shadow, bases)
    ensures Covered(BindNowIn(q, |params| + 1)) <==>
      forall regions, db, m :: IsDatabase(db) ==>
        SnapshotIsRight(q, params, shadow, bases, regions, source, db, at, now, m)
  {
    hide SnapshotIsRight, SameAnswer, IsAnchor, SubstituteIn, ParamsBound, Template, Words, Live, Covered, IsDatabase;
    var bound := BindNowIn(q, |params| + 1);
    SubstitutionKeepsShape(BindNow(|params| + 1), q);
    BindNowKeepsBound(q, |params|);
    assert |params + [at]| == |params| + 1;
    ScopingExactlyWhenCovered(bound, shadow, bases, source, params + [at], now);
    forall regions, db, m
      ensures SnapshotIsRight(q, params, shadow, bases, regions, source, db, at, now, m)
           == SameAnswer(bound, shadow, bases, source, params + [at], regions, db, now, m)
    {
      SnapshotIsScopedBoundText(q, params, shadow, bases, regions, source, db, at, now, m);
    }
  }

  /** `EXTRACT(EPOCH FROM (SELECT NOW() - created_at FROM jobs))`. */
  function AgeCall(s: Scalar): Query {
    Enclosed(CallOpen, Enclosed(Open, Op(0, [s], Leaf(0, [], []), From(Plain(Jobs)))))
  }

  lemma AgeCallText(s: Scalar)
    ensures Kept(AgeCall(s)) == if s.Now? then Words(AgeCall(s)) else []
    ensures s.Now? ==> Words(AgeCall(s)) == [CallOpen, Open, Open, Close, AfterFrom(Plain(Jobs)), Close, Close]
  {
    hide Strip;
    var select := AgeCall(s).inner.inner;
    assert ScalarWords([s]) == if s.Now? then [Open, Close] else [];
    assert Words(select) == ScalarWords([s]) + [AfterFrom(Plain(Jobs))] == Kept(select);
    assert ScalarDepth([s]) == if s.Now? then 1 else 0;
    assert Depth(select) == if s.Now? then 1 else 0;
  }

  /** Binding the instant takes the parentheses of NOW() away, so a call that was too deep to be stripped may be
      stripped, and a statement that was covered may no longer be. */
  lemma BindingCanHideTables()
    ensures Covered(AgeCall(Now)) && BindNowIn(AgeCall(Now), 1) == AgeCall(Param(1)) && !Covered(AgeCall(Param(1)))
  {
    hide Words, Kept, Strip, Depth;
    AgeCallText(Now);
    AgeCallText(Param(1));
    StrippedText(AgeCall(Now));
    StrippedText(AgeCall(Param(1)));
    var text := Words(AgeCall(Now));
    assert text[4].name in FromNames(text);
    assert HeadNames(text) == {};
    assert Plain(Jobs) in Live(AgeCall(Param(1)));
    assert SubstituteAll(BindNow(1), [Now]) == [Param(1)];
    assert SubstituteAll(BindNow(1), []) == [];
  }

  // ---- the two rewrites commute up to the numbering of their parameters ----

  lemma ScalarsCommute(ss: seq<Scalar>, n: nat)
    requires ScalarsBound(ss, n)
    ensures SubstituteAll(BindNow(n + 2), ss)
         == SubstituteAll(Exchange(n + 1, n + 2), SubstituteAll(BindNow(n + 1), ss))
  {
  }

  lemma {:induction false} TemplateCommutes(q: Query, n: nat)
    requires ParamsBound(q, n)
    ensures BindNowIn(q, n + 2) == SubstituteIn(Exchange(n + 1, n + 2), BindNowIn(q, n + 1))
  {
    match q
    case From(_) =>
    case Aside(_, _) =>
    case Leaf(_, scalars, _) => ScalarsCommute(scalars, n);
    case Enclosed(_, inner) => TemplateCommutes(inner, n);
    case Op(_, scalars, l, r) =>
      ScalarsCommute(scalars, n);
      TemplateCommutes(l, n);
      TemplateCommutes(r, n);
    case Each(_, scalars, outer, inner) =>
      ScalarsCommute(scalars, n);
      TemplateCommutes(outer, n);
      TemplateCommutes(inner, n);
    case With(ctes, body) =>
      CtesCommute(ctes, n);
      TemplateCommutes(body, n);
    case Recursive(body) => TemplateCommutes(body, n);
    case Where(_, from, territory) =>
      assert [territory][0] == territory;
      TemplateCommutes(from, n);
  }

  lemma {:induction false} CtesCommute(ctes: Ctes, n: nat)
    requires CtesBound(ctes, n)
    ensures SubstituteInCtes(BindNow(n + 2), ctes)
         == SubstituteInCtes(Exchange(n + 1, n + 2), SubstituteInCtes(BindNow(n + 1), ctes))
  {
    match ctes
    case End =>
    case Cte(_, def, rest) =>
      TemplateCommutes(def, n);
      CtesCommute(rest, n);
  }

  lemma {:induction false} SubstitutionInAppended(f: Subst, a: Ctes, b: Ctes)
    ensures SubstituteInCtes(f, AppendCtes(a, b)) == AppendCtes(SubstituteInCtes(f, a), SubstituteInCtes(f, b))
  {
    match a
    case End =>
    case Cte(_, _, rest) => SubstitutionInAppended(f, rest, b);
  }

  lemma {:induction false} BasesSubstitution(f: Subst, bases: seq<Table>)
    ensures SubstituteInCtes(f, BaseCtes(bases)) == BaseCtes(bases)
  {
    if bases != [] {
      BasesSubstitution(f, bases[1..]);
    }
  }

  lemma {:induction false} ShadowsSubstitution(f: Subst, shadow: seq<Table>, ref: Scalar, source: Source)
    requires forall t :: t in shadow ==> IsAnchor(t)
    ensures SubstituteInCtes(f, ShadowCtes(shadow, ref, source)) == ShadowCtes(shadow, Substitute(f, ref), source)
  {
    hide Predicate, IsAnchor;
    if shadow != [] {
      ShadowsSubstitution(f, shadow[1..], ref, source);
      var query := Where(Predicate(shadow[0], source), From(Copy(shadow[0])), ref);
      assert SubstituteIn(f, query) == Where(Predicate(shadow[0], source), From(Copy(shadow[0])), Substitute(f, ref));
    }
  }

  lemma PrefixSubstitution(f: Subst, shadow: seq<Table>, bases: seq<Table>, ref: Scalar, source: Source)
    requires forall t :: t in shadow ==> IsAnchor(t)
    ensures SubstituteInCtes(f, AppendCtes(BaseCtes(bases), ShadowCtes(shadow, ref, source)))
         == AppendCtes(BaseCtes(bases), ShadowCtes(shadow, Substitute(f, ref), source))
  {
    BasesSubstitution(f, bases);
    ShadowsSubstitution(f, shadow, ref, source);
    SubstitutionInAppended(f, BaseCtes(bases), ShadowCtes(shadow, ref, source));
  }

  /** COMMUTE. Binding the instant after scoping gives the same text as scoping after binding it, once the two
      appended parameters change places. */
  lemma RewritesCommute(q: Query, n: nat, shadow: seq<Table>, bases: seq<Table>, source: Source)
    requires ParamsBound(q, n)
    requires forall t :: t in shadow ==> IsAnchor(t)
    ensures BindNowIn(Prefixed(q, shadow, bases, Param(n + 1), source), n + 2)
         == SubstituteIn(Exchange(n + 1, n + 2), Prefixed(BindNowIn(q, n + 1), shadow, bases, Param(n + 2), source))
  {
    hide Predicate, IsAnchor;
    var late, swap := BindNow(n + 2), Exchange(n + 1, n + 2);
    PrefixSubstitution(late, shadow, bases, Param(n + 1), source);
    PrefixSubstitution(swap, shadow, bases, Param(n + 2), source);
    var prefix1 := AppendCtes(BaseCtes(bases), ShadowCtes(shadow, Param(n + 1), source));
    var prefix2 := AppendCtes(BaseCtes(bases), ShadowCtes(shadow, Param(n + 2), source));
    TemplateCommutes(q, n);
    if q.With? {
      CtesCommute(q.ctes, n);
      TemplateCommutes(q.body, n);
      SubstitutionInAppended(late, prefix1, q.ctes);
      SubstitutionInAppended(swap, prefix2, SubstituteInCtes(BindNow(n + 1), q.ctes));
    }
  }
}
