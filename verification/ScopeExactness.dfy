/** The guard of the rewrite is exact: outside it some database shows an administrator a row from outside
    their territory. */
module ScopeExactness {
  import opened Relational
  import opened Text
  import opened Territory
  import opened RegionScope
  import opened StatementText

  ghost predicate SameAnswer(q: Query, shadow: seq<Table>, bases: seq<Table>, source: Source, params: seq<Value>,
                             regions: seq<Region>, db: Env, now: Value, m: Meaning)
    requires forall t :: t in shadow ==> IsAnchor(t)
  {
    Eval(Prefixed(q, shadow, bases, Param(|params| + 1), source), db, [], Run(params + [Territory(regions)], now, m))
      == Eval(q, Regionalized(db, Territory(regions), source, m), [], Run(params, now, m))
  }

  // ---- a database with one row in the territory everywhere, and one stray row ----

  ghost predicate KeyedHere(row: Row) {
    var one := Text("1");
    && Field(row, Id) == one && Field(row, JobId) == one && Field(row, PayerId) == one && Field(row, UserId) == one
    && Field(row, CustomerId) == one && Field(row, RestaurantId) == one && Field(row, OrderId) == one
    && Field(row, RecipientId) == one && Field(row, DeliveryId) == one && Field(row, ClickId) == one
    && Field(row, PostalRef) == one && Field(row, ReferenceId) == one
    && Field(row, Surface) == Text("job")
    && Field(row, LocationCountryCode) == Text("HT") && Field(row, AddressCountry) == Text("HT")
    && Field(row, Country) == Text("HT")
  }

  /** One row that every anchor finds in Haiti, whatever table it stands in. */
  ghost function Here(): (row: Row)
    ensures KeyedHere(row)
  {
    var one, haiti := Text("1"), Text("HT");
    map[Id := one, JobId := one, PayerId := one, UserId := one, CustomerId := one, RestaurantId := one, OrderId := one,
        RecipientId := one, DeliveryId := one, ClickId := one, PostalRef := one, ReferenceId := one,
        Surface := Text("job"), LocationCountryCode := haiti, AddressCountry := haiti, Country := haiti]
  }

  const STRAY: Row := map[]
  const HAITI: seq<Region> := [CountryOnly(["HT"])]

  ghost function Gather(inputs: seq<Rows>): Rows {
    if |inputs| == 0 then [Here()] else if |inputs| == 1 then inputs[0] else inputs[0] + inputs[1]
  }

  /** Operators that return all they are given; the region test is the real one. */
  ghost function Gathering(): Meaning {
    Meaning((id, vs, ctx, inputs) => Gather(inputs), v => v, (s, rows, row) => (Null, Null),
            (loc, territory) => InSomeRegion(loc, territory, (a, b, c, d, e) => false))
  }

  lemma HaitiHolds(loc: Location)
    ensures loc.country == Text("HT") ==> Gathering().located(loc, Territory(HAITI))
    ensures loc.country == Null ==> !Gathering().located(loc, Territory(HAITI))
  {
    var near := (a: real, b: real, c: real, d: Value, e: Value) => false;
    assert Upper("HT") == "HT" && Upper("") == "";
    assert HAITI[0] == CountryOnly(["HT"]);
    assert ["HT"][0] == "HT";
    if loc.country == Text("HT") {
      assert Trim("HT") == "HT";
      assert InRegion(HAITI[0], loc, near);
    }
    if loc.country == Null {
      assert Trim("") == "";
      assert !InRegion(HAITI[0], loc, near);
    }
  }

  ghost predicate HereFirst(db: Env) {
    forall t | t in {Jobs, Users, FoodRestaurants, FoodOrders, PostalCentroids, OfferRecipients, OfferDeliveries,
        OfferClicks}
      :: |Look(db, Plain(t))| > 0 && Look(db, Plain(t))[0] == Here()
  }

  lemma HereIsLinked(db: Env, source: Source)
    requires HereFirst(db)
    ensures var m, regions, one := Gathering(), Territory(HAITI), Text("1");
      && JobInside(db, regions, m, false, one) && JobInside(db, regions, m, true, one)
      && UserInside(db, regions, source, m, one) && RestaurantInside(db, regions, m, one)
      && CentroidInside(db, regions, m, one)
  {
    hide Here;
    var m, regions, one := Gathering(), Territory(HAITI), Text("1");
    HaitiHolds(PlaceOf(JobPlace, Here()));
    HaitiHolds(PlaceOf(RestaurantPlace, Here()));
    HaitiHolds(PlaceOf(PostalPlace, Here()));
    HaitiHolds(UserPlace(Here(), (Null, Null)));
    assert Linked(Look(db, Plain(Jobs)), 0, Id, false, one, m) && Linked(Look(db, Plain(Jobs)), 0, Id, true, one, m);
    assert Linked(Look(db, Plain(Users)), 0, Id, false, one, m);
    assert Linked(Look(db, Plain(FoodRestaurants)), 0, Id, false, one, m);
    assert Linked(Look(db, Plain(PostalCentroids)), 0, Id, false, one, m);
  }

  lemma HereIsLinkedFurther(db: Env, source: Source)
    requires HereFirst(db)
    ensures var m, regions, one := Gathering(), Territory(HAITI), Text("1");
      && OrderInside(db, regions, m, false, one) && RecipientInside(db, regions, source, m, one)
      && DeliveryInside(db, regions, source, m, one) && ClickInside(db, regions, source, m, one)
  {
    hide JobInside, UserInside, RestaurantInside, CentroidInside, Here;
    var m, one := Gathering(), Text("1");
    HereIsLinked(db, source);
    assert Linked(Look(db, Plain(FoodOrders)), 0, Id, false, one, m);
    assert Linked(Look(db, Plain(OfferRecipients)), 0, Id, false, one, m);
    assert Linked(Look(db, Plain(OfferDeliveries)), 0, Id, false, one, m);
    assert Linked(Look(db, Plain(OfferClicks)), 0, ClickId, false, one, m);
  }

  lemma HereIsInside(t: Table, db: Env, source: Source)
    requires IsAnchor(t) && HereFirst(db)
    ensures Inside(t, Here(), db, Territory(HAITI), source, Gathering())
  {
    hide Here, Gathering;
    hide JobInside, UserInside, RestaurantInside, CentroidInside, OrderInside, RecipientInside, DeliveryInside,
        ClickInside;
    HaitiHolds(PlaceOf(JobPlace, Here()));
    HaitiHolds(PlaceOf(RestaurantPlace, Here()));
    HereIsLinked(db, source);
    HereIsLinkedFurther(db, source);
  }

  lemma StrayIsOutside(t: Table, db: Env, source: Source)
    requires IsAnchor(t)
    ensures !Inside(t, STRAY, db, Territory(HAITI), source, Gathering())
  {
    HaitiHolds(PlaceOf(JobPlace, STRAY));
    HaitiHolds(PlaceOf(RestaurantPlace, STRAY));
  }

  // ---- with gathering operators, the stray row surfaces exactly where a live table holds it ----

  ghost predicate Full(env: Env, names: set<Name>) {
    forall n :: n in names ==> Look(env, n) != []
  }

  ghost predicate Tainted(env: Env, names: set<Name>) {
    exists n :: n in names && STRAY in Look(env, n)
  }

  lemma {:induction false} GatherShowsLive(q: Query, env: Env, ctx: seq<Row>, run: Run)
    requires Template(q) && run.m == Gathering() && Full(env, Live(q))
    ensures Eval(q, env, ctx, run) != []
    ensures STRAY in Eval(q, env, ctx, run) <==> Tainted(env, Live(q))
    decreases q, 0
  {
    hide Here;
    match q
    case From(_) =>
    case Aside(_, _) =>
    case Enclosed(_, inner) => GatherShowsLive(inner, env, ctx, run);
    case Leaf(_, _, _) =>
      assert Eval(q, env, ctx, run) == [Here()] && STRAY != Here() by { assert Field(Here(), Id) != Null; }
    case Op(_, _, l, r) =>
      GatherShowsLive(l, env, ctx, run);
      GatherShowsLive(r, env, ctx, run);
      assert Eval(q, env, ctx, run) == Eval(l, env, ctx, run) + Eval(r, env, ctx, run);
    case Each(id, scalars, outer, inner) =>
      GatherShowsLive(outer, env, ctx, run);
      EachShowsLive(id, ScalarValues(scalars, run), Eval(outer, env, ctx, run), inner, env, ctx, run);
    case With(ctes, body) =>
      BindShowsLive(ctes, Live(body), env, ctx, run);
      GatherShowsLive(body, Bind(ctes, env, ctx, run), ctx, run);
  }

  lemma {:induction false} EachShowsLive(id: nat, vs: seq<Value>, rows: Rows, inner: Query, env: Env, ctx: seq<Row>,
      run: Run)
    requires Template(inner) && run.m == Gathering() && Full(env, Live(inner))
    ensures rows != [] ==> EvalEach(id, vs, rows, inner, env, ctx, run) != []
    ensures rows != [] ==>
      (STRAY in EvalEach(id, vs, rows, inner, env, ctx, run) <==> STRAY in rows || Tainted(env, Live(inner)))
    decreases inner, |rows| + 1
  {
    hide Here;
    if rows != [] {
      GatherShowsLive(inner, env, ctx + [rows[0]], run);
      EachShowsLive(id, vs, rows[1..], inner, env, ctx, run);
      var first := [rows[0]] + Eval(inner, env, ctx + [rows[0]], run);
      assert run.m.op(id, vs, ctx + [rows[0]], [[rows[0]], Eval(inner, env, ctx + [rows[0]], run)]) == first;
      assert EvalEach(id, vs, rows, inner, env, ctx, run) == first + EvalEach(id, vs, rows[1..], inner, env, ctx, run);
      assert STRAY in rows <==> STRAY == rows[0] || STRAY in rows[1..];
    }
  }

  lemma {:induction false} BindShowsLive(ctes: Ctes, wanted: set<Name>, env: Env, ctx: seq<Row>, run: Run)
    requires TemplateCtes(ctes) && run.m == Gathering() && Full(env, LiveThrough(ctes, wanted))
    ensures Full(Bind(ctes, env, ctx, run), wanted)
    ensures Tainted(Bind(ctes, env, ctx, run), wanted) <==> Tainted(env, LiveThrough(ctes, wanted))
    decreases ctes, 0
  {
    match ctes
    case End =>
    case Cte(name, def, rest) =>
      var later := LiveThrough(rest, wanted);
      var env1 := env[name := Eval(def, env, ctx, run)];
      assert forall n :: n != name ==> Look(env1, n) == Look(env, n);
      if name in later {
        GatherShowsLive(def, env, ctx, run);
        assert forall n :: n in later && n != name ==> n in LiveThrough(ctes, wanted);
        assert Full(env1, later);
        assert Look(env1, name) == Eval(def, env, ctx, run);
        assert Tainted(env1, later) <==> Tainted(env, LiveThrough(ctes, wanted)) by {
          TaintThroughDefinition(name, later, Live(def), env, env1);
        }
      } else {
        assert forall n :: n in later ==> Look(env1, n) == Look(env, n);
      }
      BindShowsLive(rest, wanted, env1, ctx, run);
  }

  lemma TaintThroughDefinition(name: Name, later: set<Name>, live: set<Name>, env: Env, env1: Env)
    requires name in later
    requires forall n :: n != name ==> Look(env1, n) == Look(env, n)
    requires STRAY in Look(env1, name) <==> Tainted(env, live)
    ensures Tainted(env1, later) <==> Tainted(env, later - {name} + live)
  {
    if n :| n in later && STRAY in Look(env1, n) {
      if n == name {
        var k :| k in live && STRAY in Look(env, k);
        assert k in later - {name} + live;
      } else {
        assert n in later - {name} + live;
      }
    }
    if n :| n in later - {name} + live && STRAY in Look(env, n) {
      if n in live { assert Tainted(env, live); } else { assert Look(env1, n) == Look(env, n); }
    }
  }

  // ---- the leak ----

  /** A table stands in the database under its own name and under its schema's. */
  ghost predicate IsDatabase(db: Env) {
    forall t :: Look(db, Schema(t)) == Look(db, Plain(t))
  }

  function Twin(n: Name): Name {
    match n
    case Plain(t) => Schema(t)
    case Schema(t) => Plain(t)
    case Copy(_) => n
  }

  /** The tables every anchor leads to, those of the statement, and `t`, under both their names. */
  ghost function Stocked(q: Query, t: Table): set<Name> {
    var names := Live(q) + {Plain(Jobs), Plain(Users), Plain(FoodRestaurants), Plain(FoodOrders),
                            Plain(PostalCentroids), Plain(OfferRecipients), Plain(OfferDeliveries), Plain(OfferClicks),
                            Plain(t)};
    names + set n | n in names :: Twin(n)
  }

  ghost function LeakingDatabase(q: Query, t: Table): Env {
    map n | n in Stocked(q, t) :: if !n.Copy? && n.table == t then [Here(), STRAY] else [Here()]
  }

  lemma StockedBothNames(q: Query, t: Table, x: Table)
    ensures Plain(x) in Stocked(q, t) <==> Schema(x) in Stocked(q, t)
  {
    assert Twin(Plain(x)) == Schema(x) && Twin(Schema(x)) == Plain(x);
  }

  lemma HereIsStocked(q: Query, t: Table, x: Table)
    requires x in {Jobs, Users, FoodRestaurants, FoodOrders, PostalCentroids, OfferRecipients, OfferDeliveries,
      OfferClicks}
    ensures Plain(x) in Stocked(q, t)
  {
  }

  lemma LeakingDatabaseIsOne(q: Query, t: Table)
    ensures IsDatabase(LeakingDatabase(q, t))
    ensures HereFirst(LeakingDatabase(q, t))
  {
    hide Here, Stocked;
    var db := LeakingDatabase(q, t);
    forall x
      ensures Look(db, Schema(x)) == Look(db, Plain(x))
    {
      StockedBothNames(q, t, x);
    }
    forall x | x in {Jobs, Users, FoodRestaurants, FoodOrders, PostalCentroids, OfferRecipients, OfferDeliveries,
        OfferClicks}
      ensures |Look(db, Plain(x))| > 0 && Look(db, Plain(x))[0] == Here()
    {
      HereIsStocked(q, t, x);
    }
  }

  lemma InsideRowsOf(t: Table, at: Table, q: Query, source: Source)
    requires IsAnchor(at)
    ensures InsideRows(at, [Here()], LeakingDatabase(q, t), Territory(HAITI), source, Gathering()) == [Here()]
    ensures InsideRows(at, [Here(), STRAY], LeakingDatabase(q, t), Territory(HAITI), source, Gathering()) == [Here()]
  {
    hide Inside, Here;
    var db := LeakingDatabase(q, t);
    LeakingDatabaseIsOne(q, t);
    HereIsInside(at, db, source);
    StrayIsOutside(at, db, source);
    hide LeakingDatabase, IsAnchor;
    assert [Here(), STRAY][1..] == [STRAY] && [STRAY][1..] == [] && [Here()][1..] == [];
    InsideRowsOfNone(at, db, Territory(HAITI), source, Gathering());
    assert InsideRows(at, [STRAY], db, Territory(HAITI), source, Gathering()) == [];
  }

  /** Under the prefix the missed table still holds its stray row; on the regional database no table of the
      statement does. */
  lemma LeakingEnvironments(q: Query, missed: Name, shadow: seq<Table>, bases: seq<Table>, ref: Scalar, source: Source,
                            run: Run, x: Name)
    requires Template(q) && IsPlan(Words(q), shadow, bases) && x in Live(q)
    requires !missed.Copy? && IsAnchor(missed.table) && missed in Live(q)
    requires !(missed.Plain? && missed in Referenced(Words(q)))
    requires ScalarValue(ref, run) == Territory(HAITI) && run.m == Gathering()
    ensures var db := LeakingDatabase(q, missed.table);
      var env := Bind(ShadowCtes(shadow, ref, source), Bind(BaseCtes(bases), db, [], run), [], run);
      && Look(env, x) != [] && (x == missed ==> STRAY in Look(env, x))
      && Look(Regionalized(db, Territory(HAITI), source, Gathering()), x) == [Here()]
  {
    hide Here, Inside, Needs, Predicate, InsideRows, Eval, IsAnchor;
    var db := LeakingDatabase(q, missed.table);
    TemplateReadsNoCopy(q, x);
    PrefixBinds(shadow, bases, ref, source, db, run, x);
    assert Look(db, x) == if x.table == missed.table then [Here(), STRAY] else [Here()];
    if IsAnchor(x.table) { InsideRowsOf(missed.table, x.table, q, source); }
  }

  /** LEAK. If an anchored table is live in the statement under a name the rewriter missed, then on some
      database the statement under its prefix returns a row that is outside the territory. */
  lemma UncoveredLeaks(q: Query, shadow: seq<Table>, bases: seq<Table>, source: Source, params: seq<Value>, now: Value)
    requires Template(q) && ParamsBound(q, |params|) && IsPlan(Words(q), shadow, bases)
    requires !Covered(q)
    ensures exists db :: IsDatabase(db) && !SameAnswer(q, shadow, bases, source, params, HAITI, db, now, Gathering())
  {
    hide Here, Inside, Needs, Predicate, InsideRows, Eval, IsAnchor, Bind, Regionalized, LeakingDatabase, Referenced;
    hide IsDatabase;
    var n :| n in Live(q) && !n.Copy? && IsAnchor(n.table) && !(n.Plain? && n in Referenced(Words(q)));
    var db, m := LeakingDatabase(q, n.table), Gathering();
    LeakingDatabaseIsOne(q, n.table);
    var ref, run := Param(|params| + 1), Run(params + [Territory(HAITI)], now, m);
    var env := Bind(ShadowCtes(shadow, ref, source), Bind(BaseCtes(bases), db, [], run), [], run);
    var cut := Regionalized(db, Territory(HAITI), source, m);
    forall x | x in Live(q)
      ensures Look(env, x) != [] && (x == n ==> STRAY in Look(env, x)) && Look(cut, x) == [Here()]
    {
      LeakingEnvironments(q, n, shadow, bases, ref, source, run, x);
    }
    assert STRAY !in [Here()] by { assert Field(Here(), Id) != Null; }
    GatherShowsLive(q, env, [], run);
    GatherShowsLive(q, cut, [], Run(params, now, m));
    PrefixedValue(q, shadow, bases, ref, source, db, run);
    assert !SameAnswer(q, shadow, bases, source, params, HAITI, db, now, m);
  }

  /** EXACT. A statement's prefix gives regional administrators exactly the regional database, for every
      database, territory and reading of its operators, if and only if the statement is covered. */
  lemma ScopingExactlyWhenCovered(q: Query, shadow: seq<Table>, bases: seq<Table>, source: Source, params: seq<Value>,
                                  now: Value)
    requires Template(q) && ParamsBound(q, |params|) && IsPlan(Words(q), shadow, bases)
    ensures Covered(q) <==>
      forall regions, db, m :: IsDatabase(db) ==> SameAnswer(q, shadow, bases, source, params, regions, db, now, m)
  {
    if Covered(q) {
      forall regions, db, m
        ensures SameAnswer(q, shadow, bases, source, params, regions, db, now, m)
      {
        ScopePreservesMeaning(q, params, shadow, bases, regions, source, db, now, m);
      }
    } else {
      UncoveredLeaks(q, shadow, bases, source, params, now);
    }
  }

  // ---- what the rewriter as a whole returns ----

  /** The rewritten statement with its parameters answers what the original answers on the regional database. */
  ghost predicate AnswersRight(built: Built, r: Result, regions: seq<Region>, source: Source, db: Env, now: Value,
                               m: Meaning)
  {
    r.Ok? && Eval(r.built.text, db, [], Run(r.built.params, now, m))
          == Eval(built.text, Regionalized(db, Territory(regions), source, m), [], Run(built.params, now, m))
  }

  lemma ScopedAnswers(built: Built, shadow: seq<Table>, bases: seq<Table>, regions: seq<Region>, source: Source,
                      db: Env, now: Value, m: Meaning)
    requires forall t :: t in shadow ==> IsAnchor(t)
    ensures AnswersRight(built, ScopedBy(built, shadow, bases, regions, source), regions, source, db, now, m)
         == SameAnswer(built.text, shadow, bases, source, built.params, regions, db, now, m)
  {
    hide Prefixed, Eval, Regionalized;
  }

  /** A statement that reads only what passes through is left alone, and an empty prefix would change nothing. */
  lemma UnprefixedAnswers(built: Built, regions: seq<Region>, source: Source, db: Env, now: Value, m: Meaning)
    requires ParamsBound(built.text, |built.params|)
    ensures AnswersRight(built, Ok(built), regions, source, db, now, m)
         == SameAnswer(built.text, [], [], source, built.params, regions, db, now, m)
  {
    var run := Run(built.params + [Territory(regions)], now, m);
    PrefixedValue(built.text, [], [], Param(|built.params| + 1), source, db, run);
    assert Bind(ShadowCtes([], Param(|built.params| + 1), source), Bind(BaseCtes([]), db, [], run), [], run) == db;
    AppendedParamsUnseen(built.text, db, [], built.params, [Territory(regions)], now, m);
    hide Prefixed, Eval, Regionalized, Bind;
  }

  /** Does the text read nothing but the tables that pass through? */
  ghost predicate OnlyPassing(text: seq<Word>) {
    forall n :: n in Referenced(text) ==> n.Plain? && PassThrough(n.table)
  }

  lemma NothingToShadow(text: seq<Word>, shadow: seq<Table>, bases: seq<Table>)
    requires IsPlan(text, shadow, bases) && !Refused(text)
    ensures OnlyPassing(text) <==> shadow == []
    ensures shadow == [] ==> IsPlan(text, [], [])
  {
    hide Referenced, PassThrough, IsAnchor, Needs;
    if shadow != [] {
      assert shadow[0] in shadow;
      assert Plain(shadow[0]) in Referenced(text) && !PassThrough(Plain(shadow[0]).table);
    } else {
      forall n | n in Referenced(text)
        ensures n.Plain? && PassThrough(n.table)
      {
        assert n == Plain(n.table);
        assert n.table in shadow || PassThrough(n.table);
      }
    }
  }

  /** EXACT, END TO END. Whatever lists it builds, what applying the scope returns answers right for every territory,
      database and reading of the operators, if and only if the accepted statement is covered. */
  lemma ApplyingExactlyWhenCovered(built: Built, source: Source, shadow: seq<Table>, bases: seq<Table>, now: Value)
    requires Template(built.text) && ParamsBound(built.text, |built.params|)
    requires IsPlan(Words(built.text), shadow, bases) && !Refused(Words(built.text))
    ensures Covered(built.text) <==>
      forall regions, db, m, r :: IsDatabase(db) && IsScoping(built, Regional(regions, source), r) ==>
        AnswersRight(built, r, regions, source, db, now, m)
  {
    hide Prefixed, Eval, Regionalized, Template, ParamsBound, Covered, AnswersRight, SameAnswer, IsPlan, Refused,
        IsDatabase, Referenced, PassThrough, IsAnchor;
    var text := Words(built.text);
    if Covered(built.text) {
      forall regions, db, m, r | IsDatabase(db) && IsScoping(built, Regional(regions, source), r)
        ensures AnswersRight(built, r, regions, source, db, now, m)
      {
        CoveredAnswers(built, shadow, bases, regions, source, r, db, now, m);
      }
    } else {
      UncoveredAnswers(built, source, shadow, bases, now);
    }
  }

  lemma PlanAnswers(built: Built, shadow: seq<Table>, bases: seq<Table>, regions: seq<Region>, source: Source, db: Env,
                    now: Value, m: Meaning)
    requires Template(built.text) && ParamsBound(built.text, |built.params|) && Covered(built.text)
    requires IsPlan(Words(built.text), shadow, bases)
    ensures AnswersRight(built, ScopedBy(built, shadow, bases, regions, source), regions, source, db, now, m)
    ensures shadow == [] && bases == [] ==> AnswersRight(built, Ok(built), regions, source, db, now, m)
  {
    PlanIsAnchored(Words(built.text), shadow, bases);
    ScopePreservesMeaning(built.text, built.params, shadow, bases, regions, source, db, now, m);
    ScopedAnswers(built, shadow, bases, regions, source, db, now, m);
    UnprefixedAnswers(built, regions, source, db, now, m);
    hide *;
  }

  lemma CoveredAnswers(built: Built, shadow: seq<Table>, bases: seq<Table>, regions: seq<Region>, source: Source,
                       r: Result, db: Env, now: Value, m: Meaning)
    requires Template(built.text) && ParamsBound(built.text, |built.params|) && Covered(built.text)
    requires IsPlan(Words(built.text), shadow, bases) && !Refused(Words(built.text))
    requires IsScoping(built, Regional(regions, source), r)
    ensures AnswersRight(built, r, regions, source, db, now, m)
  {
    NothingToShadow(Words(built.text), shadow, bases);
    if shadow == [] {
      PlanAnswers(built, [], [], regions, source, db, now, m);
    } else {
      hide ScopedBy, AnswersRight, Referenced, Words, Template, ParamsBound, Covered;
      var shadow1, bases1 :|
        IsPlan(Words(built.text), shadow1, bases1) && r == ScopedBy(built, shadow1, bases1, regions, source);
      PlanAnswers(built, shadow1, bases1, regions, source, db, now, m);
    }
  }

  lemma PlanIsAnchored(text: seq<Word>, shadow: seq<Table>, bases: seq<Table>)
    ensures IsPlan(text, shadow, bases) ==> forall t :: t in shadow ==> IsAnchor(t)
  {
  }

  /** The lists a plan holds are returned, or, when there is nothing to shadow, the statement itself. */
  lemma PlanIsReturned(built: Built, shadow: seq<Table>, bases: seq<Table>, regions: seq<Region>, source: Source)
    requires IsPlan(Words(built.text), shadow, bases) && !Refused(Words(built.text))
    ensures IsScoping(built, Regional(regions, source),
              if shadow == [] then Ok(built) else ScopedBy(built, shadow, bases, regions, source))
  {
    NothingToShadow(Words(built.text), shadow, bases);
    hide IsPlan, ScopedBy, Refused, Words, Referenced, PassThrough;
  }

  lemma UncoveredAnswers(built: Built, source: Source, shadow: seq<Table>, bases: seq<Table>, now: Value)
    requires Template(built.text) && ParamsBound(built.text, |built.params|) && !Covered(built.text)
    requires IsPlan(Words(built.text), shadow, bases) && !Refused(Words(built.text))
    ensures exists db, r :: (
      && IsDatabase(db) && IsScoping(built, Regional(HAITI, source), r)
      && !AnswersRight(built, r, HAITI, source, db, now, Gathering()))
  {
    NothingToShadow(Words(built.text), shadow, bases);
    PlanIsReturned(built, shadow, bases, HAITI, source);
    PlanIsAnchored(Words(built.text), shadow, bases);
    hide *;
    var bases1 := if shadow == [] then [] else bases;
    UncoveredLeaks(built.text, shadow, bases1, source, built.params, now);
    var db :| IsDatabase(db)
      && !SameAnswer(built.text, shadow, bases1, source, built.params, HAITI, db, now, Gathering());
    if shadow == [] {
      UnprefixedAnswers(built, HAITI, source, db, now, Gathering());
    } else {
      ScopedAnswers(built, shadow, bases, HAITI, source, db, now, Gathering());
    }
  }

  // ---- the escapes, on statements that are accepted and not covered ----

  /** Accepted by the rewriter, and not scoped right. */
  ghost predicate Escapes(q: Query) {
    Template(q) && !Refused(Words(q)) && !Covered(q)
  }

  /** `SELECT … FROM plans, payments`, `FROM plans JOIN ONLY payments`, `FROM plans, (payments JOIN …)`,
      `FROM plans JOIN (TABLE payments) p`, `FROM plans JOIN "payments"`, `FROM plans JOIN /* … */ payments`. */
  lemma OtherSpotsEscape(spot: Spot)
    ensures Escapes(Op(0, [], From(Plain(Plans)), Aside(spot, Plain(Payments))))
  {
    var q := Op(0, [], From(Plain(Plans)), Aside(spot, Plain(Payments)));
    assert Words(q) == [AfterFrom(Plain(Plans))];
    assert Strip(Words(q)) == Words(q);
    assert FromNames(Words(q)) <= {Plain(Plans)};
    assert Plain(Payments) in Live(q);
  }

  /** `SELECT … FROM jobs, public.jobs`: the schema's name is not seen and no prefix can hide it. */
  lemma SchemaNameEscapes()
    ensures Escapes(Op(0, [], From(Plain(Jobs)), Aside(InCommaList, Schema(Jobs))))
  {
    var q := Op(0, [], From(Plain(Jobs)), Aside(InCommaList, Schema(Jobs)));
    assert Words(q) == [AfterFrom(Plain(Jobs))];
    assert Strip(Words(q)) == Words(q);
    assert Schema(Jobs) in Live(q);
  }

  /** `WITH jobs AS (SELECT … FROM jobs) SELECT … FROM jobs`. */
  lemma SharedNameEscapes()
    ensures Escapes(With(Cte(Plain(Jobs), From(Plain(Jobs)), End), From(Plain(Jobs))))
  {
    hide Strip;
    var q := With(Cte(Plain(Jobs), From(Plain(Jobs)), End), From(Plain(Jobs)));
    var text := Words(q);
    StrippedText(q);
    assert Kept(q) == [Head(Plain(Jobs)), AfterFrom(Plain(Jobs)), Close, AfterFrom(Plain(Jobs))] == text;
    assert text[0].name in HeadNames(text);
    assert Referenced(text) == {};
    assert Plain(Jobs) in Live(q);
  }

  lemma WindowText()
    ensures var q := Op(0, [], From(Plain(Jobs)), Enclosed(Head(Plain(Jobs)), Leaf(0, [], [])));
      Kept(q) == [AfterFrom(Plain(Jobs)), Head(Plain(Jobs)), Close] == Words(q)
  {
    hide Strip;
    var table, window := From(Plain(Jobs)), Enclosed(Head(Plain(Jobs)), Leaf(0, [], []));
    assert Kept(table) == [AfterFrom(Plain(Jobs))] == Words(table);
    assert Kept(window) == [Head(Plain(Jobs)), Close] == Words(window);
  }

  lemma WindowIsTemplate()
    ensures var q := Op(0, [], From(Plain(Jobs)), Enclosed(Head(Plain(Jobs)), Leaf(0, [], [])));
      Template(q) && Plain(Jobs) in Live(q)
  {
    hide Strip, Kept, Words;
  }

  /** `SELECT … FROM jobs WINDOW w AS (…), jobs AS (…)`: a window's name counts as a CTE's. */
  lemma WindowNameEscapes()
    ensures Escapes(Op(0, [], From(Plain(Jobs)), Enclosed(Head(Plain(Jobs)), Leaf(0, [], []))))
  {
    hide Strip, Kept, Words, Template, Live;
    var q := Op(0, [], From(Plain(Jobs)), Enclosed(Head(Plain(Jobs)), Leaf(0, [], [])));
    var text := Words(q);
    StrippedText(q);
    WindowText();
    WindowIsTemplate();
    assert text[1].name in HeadNames(text);
    assert Referenced(text) == {};
  }

  /** `EXTRACT(EPOCH FROM (SELECT created_at FROM jobs LIMIT 1))` is stripped whole; with one more level of
      parentheses, as in `EXTRACT(EPOCH FROM (SELECT max(created_at) FROM jobs))`, it is not. */
  lemma ShallowCallEscapes()
    ensures Escapes(Enclosed(CallOpen, Enclosed(Open, From(Plain(Jobs)))))
  {
    var q := Enclosed(CallOpen, Enclosed(Open, From(Plain(Jobs))));
    StrippedText(q);
    assert Kept(q) == [];
    assert Plain(Jobs) in Live(q);
  }

  function DeepCall(): Query {
    Enclosed(CallOpen, Enclosed(Open, Op(0, [], Enclosed(Open, Leaf(0, [], [])), From(Plain(Jobs)))))
  }

  lemma DeepGroupText()
    ensures var group := DeepCall().inner.inner;
      Depth(group) == 1 && Kept(group) == [Open, Close, AfterFrom(Plain(Jobs))] == Words(group)
  {
    hide Strip;
    var group := DeepCall().inner.inner;
    var nested, table := Enclosed(Open, Leaf(0, [], [])), From(Plain(Jobs));
    assert group == Op(0, [], nested, table);
    assert Kept(nested) == [Open, Close] == Words(nested) && Depth(nested) == 1;
    assert Kept(table) == [AfterFrom(Plain(Jobs))] == Words(table) && Depth(table) == 0;
  }

  lemma DeepCallText()
    ensures var text := [CallOpen, Open] + [Open, Close, AfterFrom(Plain(Jobs))] + [Close, Close];
      Words(DeepCall()) == text == Kept(DeepCall())
  {
    hide Strip;
    var inner := DeepCall().inner;
    var group := inner.inner;
    DeepGroupText();
    assert inner == Enclosed(Open, group) && DeepCall() == Enclosed(CallOpen, inner);
    hide DeepCall;
    assert Kept(inner) == [Open] + Kept(group) + [Close] == Words(inner);
    assert !Shallow(CallOpen, inner);
  }

  lemma DeepCallIsSeen()
    ensures Covered(DeepCall())
  {
    hide Words, Kept, Strip;
    DeepCallText();
    StrippedText(DeepCall());
    var text := Words(DeepCall());
    assert text[4].name in FromNames(text);
    assert HeadNames(text) == {};
  }
}
