/** A small relational language with PostgreSQL's name scoping: tables named after FROM or JOIN or elsewhere,
    operators whose meaning is left open, correlated subqueries, and WITH lists in which each common table
    expression sees the ones before it and shadows the database. */
module Relational {

  datatype Table =
    | Jobs | Disputes | Payments | PlatformLedger | PayoutRequests | Subscriptions
    | ConsultingSessions | ConsultingFeedback | SupportConversations | SupportReviews
    | FoodRestaurants | FoodOrders | FoodOrderItems | PromoRedemptions
    | DemandDaily | SupplyDaily | InterestProfiles | OfferRecipients | OfferPreferences
    | OfferDeliveries | OfferClicks | AffiliateConversions
    | Plans | SlaTargets | DiscountCodes
    | Users | PostalCentroids | GeocodeCache
    | Unknown(word: string)

  /** A relation name in a statement: a table or a template's own name, a table under its schema's name, which
      no common table expression can hide, or `__rs_` followed by a table. */
  datatype Name = Plain(table: Table) | Schema(table: Table) | Copy(of: Table)

  datatype Column =
    | Id | JobId | PayerId | UserId | CustomerId | RestaurantId | OrderId | RecipientId | DeliveryId | ClickId
    | PostalRef | ReferenceId | Surface
    | LocationZip | LocationCity | LocationState | LocationCountryCode | LocationCountry | LocationLat | LocationLng
    | ZipCode | City | State | Country
    | AddressZip | AddressCity | AddressState | AddressCountry | Latitude | Longitude
    | PostalCode | PlaceName | Admin1 | Lat | Lng
    | Other(word: string)

  datatype Region =
    | ZipRange(ranges: seq<(int, int)>)
    | CityState(cities: seq<(string, string)>)
    | GeoRadius(lat: real, lng: real, miles: real)
    | CountryRegion(parts: seq<(string, string)>)
    | CountryOnly(countries: seq<string>)

  datatype Value =
    | Null
    | Num(n: int)
    | Text(s: string)
    | Real(r: real)
    | Instant(t: int)
    | Territory(regions: seq<Region>)

  type Row = map<Column, Value>
  type Rows = seq<Row>
  type Env = map<Name, Rows>

  function Field(row: Row, col: Column): Value {
    if col in row then row[col] else Null
  }

  function Look(env: Env, name: Name): Rows {
    if name in env then env[name] else []
  }

  datatype Source = CacheSource | CentroidSource

  datatype Place = JobPlace | RestaurantPlace | PostalPlace

  /** The region conditions of the ANCHORS table, on a current row. */
  datatype Cond =
    | InRegions(place: Place)
    | UserInRegions(source: Source)
    | Exists(table: Name, key: Column, asText: bool, col: Column, inner: Cond)
    | IfPresent(col: Column, thn: Cond, els: Cond)
    | IfIs(col: Column, text: string, thn: Cond, els: Cond)

  datatype Scalar = Now | Param(k: nat) | Const(v: Value)

  /** What in a statement's text the rewriter's patterns look at: a name after FROM or JOIN, the head of a common
      table expression or of a named window (with its parenthesis), WITH RECURSIVE, and parentheses, among them
      those of EXTRACT, SUBSTRING, TRIM, OVERLAY and POSITION calls. */
  datatype Word = AfterFrom(name: Name) | Head(name: Name) | WithRecursive | CallOpen | Open | Close

  /** The other places of a relation name: a further name of a comma list, a name after ONLY, the first name
      behind a parenthesis, a name after TABLE, a quoted name, a name behind a comment. */
  datatype Spot = InCommaList | AfterOnly | BehindParenthesis | AfterTable | InQuotes | BehindComment

  datatype Query =
    | From(name: Name)                                      // named after FROM or JOIN
    | Aside(spot: Spot, name: Name)                         // read from any other place
    | Leaf(id: nat, scalars: seq<Scalar>, text: seq<Word>)  // reads no relation, whatever words it is written with
    | Enclosed(open: Word, inner: Query)                    // within the parentheses that `open` opens
    | Op(id: nat, scalars: seq<Scalar>, l: Query, r: Query)
    | Each(id: nat, scalars: seq<Scalar>, outer: Query, inner: Query)
    | With(ctes: Ctes, body: Query)
    | Recursive(body: Query)
    | Where(cond: Cond, from: Query, territory: Scalar)

  datatype Ctes = End | Cte(name: Name, def: Query, rest: Ctes)

  /** What a statement's value depends on beside its tables: the operators, the cast of a key to text, the
      centroid lookup, and the test whether a location falls in a region of the bound territory. */
  datatype Meaning = Meaning(
    op: (nat, seq<Value>, seq<Row>, seq<Rows>) -> Rows,
    cast: Value -> Value,
    centroid: (Source, Rows, Row) -> (Value, Value),
    located: (Location, Value) -> bool)

  datatype Run = Run(params: seq<Value>, now: Value, m: Meaning)

  function ScalarValue(s: Scalar, run: Run): Value {
    match s
    case Now => run.now
    case Param(k) => if 1 <= k <= |run.params| then run.params[k - 1] else Null
    case Const(v) => v
  }

  function ScalarValues(ss: seq<Scalar>, run: Run): (vs: seq<Value>)
    ensures |vs| == |ss|
    ensures forall i :: 0 <= i < |ss| ==> vs[i] == ScalarValue(ss[i], run)
  {
    if ss == [] then [] else [ScalarValue(ss[0], run)] + ScalarValues(ss[1..], run)
  }

  datatype Location = Location(zip: Value, city: Value, state: Value, country: Value, lat: Value, lng: Value)

  function PlaceOf(place: Place, row: Row): Location {
    match place
    case JobPlace =>
      var code := Field(row, LocationCountryCode);
      Location(Field(row, LocationZip), Field(row, LocationCity), Field(row, LocationState),
               if code == Null || code == Text("") then Field(row, LocationCountry) else code,
               Field(row, LocationLat), Field(row, LocationLng))
    case RestaurantPlace =>
      Location(Field(row, AddressZip), Field(row, AddressCity), Field(row, AddressState), Field(row, AddressCountry),
               Field(row, Latitude), Field(row, Longitude))
    case PostalPlace =>
      Location(Field(row, PostalCode), Field(row, PlaceName), Field(row, Admin1), Field(row, Country),
               Field(row, Lat), Field(row, Lng))
  }

  function UserPlace(row: Row, at: (Value, Value)): Location {
    Location(Field(row, ZipCode), Field(row, City), Field(row, State), Field(row, Country), at.0, at.1)
  }

  /** SQL equality of a key (cast to text when asked) with a column: never true on NULL. */
  predicate SameKey(key: Value, asText: bool, col: Value, m: Meaning) {
    key != Null && col != Null && (if asText then m.cast(key) == col else key == col)
  }

  function GeoTable(source: Source): Name {
    match source
    case CacheSource => Plain(GeocodeCache)
    case CentroidSource => Plain(PostalCentroids)
  }

  /** Is row `i` of `rows` reached through its key from a column holding `col`? */
  ghost predicate Linked(rows: Rows, i: int, key: Column, asText: bool, col: Value, m: Meaning) {
    0 <= i < |rows| && SameKey(Field(rows[i], key), asText, col, m)
  }

  ghost predicate Holds(c: Cond, env: Env, row: Row, territory: Value, m: Meaning) {
    match c
    case InRegions(place) => m.located(PlaceOf(place, row), territory)
    case UserInRegions(source) =>
      m.located(UserPlace(row, m.centroid(source, Look(env, GeoTable(source)), row)), territory)
    case Exists(table, key, asText, col, inner) =>
      exists i :: Linked(Look(env, table), i, key, asText, Field(row, col), m)
                  && Holds(inner, env, Look(env, table)[i], territory, m)
    case IfPresent(col, thn, els) =>
      if Field(row, col) != Null then Holds(thn, env, row, territory, m) else Holds(els, env, row, territory, m)
    case IfIs(col, text, thn, els) =>
      if Field(row, col) == Text(text) then Holds(thn, env, row, territory, m) else Holds(els, env, row, territory, m)
  }

  ghost function Keep(c: Cond, env: Env, rows: Rows, territory: Value, m: Meaning): Rows {
    if rows == [] then []
    else (if Holds(c, env, rows[0], territory, m) then [rows[0]] else []) + Keep(c, env, rows[1..], territory, m)
  }

  // ---- evaluation ----

  ghost function Eval(q: Query, env: Env, ctx: seq<Row>, run: Run): Rows
    decreases q, 0
  {
    match q
    case From(name) => Look(env, name)
    case Aside(_, name) => Look(env, name)
    case Leaf(id, scalars, _) => run.m.op(id, ScalarValues(scalars, run), ctx, [])
    case Enclosed(_, inner) => Eval(inner, env, ctx, run)
    case Op(id, scalars, l, r) =>
      run.m.op(id, ScalarValues(scalars, run), ctx, [Eval(l, env, ctx, run), Eval(r, env, ctx, run)])
    case Each(id, scalars, outer, inner) =>
      EvalEach(id, ScalarValues(scalars, run), Eval(outer, env, ctx, run), inner, env, ctx, run)
    case With(ctes, body) => Eval(body, Bind(ctes, env, ctx, run), ctx, run)
    case Recursive(_) => []
    case Where(cond, from, territory) =>
      Keep(cond, env, Eval(from, env, ctx, run), ScalarValue(territory, run), run.m)
  }

  /** A correlated subquery: the inner query is evaluated once for each outer row, with that row in view. */
  ghost function EvalEach(id: nat, vs: seq<Value>, rows: Rows, inner: Query, env: Env, ctx: seq<Row>, run: Run): Rows
    decreases inner, |rows| + 1
  {
    if rows == [] then []
    else run.m.op(id, vs, ctx + [rows[0]], [[rows[0]], Eval(inner, env, ctx + [rows[0]], run)])
         + EvalEach(id, vs, rows[1..], inner, env, ctx, run)
  }

  /** A WITH list: each definition is evaluated where the earlier names already hide the database. */
  ghost function Bind(ctes: Ctes, env: Env, ctx: seq<Row>, run: Run): Env
    decreases ctes, 0
  {
    match ctes
    case End => env
    case Cte(name, def, rest) => Bind(rest, env[name := Eval(def, env, ctx, run)], ctx, run)
  }

  // ---- names ----

  function CondTables(c: Cond): set<Name> {
    match c
    case InRegions(_) => {}
    case UserInRegions(source) => {GeoTable(source)}
    case Exists(table, _, _, _, inner) => {table} + CondTables(inner)
    case IfPresent(_, thn, els) => CondTables(thn) + CondTables(els)
    case IfIs(_, _, thn, els) => CondTables(thn) + CondTables(els)
  }

  /** The names whose rows, taken from outside the query, its value can depend on. */
  function Live(q: Query): set<Name> {
    match q
    case From(name) => {name}
    case Aside(_, name) => {name}
    case Leaf(_, _, _) => {}
    case Enclosed(_, inner) => Live(inner)
    case Op(_, _, l, r) => Live(l) + Live(r)
    case Each(_, _, outer, inner) => Live(outer) + Live(inner)
    case With(ctes, body) => LiveThrough(ctes, Live(body))
    case Recursive(_) => {}
    case Where(cond, from, _) => CondTables(cond) + Live(from)
  }

  function LiveThrough(ctes: Ctes, wanted: set<Name>): set<Name> {
    match ctes
    case End => wanted
    case Cte(name, def, rest) =>
      var later := LiveThrough(rest, wanted);
      if name in later then later - {name} + Live(def) else later
  }

  ghost predicate AgreeOn(a: Env, b: Env, names: set<Name>) {
    forall n :: n in names ==> Look(a, n) == Look(b, n)
  }

  lemma {:induction false} HoldsDependsOnTables(c: Cond, a: Env, b: Env, row: Row, territory: Value, m: Meaning)
    requires AgreeOn(a, b, CondTables(c))
    ensures Holds(c, a, row, territory, m) == Holds(c, b, row, territory, m)
  {
    match c
    case InRegions(_) =>
    case UserInRegions(_) =>
    case Exists(table, _, _, _, inner) =>
      assert Look(a, table) == Look(b, table);
      forall i | 0 <= i < |Look(a, table)|
        ensures Holds(inner, a, Look(a, table)[i], territory, m) == Holds(inner, b, Look(a, table)[i], territory, m)
      {
        HoldsDependsOnTables(inner, a, b, Look(a, table)[i], territory, m);
      }
    case IfPresent(_, thn, els) =>
      HoldsDependsOnTables(thn, a, b, row, territory, m);
      HoldsDependsOnTables(els, a, b, row, territory, m);
    case IfIs(_, _, thn, els) =>
      HoldsDependsOnTables(thn, a, b, row, territory, m);
      HoldsDependsOnTables(els, a, b, row, territory, m);
  }

  lemma {:induction false} KeepDependsOnTables(c: Cond, a: Env, b: Env, rows: Rows, territory: Value, m: Meaning)
    requires AgreeOn(a, b, CondTables(c))
    ensures Keep(c, a, rows, territory, m) == Keep(c, b, rows, territory, m)
  {
    if rows != [] {
      HoldsDependsOnTables(c, a, b, rows[0], territory, m);
      KeepDependsOnTables(c, a, b, rows[1..], territory, m);
    }
  }

  /** A query sees nothing of its environment but its live names. */
  lemma {:induction false} EvalDependsOnLive(q: Query, a: Env, b: Env, ctx: seq<Row>, run: Run)
    requires AgreeOn(a, b, Live(q))
    ensures Eval(q, a, ctx, run) == Eval(q, b, ctx, run)
    decreases q, 0
  {
    match q
    case From(_) =>
    case Aside(_, _) =>
    case Leaf(_, _, _) =>
    case Enclosed(_, inner) => EvalDependsOnLive(inner, a, b, ctx, run);
    case Op(_, _, l, r) =>
      EvalDependsOnLive(l, a, b, ctx, run);
      EvalDependsOnLive(r, a, b, ctx, run);
    case Each(id, scalars, outer, inner) =>
      EvalDependsOnLive(outer, a, b, ctx, run);
      EachDependsOnLive(id, ScalarValues(scalars, run), Eval(outer, a, ctx, run), inner, a, b, ctx, run);
    case With(ctes, body) =>
      BindAgrees(ctes, a, b, Live(body), ctx, run);
      EvalDependsOnLive(body, Bind(ctes, a, ctx, run), Bind(ctes, b, ctx, run), ctx, run);
    case Recursive(_) =>
    case Where(cond, from, territory) =>
      EvalDependsOnLive(from, a, b, ctx, run);
      KeepDependsOnTables(cond, a, b, Eval(from, a, ctx, run), ScalarValue(territory, run), run.m);
  }

  lemma {:induction false} EachDependsOnLive(id: nat, vs: seq<Value>, rows: Rows, inner: Query, a: Env, b: Env,
                                            ctx: seq<Row>, run: Run)
    requires AgreeOn(a, b, Live(inner))
    ensures EvalEach(id, vs, rows, inner, a, ctx, run) == EvalEach(id, vs, rows, inner, b, ctx, run)
    decreases inner, |rows| + 1
  {
    if rows != [] {
      EvalDependsOnLive(inner, a, b, ctx + [rows[0]], run);
      EachDependsOnLive(id, vs, rows[1..], inner, a, b, ctx, run);
    }
  }

  lemma {:induction false} BindAgrees(ctes: Ctes, a: Env, b: Env, wanted: set<Name>, ctx: seq<Row>, run: Run)
    requires AgreeOn(a, b, LiveThrough(ctes, wanted))
    ensures AgreeOn(Bind(ctes, a, ctx, run), Bind(ctes, b, ctx, run), wanted)
    decreases ctes, 0
  {
    match ctes
    case End =>
    case Cte(name, def, rest) =>
      var later := LiveThrough(rest, wanted);
      if name in later {
        EvalDependsOnLive(def, a, b, ctx, run);
      }
      var a1, b1 := a[name := Eval(def, a, ctx, run)], b[name := Eval(def, b, ctx, run)];
      forall n | n in later
        ensures Look(a1, n) == Look(b1, n)
      {
        if n != name {
          assert n in LiveThrough(ctes, wanted);
          assert Look(a, n) == Look(b, n);
        }
      }
      BindAgrees(rest, a1, b1, wanted, ctx, run);
  }

  // ---- parameters ----

  predicate ScalarsBound(ss: seq<Scalar>, n: nat) {
    forall i :: 0 <= i < |ss| && ss[i].Param? ==> 1 <= ss[i].k <= n
  }

  /** Every `$k` of the query has a value among `n` parameters. */
  predicate ParamsBound(q: Query, n: nat) {
    match q
    case From(_) => true
    case Aside(_, _) => true
    case Leaf(_, scalars, _) => ScalarsBound(scalars, n)
    case Enclosed(_, inner) => ParamsBound(inner, n)
    case Op(_, scalars, l, r) => ScalarsBound(scalars, n) && ParamsBound(l, n) && ParamsBound(r, n)
    case Each(_, scalars, outer, inner) => ScalarsBound(scalars, n) && ParamsBound(outer, n) && ParamsBound(inner, n)
    case With(ctes, body) => CtesBound(ctes, n) && ParamsBound(body, n)
    case Recursive(body) => ParamsBound(body, n)
    case Where(_, from, territory) => ScalarsBound([territory], n) && ParamsBound(from, n)
  }

  predicate CtesBound(ctes: Ctes, n: nat) {
    match ctes
    case End => true
    case Cte(_, def, rest) => ParamsBound(def, n) && CtesBound(rest, n)
  }

  /** The placeholders a query holds, in its scalars and anywhere below. */
  function Placeholders(q: Query): set<nat> {
    match q
    case From(_) => {}
    case Aside(_, _) => {}
    case Leaf(_, scalars, _) => InScalars(scalars)
    case Enclosed(_, inner) => Placeholders(inner)
    case Op(_, scalars, l, r) => InScalars(scalars) + Placeholders(l) + Placeholders(r)
    case Each(_, scalars, outer, inner) => InScalars(scalars) + Placeholders(outer) + Placeholders(inner)
    case With(ctes, body) => PlaceholdersInCtes(ctes) + Placeholders(body)
    case Recursive(body) => Placeholders(body)
    case Where(_, from, territory) => InScalars([territory]) + Placeholders(from)
  }

  function PlaceholdersInCtes(ctes: Ctes): set<nat> {
    match ctes
    case End => {}
    case Cte(_, def, rest) => Placeholders(def) + PlaceholdersInCtes(rest)
  }

  function InScalars(ss: seq<Scalar>): set<nat> {
    set s | s in ss && s.Param? :: s.k
  }

  ghost predicate AmongParams(ks: set<nat>, n: nat) {
    forall k :: k in ks ==> 1 <= k <= n
  }

  lemma BothAmong(a: set<nat>, b: set<nat>, n: nat)
    ensures AmongParams(a + b, n) <==> AmongParams(a, n) && AmongParams(b, n)
  {
    assert a <= a + b && b <= a + b;
  }

  lemma InScalarsBound(ss: seq<Scalar>, n: nat)
    ensures ScalarsBound(ss, n) <==> AmongParams(InScalars(ss), n)
  {
    forall i | 0 <= i < |ss| && ss[i].Param?
      ensures ss[i].k in InScalars(ss)
    {
      assert ss[i] in ss;
    }
  }

  /** Nothing else is asked of a statement's placeholders than that each is the number of a parameter. */
  lemma {:induction false} ParamsBoundMeans(q: Query, n: nat)
    ensures ParamsBound(q, n) <==> AmongParams(Placeholders(q), n)
  {
    hide ScalarsBound, InScalars;
    match q
    case From(_) =>
    case Aside(_, _) =>
    case Leaf(_, scalars, _) => InScalarsBound(scalars, n);
    case Enclosed(_, inner) => ParamsBoundMeans(inner, n);
    case Op(_, scalars, l, r) =>
      hide AmongParams;
      InScalarsBound(scalars, n);
      ParamsBoundMeans(l, n);
      ParamsBoundMeans(r, n);
      BothAmong(InScalars(scalars), Placeholders(l), n);
      BothAmong(InScalars(scalars) + Placeholders(l), Placeholders(r), n);
    case Each(_, scalars, outer, inner) =>
      hide AmongParams;
      InScalarsBound(scalars, n);
      ParamsBoundMeans(outer, n);
      ParamsBoundMeans(inner, n);
      BothAmong(InScalars(scalars), Placeholders(outer), n);
      BothAmong(InScalars(scalars) + Placeholders(outer), Placeholders(inner), n);
    case With(ctes, body) =>
      hide AmongParams;
      CtesBoundMeans(ctes, n);
      ParamsBoundMeans(body, n);
      BothAmong(PlaceholdersInCtes(ctes), Placeholders(body), n);
    case Recursive(body) => ParamsBoundMeans(body, n);
    case Where(_, from, territory) =>
      hide AmongParams;
      InScalarsBound([territory], n);
      ParamsBoundMeans(from, n);
      BothAmong(InScalars([territory]), Placeholders(from), n);
  }

  lemma {:induction false} CtesBoundMeans(ctes: Ctes, n: nat)
    ensures CtesBound(ctes, n) <==> AmongParams(PlaceholdersInCtes(ctes), n)
  {
    match ctes
    case End =>
    case Cte(_, def, rest) =>
      hide AmongParams;
      ParamsBoundMeans(def, n);
      CtesBoundMeans(rest, n);
      BothAmong(Placeholders(def), PlaceholdersInCtes(rest), n);
  }

  function AppendCtes(a: Ctes, b: Ctes): Ctes {
    match a
    case End => b
    case Cte(name, def, rest) => Cte(name, def, AppendCtes(rest, b))
  }

  lemma {:induction false} BindAppend(a: Ctes, b: Ctes, env: Env, ctx: seq<Row>, run: Run)
    ensures Bind(AppendCtes(a, b), env, ctx, run) == Bind(b, Bind(a, env, ctx, run), ctx, run)
  {
    match a
    case End =>
    case Cte(name, def, rest) => BindAppend(rest, b, env[name := Eval(def, env, ctx, run)], ctx, run);
  }

  // ---- substitution in placeholders ----

  datatype Subst = Same | BindNow(k: nat) | Exchange(i: nat, j: nat)

  function Substitute(f: Subst, s: Scalar): Scalar {
    match f
    case Same => s
    case BindNow(k) => if s.Now? then Param(k) else s
    case Exchange(i, j) =>
      if s == Param(i) then Param(j) else if s == Param(j) then Param(i) else s
  }

  function SubstituteAll(f: Subst, ss: seq<Scalar>): seq<Scalar> {
    seq(|ss|, i requires 0 <= i < |ss| => Substitute(f, ss[i]))
  }

  function SubstituteIn(f: Subst, q: Query): Query {
    match q
    case From(_) => q
    case Aside(_, _) => q
    case Leaf(id, scalars, text) => Leaf(id, SubstituteAll(f, scalars), text)
    case Enclosed(open, inner) => Enclosed(open, SubstituteIn(f, inner))
    case Op(id, scalars, l, r) => Op(id, SubstituteAll(f, scalars), SubstituteIn(f, l), SubstituteIn(f, r))
    case Each(id, scalars, outer, inner) =>
      Each(id, SubstituteAll(f, scalars), SubstituteIn(f, outer), SubstituteIn(f, inner))
    case With(ctes, body) => With(SubstituteInCtes(f, ctes), SubstituteIn(f, body))
    case Recursive(body) => Recursive(SubstituteIn(f, body))
    case Where(cond, from, territory) => Where(cond, SubstituteIn(f, from), Substitute(f, territory))
  }

  function SubstituteInCtes(f: Subst, ctes: Ctes): Ctes {
    match ctes
    case End => End
    case Cte(name, def, rest) => Cte(name, SubstituteIn(f, def), SubstituteInCtes(f, rest))
  }

  /** Every placeholder bound among `n` means in `a`, once substituted, what it meant in `b`. */
  ghost predicate SameReading(f: Subst, n: nat, a: Run, b: Run) {
    a.m == b.m && forall s: Scalar :: (s.Param? ==> 1 <= s.k <= n) ==>
        ScalarValue(Substitute(f, s), a) == ScalarValue(s, b)
  }

  lemma ScalarsRead(f: Subst, n: nat, ss: seq<Scalar>, a: Run, b: Run)
    requires SameReading(f, n, a, b) && ScalarsBound(ss, n)
    ensures ScalarValues(SubstituteAll(f, ss), a) == ScalarValues(ss, b)
  {
    forall i | 0 <= i < |ss|
      ensures ScalarValues(SubstituteAll(f, ss), a)[i] == ScalarValues(ss, b)[i]
    {
      assert ScalarValue(Substitute(f, ss[i]), a) == ScalarValue(ss[i], b);
    }
  }

  /** A substitution that keeps the reading of every placeholder keeps the value of the query. */
  lemma {:induction false} SubstitutionKeepsValue(f: Subst, n: nat, q: Query, env: Env, ctx: seq<Row>, a: Run, b: Run)
    requires SameReading(f, n, a, b) && ParamsBound(q, n)
    ensures Eval(SubstituteIn(f, q), env, ctx, a) == Eval(q, env, ctx, b)
    decreases q, 0
  {
    match q
    case From(_) =>
    case Aside(_, _) =>
    case Leaf(_, scalars, _) => ScalarsRead(f, n, scalars, a, b);
    case Enclosed(_, inner) => SubstitutionKeepsValue(f, n, inner, env, ctx, a, b);
    case Op(_, scalars, l, r) =>
      ScalarsRead(f, n, scalars, a, b);
      SubstitutionKeepsValue(f, n, l, env, ctx, a, b);
      SubstitutionKeepsValue(f, n, r, env, ctx, a, b);
    case Each(id, scalars, outer, inner) =>
      ScalarsRead(f, n, scalars, a, b);
      SubstitutionKeepsValue(f, n, outer, env, ctx, a, b);
      SubstitutionKeepsEach(f, n, id, ScalarValues(scalars, b), Eval(outer, env, ctx, b), inner, env, ctx, a, b);
    case With(ctes, body) =>
      SubstitutionKeepsBind(f, n, ctes, env, ctx, a, b);
      SubstitutionKeepsValue(f, n, body, Bind(ctes, env, ctx, b), ctx, a, b);
    case Recursive(_) =>
    case Where(_, from, territory) =>
      assert [territory][0] == territory;
      SubstitutionKeepsValue(f, n, from, env, ctx, a, b);
  }

  lemma {:induction false} SubstitutionKeepsEach(f: Subst, n: nat, id: nat, vs: seq<Value>, rows: Rows, inner: Query,
                                                env: Env, ctx: seq<Row>, a: Run, b: Run)
    requires SameReading(f, n, a, b) && ParamsBound(inner, n)
    ensures EvalEach(id, vs, rows, SubstituteIn(f, inner), env, ctx, a) == EvalEach(id, vs, rows, inner, env, ctx, b)
    decreases inner, |rows| + 1
  {
    if rows != [] {
      SubstitutionKeepsValue(f, n, inner, env, ctx + [rows[0]], a, b);
      SubstitutionKeepsEach(f, n, id, vs, rows[1..], inner, env, ctx, a, b);
    }
  }

  lemma {:induction false} SubstitutionKeepsBind(f: Subst, n: nat, ctes: Ctes, env: Env, ctx: seq<Row>, a: Run, b: Run)
    requires SameReading(f, n, a, b) && CtesBound(ctes, n)
    ensures Bind(SubstituteInCtes(f, ctes), env, ctx, a) == Bind(ctes, env, ctx, b)
    decreases ctes, 0
  {
    match ctes
    case End =>
    case Cte(name, def, rest) =>
      SubstitutionKeepsValue(f, n, def, env, ctx, a, b);
      SubstitutionKeepsBind(f, n, rest, env[name := Eval(def, env, ctx, b)], ctx, a, b);
  }

  lemma {:induction false} SameIsIdentity(q: Query)
    ensures SubstituteIn(Same, q) == q
  {
    match q
    case From(_) =>
    case Aside(_, _) =>
    case Leaf(_, scalars, _) => assert SubstituteAll(Same, scalars) == scalars;
    case Enclosed(_, inner) => SameIsIdentity(inner);
    case Op(_, scalars, l, r) =>
      assert SubstituteAll(Same, scalars) == scalars;
      SameIsIdentity(l);
      SameIsIdentity(r);
    case Each(_, scalars, outer, inner) =>
      assert SubstituteAll(Same, scalars) == scalars;
      SameIsIdentity(outer);
      SameIsIdentity(inner);
    case With(ctes, body) =>
      SameIsIdentityInCtes(ctes);
      SameIsIdentity(body);
    case Recursive(body) => SameIsIdentity(body);
    case Where(_, from, _) => SameIsIdentity(from);
  }

  lemma {:induction false} SameIsIdentityInCtes(ctes: Ctes)
    ensures SubstituteInCtes(Same, ctes) == ctes
  {
    match ctes
    case End =>
    case Cte(_, def, rest) =>
      SameIsIdentity(def);
      SameIsIdentityInCtes(rest);
  }

  /** Parameters appended to a call are invisible to a query whose placeholders were all bound before. */
  lemma AppendedParamsUnseen(q: Query, env: Env, ctx: seq<Row>, params: seq<Value>, extra: seq<Value>, now: Value,
      m: Meaning)
    requires ParamsBound(q, |params|)
    ensures Eval(q, env, ctx, Run(params + extra, now, m)) == Eval(q, env, ctx, Run(params, now, m))
  {
    SameIsIdentity(q);
    SubstitutionKeepsValue(Same, |params|, q, env, ctx, Run(params + extra, now, m), Run(params, now, m));
  }
}
