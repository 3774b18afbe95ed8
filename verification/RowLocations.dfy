/** When a row is inside a region, column by column: what each anchor and each kind of region reads, how the texts are
    cleaned first, and which centroid stands in for a user's coordinates. */
module RowLocations {
  import opened RegionScope
  import opened Relational
  import opened Territory
  import opened Text

  type Near = (real, real, real, Value, Value) -> bool

  /** The region test of the statement is the real one. */
  ghost predicate RealTest(m: Meaning, near: Near) {
    forall loc, regions :: m.located(loc, regions) == InSomeRegion(loc, regions, near)
  }

  // ---- the texts a location is compared by ----

  predicate Spaces(s: string) {
    forall i :: 0 <= i < |s| ==> s[i] == ' '
  }

  /** `r` is `s` without the spaces at its two ends. */
  ghost predicate IsStripped(s: string, r: string) {
    && (r == "" || (r[0] != ' ' && r[|r| - 1] != ' '))
    && exists a, b :: Spaces(a) && Spaces(b) && s == a + r + b
  }

  lemma {:induction false} LeftStripped(s: string) returns (a: string)
    ensures Spaces(a) && s == a + TrimLeft(s) && (TrimLeft(s) == "" || TrimLeft(s)[0] != ' ')
  {
    a := "";
    if s != "" && s[0] == ' ' {
      var rest := LeftStripped(s[1..]);
      a := " " + rest;
      assert s == " " + s[1..];
    }
  }

  lemma {:induction false} RightStripped(s: string) returns (b: string)
    ensures Spaces(b) && s == TrimRight(s) + b && (TrimRight(s) == "" || TrimRight(s)[|TrimRight(s)| - 1] != ' ')
  {
    b := "";
    if s != "" && s[|s| - 1] == ' ' {
      var rest := RightStripped(s[..|s| - 1]);
      b := rest + " ";
      assert s == s[..|s| - 1] + " ";
    }
  }

  /** Trimming takes the spaces at both ends, all of them and nothing else. */
  lemma TrimStrips(s: string)
    ensures IsStripped(s, Trim(s))
  {
    var a := LeftStripped(s);
    var left := TrimLeft(s);
    var b := RightStripped(left);
    var r := TrimRight(left);
    assert s == a + r + b;
    if r != "" { assert r[0] == left[0]; }
  }

  /** A column as text, without the spaces at its ends. */
  function Cleaned(v: Value): string {
    Trim(TextOr(v))
  }

  lemma CleanedIs(v: Value)
    ensures v.Text? ==> IsStripped(v.s, Cleaned(v))
    ensures v.Null? ==> Cleaned(v) == ""
    ensures v.Num? ==> IsStripped(Decimal(v.n), Cleaned(v))
  {
    TrimStrips(TextOr(v));
  }

  /** The number a ZIP starts with: that of its first digits, five at most; none if it does not start with one. */
  function Leading(s: string): string {
    if DigitRun(s) < 5 then s[..DigitRun(s)] else s[..5]
  }

  lemma {:induction false} ZipContinues(s: string, width: nat, head: string)
    requires AllDigits(head)
    ensures var n := if DigitRun(s) < width then DigitRun(s) else width;
      && AllDigits(head + s[..n])
      && ZipNumber(s, width, NumberOf(head), head != "") == if head + s[..n] == "" then -1 else NumberOf(head + s[..n])
    decreases width
  {
    if width > 0 && s != "" && IsDigit(s[0]) {
      var more := head + [s[0]];
      assert more[..|more| - 1] == head;
      ZipContinues(s[1..], width - 1, more);
      var n := if DigitRun(s) < width then DigitRun(s) else width;
      assert more + s[1..][..n - 1] == head + s[..n];
    } else {
      assert head + s[..0] == head;
    }
  }

  lemma ZipReads(s: string)
    ensures AllDigits(Leading(s))
    ensures ZipNumber(s, 5, 0, false) == if Leading(s) == "" then -1 else NumberOf(Leading(s))
  {
    assert NumberOf("") == 0;
    ZipContinues(s, 5, "");
    assert "" + Leading(s) == Leading(s);
  }

  // ---- one region, by kind ----

  lemma OneRegion(loc: Location, r: Region, near: Near)
    ensures InSomeRegion(loc, Territory([r]), near) == InRegion(r, loc, near)
  {
    assert [r][0] == r;
  }

  /** A territory is the union of its regions. */
  lemma TerritoryIsUnion(c: Cond, env: Env, row: Row, regions: seq<Region>, m: Meaning, near: Near)
    requires RealTest(m, near) && (c.InRegions? || c.UserInRegions?)
    ensures Holds(c, env, row, Territory(regions), m) <==>
      exists i :: 0 <= i < |regions| && Holds(c, env, row, Territory([regions[i]]), m)
  {
    var loc := if c.InRegions? then PlaceOf(c.place, row)
      else UserPlace(row, m.centroid(c.source, Look(env, GeoTable(c.source)), row));
    forall r | r in regions {
      OneRegion(loc, r, near);
    }
  }

  /** A ZIP range takes the rows whose ZIP starts with a number in it. */
  predicate InZipRange(ranges: seq<(int, int)>, zip: Value) {
    var digits := Leading(Cleaned(zip));
    digits != "" && AllDigits(digits) && exists r :: r in ranges && r.0 <= NumberOf(digits) <= r.1
  }

  lemma ByZip(ranges: seq<(int, int)>, loc: Location, near: Near)
    ensures InRegion(ZipRange(ranges), loc, near) == InZipRange(ranges, loc.zip)
  {
    ZipReads(Cleaned(loc.zip));
  }

  /** A circle takes the rows that have coordinates, and whose coordinates are near enough to its centre. */
  predicate Within(near: Near, circle: Region, lat: Value, lng: Value)
    requires circle.GeoRadius?
  {
    lat != Null && lng != Null && near(circle.lat, circle.lng, circle.miles, lat, lng)
  }

  // ---- each anchored place ----

  /** A job, by its own columns; its country code counts before its country, unless it is missing or empty. */
  lemma JobRows(env: Env, row: Row, r: Region, source: Source, m: Meaning, near: Near)
    requires RealTest(m, near)
    ensures var inside := Holds(Predicate(Jobs, source), env, row, Territory([r]), m);
      var missing := Field(row, LocationCountryCode) == Null || Field(row, LocationCountryCode) == Text("");
      var country := Cleaned(if missing then Field(row, LocationCountry) else Field(row, LocationCountryCode));
      match r
      case ZipRange(ranges) => inside == InZipRange(ranges, Field(row, LocationZip))
      case CityState(cities) =>
        var city, state := Cleaned(Field(row, LocationCity)), Cleaned(Field(row, LocationState));
        inside == (city != "" && (Lower(city), Upper(state)) in cities)
      case GeoRadius(_, _, _) =>
        inside == Within(near, r, Field(row, LocationLat), Field(row, LocationLng))
      case CountryRegion(parts) =>
        var state := Cleaned(Field(row, LocationState));
        inside == (state != "" && (Upper(country), Lower(state)) in parts)
      case CountryOnly(countries) =>
        inside == (country != "" && Upper(country) in countries)
  {
    OneRegion(PlaceOf(JobPlace, row), r, near);
    if r.ZipRange? { ByZip(r.ranges, PlaceOf(JobPlace, row), near); }
  }

  /** A restaurant, by its address. */
  lemma RestaurantRows(env: Env, row: Row, r: Region, source: Source, m: Meaning, near: Near)
    requires RealTest(m, near)
    ensures var inside := Holds(Predicate(FoodRestaurants, source), env, row, Territory([r]), m);
      match r
      case ZipRange(ranges) => inside == InZipRange(ranges, Field(row, AddressZip))
      case CityState(cities) =>
        var city, state := Cleaned(Field(row, AddressCity)), Cleaned(Field(row, AddressState));
        inside == (city != "" && (Lower(city), Upper(state)) in cities)
      case GeoRadius(_, _, _) =>
        inside == Within(near, r, Field(row, Latitude), Field(row, Longitude))
      case CountryRegion(parts) =>
        var country, state := Cleaned(Field(row, AddressCountry)), Cleaned(Field(row, AddressState));
        inside == (state != "" && (Upper(country), Lower(state)) in parts)
      case CountryOnly(countries) =>
        var country := Cleaned(Field(row, AddressCountry));
        inside == (country != "" && Upper(country) in countries)
  {
    OneRegion(PlaceOf(RestaurantPlace, row), r, near);
    if r.ZipRange? { ByZip(r.ranges, PlaceOf(RestaurantPlace, row), near); }
  }

  /** A postal centroid, by its place. */
  lemma CentroidRows(env: Env, row: Row, r: Region, m: Meaning, near: Near)
    requires RealTest(m, near)
    ensures var inside := Holds(InRegions(PostalPlace), env, row, Territory([r]), m);
      match r
      case ZipRange(ranges) => inside == InZipRange(ranges, Field(row, PostalCode))
      case CityState(cities) =>
        var city, state := Cleaned(Field(row, PlaceName)), Cleaned(Field(row, Admin1));
        inside == (city != "" && (Lower(city), Upper(state)) in cities)
      case GeoRadius(_, _, _) =>
        inside == Within(near, r, Field(row, Lat), Field(row, Lng))
      case CountryRegion(parts) =>
        var country, state := Cleaned(Field(row, Country)), Cleaned(Field(row, Admin1));
        inside == (state != "" && (Upper(country), Lower(state)) in parts)
      case CountryOnly(countries) =>
        var country := Cleaned(Field(row, Country));
        inside == (country != "" && Upper(country) in countries)
  {
    OneRegion(PlaceOf(PostalPlace, row), r, near);
    if r.ZipRange? { ByZip(r.ranges, PlaceOf(PostalPlace, row), near); }
  }

  /** A user, by the stored address; the coordinates are those of the centroid looked up for it. */
  lemma UserRows(env: Env, row: Row, r: Region, source: Source, m: Meaning, near: Near)
    requires RealTest(m, near)
    ensures var inside := Holds(UserInRegions(source), env, row, Territory([r]), m);
      var geo := Plain(if source == CacheSource then GeocodeCache else PostalCentroids);
      var at := m.centroid(source, Look(env, geo), row);
      match r
      case ZipRange(ranges) => inside == InZipRange(ranges, Field(row, ZipCode))
      case CityState(cities) =>
        var city, state := Cleaned(Field(row, City)), Cleaned(Field(row, State));
        inside == (city != "" && (Lower(city), Upper(state)) in cities)
      case GeoRadius(_, _, _) =>
        inside == Within(near, r, at.0, at.1)
      case CountryRegion(parts) =>
        var country, state := Cleaned(Field(row, Country)), Cleaned(Field(row, State));
        inside == (state != "" && (Upper(country), Lower(state)) in parts)
      case CountryOnly(countries) =>
        var country := Cleaned(Field(row, Country));
        inside == (country != "" && Upper(country) in countries)
  {
    var loc := UserPlace(row, m.centroid(source, Look(env, GeoTable(source)), row));
    OneRegion(loc, r, near);
    if r.ZipRange? { ByZip(r.ranges, loc, near); }
  }

  /** A job in " Austin", "Tx " is a job in Austin, TX. */
  lemma AustinIsInside(env: Env, source: Source, m: Meaning, near: Near)
    requires RealTest(m, near)
    ensures var row := map[LocationCity := Text(" Austin"), LocationState := Text("Tx ")];
      && Holds(Predicate(Jobs, source), env, row, Territory([CityState([("austin", "TX")])]), m)
      && !Holds(Predicate(Jobs, source), env, row, Territory([CityState([("tx", "AUSTIN")])]), m)
  {
    var row := map[LocationCity := Text(" Austin"), LocationState := Text("Tx ")];
    assert TrimLeft(" Austin") == TrimLeft("Austin") by { assert " Austin"[1..] == "Austin"; }
    assert TrimRight("Tx ") == TrimRight("Tx") by { assert "Tx "[..2] == "Tx"; }
    assert Lower("Austin") == "austin" && Upper("Tx") == "TX";
    hide Holds, Lower, Upper, TrimLeft, TrimRight;
    JobRows(env, row, CityState([("austin", "TX")]), source, m, near);
    JobRows(env, row, CityState([("tx", "AUSTIN")]), source, m, near);
  }

  /** A row is linked to the rows whose key is its own column's value, or is that value as text; a missing value leads
      nowhere. */
  lemma LinkedRows(table: Name, key: Column, asText: bool, col: Column, inner: Cond, env: Env, row: Row,
                   territory: Value, m: Meaning)
    ensures Holds(Exists(table, key, asText, col, inner), env, row, territory, m) <==>
      exists i :: 0 <= i < |Look(env, table)| && var to, from := Field(Look(env, table)[i], key), Field(row, col);
        && to != Null && from == (if asText then m.cast(to) else to) && from != Null
        && Holds(inner, env, Look(env, table)[i], territory, m)
  {
  }

  /** A dispute is where its job is; a redemption for a job is where the job is whose id, as text, it refers to. A
      missing id leads nowhere. */
  lemma LinkedJobs(env: Env, row: Row, territory: Value, source: Source, m: Meaning)
    ensures Holds(Predicate(Disputes, source), env, row, territory, m) <==>
      exists job :: job in Look(env, Copy(Jobs)) && Field(job, Id) == Field(row, JobId) != Null
        && Holds(Predicate(Jobs, source), env, job, territory, m)
    ensures Field(row, Surface) == Text("job") ==> (
      Holds(Predicate(PromoRedemptions, source), env, row, territory, m) <==>
        exists job :: job in Look(env, Copy(Jobs)) && Field(job, Id) != Null
          && m.cast(Field(job, Id)) == Field(row, ReferenceId) != Null
          && Holds(Predicate(Jobs, source), env, job, territory, m))
  {
    LinkedRows(Copy(Jobs), Id, false, JobId, InRegions(JobPlace), env, row, territory, m);
    LinkedRows(Copy(Jobs), Id, true, ReferenceId, InRegions(JobPlace), env, row, territory, m);
    hide Look, SameKey;
  }

  // ---- the centroid that stands in for a user's coordinates ----

  /** The digits a user's ZIP is looked up by: the first five, or, in the table of all countries, the first ten when
      there are at least three. */
  function LookedUp(source: Source, zip: Value): string {
    var s := Cleaned(zip);
    var n := DigitRun(s);
    match source
    case CacheSource => if n >= 5 then s[..5] else ""
    case CentroidSource => if n < 3 then "" else if n <= 10 then s[..n] else s[..10]
  }

  /** May a row of the geo table stand in for the user? */
  predicate CanStandIn(source: Source, user: Row, geo: Row) {
    var digits := LookedUp(source, Field(user, ZipCode));
    digits != "" && match source
    case CacheSource =>
      Upper(Cleaned(Field(user, Country))) == "US" && Field(geo, ZipCode) == Text(digits)
      && Field(geo, Lat) != Null && Field(geo, Lng) != Null
    case CentroidSource =>
      Upper(Cleaned(Field(user, Country))) == Upper(Cleaned(Field(geo, Country)))
      && Field(geo, PostalCode) == Text(digits)
  }

  const UPDATED_AT := Other("updated_at")

  /** Which of two rows comes first: the one updated later, rows without a time last; or the one of smaller id. */
  predicate ComesFirst(source: Source, a: Row, b: Row) {
    match source
    case CacheSource =>
      var x, y := Field(a, UPDATED_AT), Field(b, UPDATED_AT);
      x.Instant? && (y == Null || (y.Instant? && x.t > y.t))
    case CentroidSource => Field(a, Id).Num? && Field(b, Id).Num? && Field(a, Id).n < Field(b, Id).n
  }

  ghost predicate Picked(source: Source, rows: Rows, user: Row, i: int) {
    && 0 <= i < |rows| && CanStandIn(source, user, rows[i])
    && forall k :: 0 <= k < |rows| && CanStandIn(source, user, rows[k]) ==> !ComesFirst(source, rows[k], rows[i])
  }

  ghost predicate PicksOne(source: Source, rows: Rows, user: Row, at: (Value, Value)) {
    if exists i :: 0 <= i < |rows| && CanStandIn(source, user, rows[i])
    then exists i :: Picked(source, rows, user, i) && at == (Field(rows[i], Lat), Field(rows[i], Lng))
    else at == (Null, Null)
  }

  /** The lookup of the statement is the real one: a first row that may stand in, or no coordinates. */
  ghost predicate RealLookup(m: Meaning) {
    forall source, rows, user :: PicksOne(source, rows, user, m.centroid(source, rows, user))
  }

  /** A user inside a circle has a stand-in within it that no other comes before; and if every such stand-in is within
      it, and there is one at all, the user is inside. Users outside the US have none in the cache. */
  lemma UsersWithinRadius(env: Env, row: Row, circle: Region, source: Source, m: Meaning, near: Near)
    requires RealTest(m, near) && RealLookup(m) && circle.GeoRadius?
    ensures var rows := Look(env, Plain(if source == CacheSource then GeocodeCache else PostalCentroids));
      var inside := Holds(UserInRegions(source), env, row, Territory([circle]), m);
      var found := exists i :: 0 <= i < |rows| && CanStandIn(source, row, rows[i]);
      var within := (g: Row) => Within(near, circle, Field(g, Lat), Field(g, Lng));
      && (inside ==> exists i :: Picked(source, rows, row, i) && within(rows[i]))
      && (found && (forall i :: Picked(source, rows, row, i) ==> within(rows[i])) ==> inside)
      && (source == CacheSource && Upper(Cleaned(Field(row, Country))) != "US" ==> !inside)
  {
    hide Holds, CanStandIn, ComesFirst;
    var rows := Look(env, GeoTable(source));
    UserRows(env, row, circle, source, m, near);
    assert PicksOne(source, rows, row, m.centroid(source, rows, row));
    CacheIsOfTheUS(rows, row);
  }

  lemma CacheIsOfTheUS(rows: Rows, user: Row)
    ensures Upper(Cleaned(Field(user, Country))) != "US" ==>
      forall i :: 0 <= i < |rows| ==> !CanStandIn(CacheSource, user, rows[i])
  {
  }

  // ---- the lookup, row by row ----

  /** Is `d` what a text starts with, all digits? */
  predicate StartsWith(s: string, d: string) {
    d <= s && AllDigits(d)
  }

  /** The cache is looked up by the five digits a ZIP starts with, if it starts with five. */
  lemma CacheLooksUp(zip: Value, d: string)
    ensures d != "" && LookedUp(CacheSource, zip) == d <==> |d| == 5 && StartsWith(Cleaned(zip), d)
  {
    var s := Cleaned(zip);
    if DigitRun(s) >= 5 { assert s[..5] == s[..DigitRun(s)][..5]; }
  }

  /** The centroids are looked up by the digits a ZIP starts with, as many as there are from three to ten. */
  lemma CentroidsLookUp(zip: Value, d: string)
    ensures d != "" && LookedUp(CentroidSource, zip) == d <==>
      && 3 <= |d| <= 10 && StartsWith(Cleaned(zip), d)
      && (|d| < 10 ==> d == Cleaned(zip) || !IsDigit(Cleaned(zip)[|d|]))
  {
    var s := Cleaned(zip);
    if StartsWith(s, d) && |d| < DigitRun(s) { assert s[..DigitRun(s)][|d|] == s[|d|]; }
    if DigitRun(s) > 10 { assert s[..10] == s[..DigitRun(s)][..10]; }
  }

  lemma TheOneLookedUp(rows: Rows, row: Row, source: Source, m: Meaning, a: nat)
    requires RealLookup(m) && a < |rows|
    requires forall i :: Picked(source, rows, row, i) ==> i == a
    ensures m.centroid(source, rows, row)
         == if exists i :: 0 <= i < |rows| && CanStandIn(source, row, rows[i])
            then (Field(rows[a], Lat), Field(rows[a], Lng)) else (Null, Null)
  {
    hide CanStandIn, ComesFirst;
    assert PicksOne(source, rows, row, m.centroid(source, rows, row));
  }

  /** EXACT. With one row in the cache, a user is inside a circle if and only if the country is US, the ZIP starts with
      the row's five digits, and the row has coordinates within the circle. */
  lemma LoneCacheRow(env: Env, row: Row, geo: Row, circle: Region, m: Meaning, near: Near)
    requires RealTest(m, near) && RealLookup(m) && circle.GeoRadius?
    requires Look(env, Plain(GeocodeCache)) == [geo]
    ensures Holds(UserInRegions(CacheSource), env, row, Territory([circle]), m) <==>
      && Upper(Cleaned(Field(row, Country))) == "US"
      && Field(geo, ZipCode).Text? && |Field(geo, ZipCode).s| == 5
      && StartsWith(Cleaned(Field(row, ZipCode)), Field(geo, ZipCode).s)
      && Within(near, circle, Field(geo, Lat), Field(geo, Lng))
  {
    UserRows(env, row, circle, CacheSource, m, near);
    TheOneLookedUp([geo], row, CacheSource, m, 0);
    hide Holds, Upper, LookedUp, StartsWith;
    assert (exists i :: 0 <= i < |[geo]| && CanStandIn(CacheSource, row, [geo][i])) <==>
        CanStandIn(CacheSource, row, [geo][0]);
    if Field(geo, ZipCode).Text? { CacheLooksUp(Field(row, ZipCode), Field(geo, ZipCode).s); }
  }

  /** EXACT. With one centroid, a user is inside a circle if and only if the countries agree, whatever their case, the
      centroid's code is the digits the ZIP starts with, three to ten, and the centroid is within the circle. */
  lemma LoneCentroid(env: Env, row: Row, geo: Row, circle: Region, m: Meaning, near: Near)
    requires RealTest(m, near) && RealLookup(m) && circle.GeoRadius?
    requires Look(env, Plain(PostalCentroids)) == [geo]
    ensures Holds(UserInRegions(CentroidSource), env, row, Territory([circle]), m) <==>
      && Upper(Cleaned(Field(row, Country))) == Upper(Cleaned(Field(geo, Country)))
      && Field(geo, PostalCode).Text? && 3 <= |Field(geo, PostalCode).s| <= 10
      && var (zip, code) := (Cleaned(Field(row, ZipCode)), Field(geo, PostalCode).s);
      && StartsWith(zip, code) && (|code| < 10 ==> code == zip || !IsDigit(zip[|code|]))
      && Within(near, circle, Field(geo, Lat), Field(geo, Lng))
  {
    UserRows(env, row, circle, CentroidSource, m, near);
    TheOneLookedUp([geo], row, CentroidSource, m, 0);
    hide Holds, Upper, LookedUp;
    assert (exists i :: 0 <= i < |[geo]| && CanStandIn(CentroidSource, row, [geo][i])) <==>
        CanStandIn(CentroidSource, row, [geo][0]);
    if Field(geo, PostalCode).Text? { CentroidsLookUp(Field(row, ZipCode), Field(geo, PostalCode).s); }
  }

  /** Of two rows that may stand in, the one updated later counts, and one with a time before one without; of two
      centroids the one of smaller id. Where they stand in the table does not matter. */
  lemma FirstOfTwo(env: Env, row: Row, a: Row, b: Row, circle: Region, source: Source, m: Meaning, near: Near)
    requires RealTest(m, near) && RealLookup(m) && circle.GeoRadius?
    requires CanStandIn(source, row, a) && CanStandIn(source, row, b)
    requires Look(env, Plain(if source == CacheSource then GeocodeCache else PostalCentroids)) in {[a, b], [b, a]}
    ensures var inside := Holds(UserInRegions(source), env, row, Territory([circle]), m);
      var (now, before) := (Field(a, UPDATED_AT), Field(b, UPDATED_AT));
      var (x, y) := (Field(a, Id), Field(b, Id));
      && (source == CacheSource && now.Instant? && (before == Null || (before.Instant? && now.t > before.t)) ==>
            inside == Within(near, circle, Field(a, Lat), Field(a, Lng)))
      && (source == CentroidSource && x.Num? && y.Num? && x.n < y.n ==>
            inside == Within(near, circle, Field(a, Lat), Field(a, Lng)))
  {
    var rows := Look(env, Plain(if source == CacheSource then GeocodeCache else PostalCentroids));
    UserRows(env, row, circle, source, m, near);
    if ComesFirst(source, a, b) {
      hide Holds, CanStandIn, Within;
      var at: nat := if rows == [a, b] then 0 else 1;
      assert rows[at] == a && rows[1 - at] == b;
      TheOneLookedUp(rows, row, source, m, at);
      assert CanStandIn(source, row, rows[at]);
    }
  }
}
