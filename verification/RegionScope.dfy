/** Region-scoped analytics: a fixed statement is run unchanged under a WITH prefix that hides every table
    it reads behind that table's rows inside the caller's regions. */
module RegionScope {
  import opened Relational
  import opened Sequences
  import opened StatementText

  // ---- the anchor table ----

  predicate IsAnchor(t: Table) {
    match t
    case Plans | SlaTargets | DiscountCodes | Users | PostalCentroids | GeocodeCache => false
    case Unknown(_) => false
    case _ => true
  }

  predicate PassThrough(t: Table) {
    t in {Plans, SlaTargets, DiscountCodes}
  }

  function Needs(t: Table): seq<Table> {
    match t
    case Disputes => [Jobs]
    case Payments | PlatformLedger => [Jobs, Users]
    case PayoutRequests | Subscriptions | ConsultingSessions | ConsultingFeedback | SupportConversations
       | SupportReviews | InterestProfiles | OfferRecipients | OfferPreferences => [Users]
    case FoodOrders => [FoodRestaurants]
    case PromoRedemptions => [Jobs, Users, FoodOrders, FoodRestaurants]
    case FoodOrderItems => [FoodOrders, FoodRestaurants]
    case DemandDaily | SupplyDaily => [PostalCentroids]
    case OfferDeliveries => [OfferRecipients, Users]
    case OfferClicks => [OfferDeliveries, OfferRecipients, Users]
    case AffiliateConversions => [OfferClicks, OfferDeliveries, OfferRecipients, Users]
    case _ => []
  }

  function JobIn(col: Column): Cond {
    Exists(Copy(Jobs), Id, false, col, InRegions(JobPlace))
  }

  function UserIn(col: Column, source: Source): Cond {
    Exists(Copy(Users), Id, false, col, UserInRegions(source))
  }

  function RestaurantIn(col: Column): Cond {
    Exists(Copy(FoodRestaurants), Id, false, col, InRegions(RestaurantPlace))
  }

  function PostalIn(col: Column): Cond {
    Exists(Copy(PostalCentroids), Id, false, col, InRegions(PostalPlace))
  }

  function RecipientUserIn(col: Column, source: Source): Cond {
    Exists(Copy(OfferRecipients), Id, false, col, UserIn(UserId, source))
  }

  function Predicate(t: Table, source: Source): Cond
    requires IsAnchor(t)
  {
    match t
    case Jobs => InRegions(JobPlace)
    case Disputes => JobIn(JobId)
    case Payments => IfPresent(JobId, JobIn(JobId), UserIn(PayerId, source))
    case PlatformLedger => IfPresent(JobId, JobIn(JobId), UserIn(UserId, source))
    case SupportConversations | SupportReviews => UserIn(CustomerId, source)
    case FoodRestaurants => InRegions(RestaurantPlace)
    case FoodOrders => RestaurantIn(RestaurantId)
    case PromoRedemptions =>
      IfIs(Surface, "job", Exists(Copy(Jobs), Id, true, ReferenceId, InRegions(JobPlace)),
        IfIs(Surface, "food", Exists(Copy(FoodOrders), Id, true, ReferenceId, RestaurantIn(RestaurantId)),
          UserIn(UserId, source)))
    case FoodOrderItems => Exists(Copy(FoodOrders), Id, false, OrderId, RestaurantIn(RestaurantId))
    case DemandDaily | SupplyDaily => PostalIn(PostalRef)
    case OfferDeliveries => RecipientUserIn(RecipientId, source)
    case OfferClicks => Exists(Copy(OfferDeliveries), Id, false, DeliveryId, RecipientUserIn(RecipientId, source))
    case AffiliateConversions =>
      Exists(Copy(OfferClicks), ClickId, false, ClickId,
        Exists(Copy(OfferDeliveries), Id, false, DeliveryId, RecipientUserIn(RecipientId, source)))
    case _ => UserIn(UserId, source)
  }

  // ---- the rewrite ----

  datatype Scope = Global | Regional(regions: seq<Region>, source: Source)
  datatype Built = Built(text: Query, params: seq<Value>)
  datatype Result = Ok(built: Built) | Unsupported

  function BaseCtes(bases: seq<Table>): Ctes {
    if bases == [] then End
    else Cte(Copy(bases[0]), From(Plain(bases[0])), BaseCtes(bases[1..]))
  }

  function ShadowCtes(shadow: seq<Table>, ref: Scalar, source: Source): Ctes
    requires forall t :: t in shadow ==> IsAnchor(t)
  {
    if shadow == [] then End
    else Cte(Plain(shadow[0]), Where(Predicate(shadow[0], source), From(Copy(shadow[0])), ref),
             ShadowCtes(shadow[1..], ref, source))
  }

  /** The statement under its prefix; a statement that opens with WITH keeps its own list after the prefix. */
  function Prefixed(q: Query, shadow: seq<Table>, bases: seq<Table>, ref: Scalar, source: Source): Query
    requires forall t :: t in shadow ==> IsAnchor(t)
  {
    var prefix := AppendCtes(BaseCtes(bases), ShadowCtes(shadow, ref, source));
    if q.With? then With(AppendCtes(prefix, q.ctes), q.body) else With(prefix, q)
  }

  /** May `shadow` and `bases`, in whatever order, be the lists the rewriter builds for this text? */
  ghost predicate IsPlan(text: seq<Word>, shadow: seq<Table>, bases: seq<Table>) {
    && Distinct(shadow)
    && Distinct(bases)
    && (forall t :: t in shadow <==> Plain(t) in Referenced(text) && !PassThrough(t))
    && (forall t :: t in shadow ==> IsAnchor(t) && t in bases)
    && (forall t, n :: t in shadow && n in Needs(t) ==> n in bases)
  }

  /** Is a statement refused: WITH RECURSIVE, or a table with neither an anchor nor a pass? */
  ghost predicate Refused(text: seq<Word>) {
    || WithRecursive in text
    || exists n :: n in Referenced(text) && !(n.Plain? && (PassThrough(n.table) || IsAnchor(n.table)))
  }

  function ScopedBy(built: Built, shadow: seq<Table>, bases: seq<Table>, regions: seq<Region>, source: Source): Result
    requires forall t :: t in shadow ==> IsAnchor(t)
  {
    Ok(Built(Prefixed(built.text, shadow, bases, Param(|built.params| + 1), source),
        built.params + [Territory(regions)]))
  }

  ghost predicate IsScoping(built: Built, scope: Scope, r: Result) {
    var text := Words(built.text);
    match scope
    case Global => r == Ok(built)
    case Regional(regions, source) =>
      if Refused(text) then r == Unsupported
      else if forall n :: n in Referenced(text) ==> n.Plain? && PassThrough(n.table) then r == Ok(built)
      else exists shadow, bases :: IsPlan(text, shadow, bases) && r == ScopedBy(built, shadow, bases, regions, source)
  }

  /** The copies the prefix needs: each shadowed table and the tables its predicate reads, once each. */
  method CollectBases(shadow: seq<Table>) returns (bases: seq<Table>)
    ensures Distinct(bases)
    ensures forall t :: t in shadow ==> t in bases
    ensures forall t, n :: t in shadow && n in Needs(t) ==> n in bases
  {
    hide Needs;
    bases := [];
    for i := 0 to |shadow|
      invariant Distinct(bases)
      invariant forall k :: 0 <= k < i ==> shadow[k] in bases && forall n :: n in Needs(shadow[k]) ==> n in bases
    {
      bases := AddTable(bases, shadow[i]);
      var needs := Needs(shadow[i]);
      for j := 0 to |needs|
        invariant Distinct(bases)
        invariant shadow[i] in bases
        invariant forall k :: 0 <= k < j ==> needs[k] in bases
        invariant forall k :: 0 <= k < i ==> shadow[k] in bases && forall n :: n in Needs(shadow[k]) ==> n in bases
      {
        bases := AddTable(bases, needs[j]);
      }
    }
  }

  /** The rewriter: collects the tables, refuses, lists the shadows and their bases, prefixes the text. */
  method ApplyRegionScope(built: Built, scope: Scope) returns (r: Result)
    ensures IsScoping(built, scope, r)
    ensures r.Unsupported? <==>
      scope.Regional? && var text := Words(built.text);
      || WithRecursive in text
      || exists n :: (
        && n in Referenced(text)
        && !(n.Plain? && (IsAnchor(n.table) || n.table in {Plans, SlaTargets, DiscountCodes})))
    ensures scope.Global? ==> r == Ok(built)
    ensures r.Ok? && r.built != built ==> r.built.params == built.params + [Territory(scope.regions)]
  {
    if scope.Global? { return Ok(built); }
    var text := Words(built.text);
    if WithRecursive in text { return Unsupported; }
    var tables := ReferencedTables(text);
    var shadow: seq<Table> := [];
    for i := 0 to |tables|
      invariant Distinct(shadow)
      invariant forall t :: t in shadow <==> Plain(t) in tables[..i] && !PassThrough(t)
      invariant forall t :: t in shadow ==> IsAnchor(t)
      invariant forall n :: n in tables[..i] ==> n.Plain? && (PassThrough(n.table) || IsAnchor(n.table))
    {
      assert tables[..i + 1] == tables[..i] + [tables[i]];
      assert tables[i] in Referenced(text);
      if tables[i].Plain? && PassThrough(tables[i].table) { continue; }
      if !(tables[i].Plain? && IsAnchor(tables[i].table)) { return Unsupported; }
      shadow := shadow + [tables[i].table];
    }
    assert tables[..|tables|] == tables;
    if |shadow| == 0 {
      assert forall n :: n in Referenced(text) ==> n in tables;
      return Ok(built);
    }
    var bases := CollectBases(shadow);
    assert IsPlan(text, shadow, bases);
    assert Plain(shadow[0]) in Referenced(text) && !PassThrough(Plain(shadow[0]).table) by {
      assert shadow[0] in shadow;
    }
    r := ScopedBy(built, shadow, bases, scope.regions, scope.source);
  }

  function AddTable(bases: seq<Table>, t: Table): (r: seq<Table>)
    ensures Distinct(bases) ==> Distinct(r)
    ensures forall x :: x in r <==> x in bases || x == t
  {
    if t in bases then bases else bases + [t]
  }

  // ---- what "inside the territory" means, table by table, on the database itself ----

  ghost predicate JobInside(db: Env, regions: Value, m: Meaning, asText: bool, id: Value) {
    var jobs := Look(db, Plain(Jobs));
    exists i :: Linked(jobs, i, Id, asText, id, m) && m.located(PlaceOf(JobPlace, jobs[i]), regions)
  }

  ghost predicate UserInside(db: Env, regions: Value, source: Source, m: Meaning, id: Value) {
    var users := Look(db, Plain(Users));
    exists i :: Linked(users, i, Id, false, id, m)
      && m.located(UserPlace(users[i], m.centroid(source, Look(db, GeoTable(source)), users[i])), regions)
  }

  ghost predicate RestaurantInside(db: Env, regions: Value, m: Meaning, id: Value) {
    var restaurants := Look(db, Plain(FoodRestaurants));
    exists i :: Linked(restaurants, i, Id, false, id, m)
      && m.located(PlaceOf(RestaurantPlace, restaurants[i]), regions)
  }

  ghost predicate CentroidInside(db: Env, regions: Value, m: Meaning, id: Value) {
    var centroids := Look(db, Plain(PostalCentroids));
    exists i :: Linked(centroids, i, Id, false, id, m) && m.located(PlaceOf(PostalPlace, centroids[i]), regions)
  }

  ghost predicate OrderInside(db: Env, regions: Value, m: Meaning, asText: bool, id: Value) {
    var orders := Look(db, Plain(FoodOrders));
    exists i :: Linked(orders, i, Id, asText, id, m) && RestaurantInside(db, regions, m, Field(orders[i], RestaurantId))
  }

  ghost predicate RecipientInside(db: Env, regions: Value, source: Source, m: Meaning, id: Value) {
    var recipients := Look(db, Plain(OfferRecipients));
    exists i :: Linked(recipients, i, Id, false, id, m)
      && UserInside(db, regions, source, m, Field(recipients[i], UserId))
  }

  ghost predicate DeliveryInside(db: Env, regions: Value, source: Source, m: Meaning, id: Value) {
    var deliveries := Look(db, Plain(OfferDeliveries));
    exists i :: Linked(deliveries, i, Id, false, id, m)
      && RecipientInside(db, regions, source, m, Field(deliveries[i], RecipientId))
  }

  ghost predicate ClickInside(db: Env, regions: Value, source: Source, m: Meaning, id: Value) {
    var clicks := Look(db, Plain(OfferClicks));
    exists i :: Linked(clicks, i, ClickId, false, id, m)
      && DeliveryInside(db, regions, source, m, Field(clicks[i], DeliveryId))
  }

  /** The documented anchor of each table: where a row "is". */
  ghost predicate Inside(t: Table, row: Row, db: Env, regions: Value, source: Source, m: Meaning)
    requires IsAnchor(t)
  {
    match t
    case Jobs => m.located(PlaceOf(JobPlace, row), regions)
    case Disputes => JobInside(db, regions, m, false, Field(row, JobId))
    case Payments =>
      if Field(row, JobId) != Null then JobInside(db, regions, m, false, Field(row, JobId))
      else UserInside(db, regions, source, m, Field(row, PayerId))
    case PlatformLedger =>
      if Field(row, JobId) != Null then JobInside(db, regions, m, false, Field(row, JobId))
      else UserInside(db, regions, source, m, Field(row, UserId))
    case SupportConversations | SupportReviews => UserInside(db, regions, source, m, Field(row, CustomerId))
    case FoodRestaurants => m.located(PlaceOf(RestaurantPlace, row), regions)
    case FoodOrders => RestaurantInside(db, regions, m, Field(row, RestaurantId))
    case PromoRedemptions =>
      if Field(row, Surface) == Text("job") then JobInside(db, regions, m, true, Field(row, ReferenceId))
      else if Field(row, Surface) == Text("food") then OrderInside(db, regions, m, true, Field(row, ReferenceId))
      else UserInside(db, regions, source, m, Field(row, UserId))
    case FoodOrderItems => OrderInside(db, regions, m, false, Field(row, OrderId))
    case DemandDaily | SupplyDaily => CentroidInside(db, regions, m, Field(row, PostalRef))
    case OfferDeliveries => RecipientInside(db, regions, source, m, Field(row, RecipientId))
    case OfferClicks => DeliveryInside(db, regions, source, m, Field(row, DeliveryId))
    case AffiliateConversions => ClickInside(db, regions, source, m, Field(row, ClickId))
    case _ => UserInside(db, regions, source, m, Field(row, UserId))
  }

  ghost function InsideRows(t: Table, rows: Rows, db: Env, regions: Value, source: Source, m: Meaning): Rows
    requires IsAnchor(t)
  {
    if rows == [] then []
    else (if Inside(t, rows[0], db, regions, source, m) then [rows[0]] else [])
         + InsideRows(t, rows[1..], db, regions, source, m)
  }

  /** The database with each anchored table cut down to its rows inside the territory; every cut is judged
      on the uncut tables. */
  ghost function Regionalized(db: Env, regions: Value, source: Source, m: Meaning): Env {
    map n | n in db ::
      if !n.Copy? && IsAnchor(n.table) then InsideRows(n.table, db[n], db, regions, source, m) else db[n]
  }

  // ---- each predicate reads the copies it declares, and means the documented anchor ----

  /** Each anchor predicate reads only `__rs_` copies declared in its needs, and one of the two geo tables. */
  lemma PredicateReadsItsNeeds(t: Table, source: Source)
    requires IsAnchor(t)
    ensures forall n :: n in CondTables(Predicate(t, source)) ==>
      n == GeoTable(source) || (n.Copy? && n.of in Needs(t))
    ensures !IsAnchor(GeoTable(source).table)
  {
    var needed := Needs(t);
    assert forall i :: 0 <= i < |needed| ==> needed[i] in needed;
  }

  ghost predicate CopiesHold(env: Env, db: Env, bases: seq<Table>, source: Source) {
    && (forall b :: b in bases ==> Look(env, Copy(b)) == Look(db, Plain(b)))
    && Look(env, GeoTable(source)) == Look(db, GeoTable(source))
  }

  lemma OrderInMeans(env: Env, db: Env, row: Row, asText: bool, col: Column, regions: Value, m: Meaning)
    requires Look(env, Copy(FoodOrders)) == Look(db, Plain(FoodOrders))
    requires Look(env, Copy(FoodRestaurants)) == Look(db, Plain(FoodRestaurants))
    ensures Holds(Exists(Copy(FoodOrders), Id, asText, col, RestaurantIn(RestaurantId)), env, row, regions, m)
         == OrderInside(db, regions, m, asText, Field(row, col))
  {
    var rows := Look(db, Plain(FoodOrders));
    forall i | 0 <= i < |rows|
      ensures Holds(RestaurantIn(RestaurantId), env, rows[i], regions, m)
          == RestaurantInside(db, regions, m, Field(rows[i], RestaurantId))
    {
    }
  }

  lemma RecipientInMeans(env: Env, db: Env, row: Row, col: Column, regions: Value, source: Source, m: Meaning)
    requires Look(env, Copy(OfferRecipients)) == Look(db, Plain(OfferRecipients))
    requires Look(env, Copy(Users)) == Look(db, Plain(Users))
    requires Look(env, GeoTable(source)) == Look(db, GeoTable(source))
    ensures Holds(RecipientUserIn(col, source), env, row, regions, m)
         == RecipientInside(db, regions, source, m, Field(row, col))
  {
    var rows := Look(db, Plain(OfferRecipients));
    forall i | 0 <= i < |rows|
      ensures Holds(UserIn(UserId, source), env, rows[i], regions, m)
          == UserInside(db, regions, source, m, Field(rows[i], UserId))
    {
    }
  }

  lemma DeliveryInMeans(env: Env, db: Env, row: Row, col: Column, regions: Value, source: Source, m: Meaning)
    requires Look(env, Copy(OfferDeliveries)) == Look(db, Plain(OfferDeliveries))
    requires Look(env, Copy(OfferRecipients)) == Look(db, Plain(OfferRecipients))
    requires Look(env, Copy(Users)) == Look(db, Plain(Users))
    requires Look(env, GeoTable(source)) == Look(db, GeoTable(source))
    ensures Holds(Exists(Copy(OfferDeliveries), Id, false, col, RecipientUserIn(RecipientId, source)), env, row,
                  regions, m)
         == DeliveryInside(db, regions, source, m, Field(row, col))
  {
    var rows := Look(db, Plain(OfferDeliveries));
    forall i | 0 <= i < |rows| {
      RecipientInMeans(env, db, rows[i], RecipientId, regions, source, m);
    }
  }

  lemma ClickInMeans(env: Env, db: Env, row: Row, regions: Value, source: Source, m: Meaning)
    requires Look(env, Copy(OfferClicks)) == Look(db, Plain(OfferClicks))
    requires Look(env, Copy(OfferDeliveries)) == Look(db, Plain(OfferDeliveries))
    requires Look(env, Copy(OfferRecipients)) == Look(db, Plain(OfferRecipients))
    requires Look(env, Copy(Users)) == Look(db, Plain(Users))
    requires Look(env, GeoTable(source)) == Look(db, GeoTable(source))
    ensures Holds(Predicate(AffiliateConversions, source), env, row, regions, m)
         == ClickInside(db, regions, source, m, Field(row, ClickId))
  {
    var rows := Look(db, Plain(OfferClicks));
    forall i | 0 <= i < |rows| {
      DeliveryInMeans(env, db, rows[i], DeliveryId, regions, source, m);
    }
  }

  lemma JobInMeans(env: Env, db: Env, row: Row, asText: bool, col: Column, regions: Value, m: Meaning)
    requires Look(env, Copy(Jobs)) == Look(db, Plain(Jobs))
    ensures Holds(Exists(Copy(Jobs), Id, asText, col, InRegions(JobPlace)), env, row, regions, m)
         == JobInside(db, regions, m, asText, Field(row, col))
  {
  }

  lemma UserInMeans(env: Env, db: Env, row: Row, col: Column, regions: Value, source: Source, m: Meaning)
    requires Look(env, Copy(Users)) == Look(db, Plain(Users))
    requires Look(env, GeoTable(source)) == Look(db, GeoTable(source))
    ensures Holds(UserIn(col, source), env, row, regions, m) == UserInside(db, regions, source, m, Field(row, col))
  {
  }

  lemma RestaurantInMeans(env: Env, db: Env, row: Row, col: Column, regions: Value, m: Meaning)
    requires Look(env, Copy(FoodRestaurants)) == Look(db, Plain(FoodRestaurants))
    ensures Holds(RestaurantIn(col), env, row, regions, m) == RestaurantInside(db, regions, m, Field(row, col))
  {
  }

  lemma PostalInMeans(env: Env, db: Env, row: Row, col: Column, regions: Value, m: Meaning)
    requires Look(env, Copy(PostalCentroids)) == Look(db, Plain(PostalCentroids))
    ensures Holds(PostalIn(col), env, row, regions, m) == CentroidInside(db, regions, m, Field(row, col))
  {
  }

  lemma JobOrUserMeans(user: Column, row: Row, env: Env, db: Env, regions: Value, source: Source, m: Meaning)
    requires Look(env, Copy(Jobs)) == Look(db, Plain(Jobs))
    requires Look(env, Copy(Users)) == Look(db, Plain(Users))
    requires Look(env, GeoTable(source)) == Look(db, GeoTable(source))
    ensures Holds(IfPresent(JobId, JobIn(JobId), UserIn(user, source)), env, row, regions, m)
         == if Field(row, JobId) != Null then JobInside(db, regions, m, false, Field(row, JobId))
            else UserInside(db, regions, source, m, Field(row, user))
  {
    JobInMeans(env, db, row, false, JobId, regions, m);
    UserInMeans(env, db, row, user, regions, source, m);
  }

  lemma PromoMeans(row: Row, env: Env, db: Env, regions: Value, source: Source, m: Meaning)
    requires Look(env, Copy(Jobs)) == Look(db, Plain(Jobs))
    requires Look(env, Copy(Users)) == Look(db, Plain(Users))
    requires Look(env, Copy(FoodOrders)) == Look(db, Plain(FoodOrders))
    requires Look(env, Copy(FoodRestaurants)) == Look(db, Plain(FoodRestaurants))
    requires Look(env, GeoTable(source)) == Look(db, GeoTable(source))
    ensures Holds(Predicate(PromoRedemptions, source), env, row, regions, m)
         == Inside(PromoRedemptions, row, db, regions, source, m)
  {
    JobInMeans(env, db, row, true, ReferenceId, regions, m);
    OrderInMeans(env, db, row, true, ReferenceId, regions, m);
    UserInMeans(env, db, row, UserId, regions, source, m);
    ChoiceHolds(Surface, "food", Exists(Copy(FoodOrders), Id, true, ReferenceId, RestaurantIn(RestaurantId)),
                UserIn(UserId, source), env, row, regions, m);
  }

  lemma ChoiceHolds(col: Column, text: string, thn: Cond, els: Cond, env: Env, row: Row, regions: Value, m: Meaning)
    ensures Holds(IfIs(col, text, thn, els), env, row, regions, m)
         == if Field(row, col) == Text(text) then Holds(thn, env, row, regions, m) else Holds(els, env, row, regions, m)
  {
  }

  /** An anchor predicate, read over copies of the unfiltered tables, says the row is inside the territory. */
  lemma PredicateMeansInside(t: Table, row: Row, env: Env, db: Env, bases: seq<Table>, regions: Value,
                             source: Source, m: Meaning)
    requires IsAnchor(t)
    requires CopiesHold(env, db, bases, source)
    requires forall n :: n in Needs(t) ==> n in bases
    ensures Holds(Predicate(t, source), env, row, regions, m) == Inside(t, row, db, regions, source, m)
  {
    hide UserInside, OrderInside, RecipientInside, DeliveryInside, ClickInside;
    if !t.Jobs? && !t.FoodRestaurants? {
      assert forall i :: 0 <= i < |Needs(t)| ==> Needs(t)[i] in Needs(t);
      LinkedPredicateMeansInside(t, row, env, db, bases, regions, source, m);
    }
  }

  predicate LinksToJob(t: Table) {
    t.Disputes? || t.Payments? || t.PlatformLedger? || t.PromoRedemptions?
  }

  predicate LinksToPlace(t: Table) {
    t.FoodOrders? || t.FoodOrderItems? || t.DemandDaily? || t.SupplyDaily?
  }

  predicate LinksToOffer(t: Table) {
    t.OfferDeliveries? || t.OfferClicks? || t.AffiliateConversions?
  }

  lemma LinkedPredicateMeansInside(t: Table, row: Row, env: Env, db: Env, bases: seq<Table>, regions: Value,
                                   source: Source, m: Meaning)
    requires IsAnchor(t) && !t.Jobs? && !t.FoodRestaurants?
    requires CopiesHold(env, db, bases, source)
    requires forall i :: 0 <= i < |Needs(t)| ==> Needs(t)[i] in bases
    ensures Holds(Predicate(t, source), env, row, regions, m) == Inside(t, row, db, regions, source, m)
  {
    hide Holds, Predicate, Inside, Needs, CopiesHold;
    if LinksToJob(t) {
      JobLinkMeans(t, row, env, db, bases, regions, source, m);
    } else if LinksToPlace(t) {
      PlaceMeans(t, row, env, db, bases, regions, source, m);
    } else if LinksToOffer(t) {
      OfferMeans(t, row, env, db, bases, regions, source, m);
    } else {
      UserLinkMeans(t, row, env, db, bases, regions, source, m);
    }
  }

  lemma JobLinkMeans(t: Table, row: Row, env: Env, db: Env, bases: seq<Table>, regions: Value, source: Source,
                     m: Meaning)
    requires LinksToJob(t)
    requires CopiesHold(env, db, bases, source)
    requires forall i :: 0 <= i < |Needs(t)| ==> Needs(t)[i] in bases
    ensures Holds(Predicate(t, source), env, row, regions, m) == Inside(t, row, db, regions, source, m)
  {
    hide Holds, JobInside, UserInside, RestaurantInside, OrderInside, CentroidInside, RecipientInside, DeliveryInside,
        ClickInside;
    match t
    case Disputes =>
      assert Needs(t)[0] == Jobs;
      JobInMeans(env, db, row, false, JobId, regions, m);
    case Payments | PlatformLedger =>
      assert Needs(t)[0] == Jobs && Needs(t)[1] == Users;
      JobOrUserMeans(if t.Payments? then PayerId else UserId, row, env, db, regions, source, m);
    case PromoRedemptions =>
      assert Needs(t)[0] == Jobs && Needs(t)[1] == Users && Needs(t)[2] == FoodOrders && Needs(t)[3] == FoodRestaurants;
      PromoMeans(row, env, db, regions, source, m);
  }

  lemma UserLinkMeans(t: Table, row: Row, env: Env, db: Env, bases: seq<Table>, regions: Value, source: Source,
                      m: Meaning)
    requires IsAnchor(t) && !t.Jobs? && !t.FoodRestaurants? && !LinksToJob(t) && !LinksToPlace(t) && !LinksToOffer(t)
    requires CopiesHold(env, db, bases, source)
    requires forall i :: 0 <= i < |Needs(t)| ==> Needs(t)[i] in bases
    ensures Holds(Predicate(t, source), env, row, regions, m) == Inside(t, row, db, regions, source, m)
  {
    hide Holds, JobInside, UserInside, RestaurantInside, OrderInside, CentroidInside, RecipientInside, DeliveryInside,
        ClickInside;
    var col := if t.SupportConversations? || t.SupportReviews? then CustomerId else UserId;
    assert Needs(t)[0] == Users && Predicate(t, source) == UserIn(col, source);
    assert Look(env, GeoTable(source)) == Look(db, GeoTable(source));
    assert Inside(t, row, db, regions, source, m) == UserInside(db, regions, source, m, Field(row, col));
    assert Look(env, Copy(Users)) == Look(db, Plain(Users));
    hide Needs, Predicate, Inside, CopiesHold;
    UserInMeans(env, db, row, col, regions, source, m);
  }

  lemma PlaceMeans(t: Table, row: Row, env: Env, db: Env, bases: seq<Table>, regions: Value, source: Source, m: Meaning)
    requires LinksToPlace(t)
    requires CopiesHold(env, db, bases, source)
    requires forall i :: 0 <= i < |Needs(t)| ==> Needs(t)[i] in bases
    ensures Holds(Predicate(t, source), env, row, regions, m) == Inside(t, row, db, regions, source, m)
  {
    hide Holds, JobInside, UserInside, RestaurantInside, OrderInside, CentroidInside, RecipientInside, DeliveryInside,
        ClickInside;
    match t
    case FoodOrders =>
      assert Needs(t)[0] == FoodRestaurants;
      RestaurantInMeans(env, db, row, RestaurantId, regions, m);
    case FoodOrderItems =>
      assert Needs(t)[0] == FoodOrders && Needs(t)[1] == FoodRestaurants;
      OrderInMeans(env, db, row, false, OrderId, regions, m);
    case DemandDaily | SupplyDaily =>
      assert Needs(t)[0] == PostalCentroids;
      PostalInMeans(env, db, row, PostalRef, regions, m);
  }

  lemma OfferMeans(t: Table, row: Row, env: Env, db: Env, bases: seq<Table>, regions: Value, source: Source, m: Meaning)
    requires LinksToOffer(t)
    requires CopiesHold(env, db, bases, source)
    requires forall i :: 0 <= i < |Needs(t)| ==> Needs(t)[i] in bases
    ensures Holds(Predicate(t, source), env, row, regions, m) == Inside(t, row, db, regions, source, m)
  {
    hide Holds, JobInside, UserInside, RestaurantInside, OrderInside, CentroidInside, RecipientInside, DeliveryInside,
        ClickInside;
    match t
    case OfferDeliveries =>
      assert Needs(t)[0] == OfferRecipients && Needs(t)[1] == Users;
      RecipientInMeans(env, db, row, RecipientId, regions, source, m);
    case OfferClicks =>
      assert Needs(t)[0] == OfferDeliveries && Needs(t)[1] == OfferRecipients && Needs(t)[2] == Users;
      DeliveryInMeans(env, db, row, DeliveryId, regions, source, m);
    case AffiliateConversions =>
      assert Needs(t)[0] == OfferClicks && Needs(t)[1] == OfferDeliveries && Needs(t)[2] == OfferRecipients
          && Needs(t)[3] == Users;
      ClickInMeans(env, db, row, regions, source, m);
  }

  lemma {:induction false} KeepMeansInside(t: Table, rows: Rows, env: Env, db: Env, bases: seq<Table>, regions: Value,
                                          source: Source, m: Meaning)
    requires IsAnchor(t)
    requires CopiesHold(env, db, bases, source)
    requires forall n :: n in Needs(t) ==> n in bases
    ensures Keep(Predicate(t, source), env, rows, regions, m) == InsideRows(t, rows, db, regions, source, m)
  {
    if rows != [] {
      PredicateMeansInside(t, rows[0], env, db, bases, regions, source, m);
      KeepMeansInside(t, rows[1..], env, db, bases, regions, source, m);
    }
  }

  // ---- what the prefix binds ----

  lemma {:induction false} BasesBound(bases: seq<Table>, env: Env, run: Run, n: Name)
    ensures Look(Bind(BaseCtes(bases), env, [], run), n)
         == if n.Copy? && n.of in bases then Look(env, Plain(n.of)) else Look(env, n)
  {
    if bases != [] {
      var env1 := env[Copy(bases[0]) := Look(env, Plain(bases[0]))];
      BasesBound(bases[1..], env1, run, n);
      assert n.Copy? && n.of in bases ==> n.of == bases[0] || n.of in bases[1..];
    }
  }

  lemma {:induction false} ShadowsBound(shadow: seq<Table>, bases: seq<Table>, env: Env, db: Env, ref: Scalar,
                                       source: Source, run: Run, n: Name)
    requires forall t :: t in shadow ==> IsAnchor(t) && t in bases
    requires forall t, x :: t in shadow && x in Needs(t) ==> x in bases
    requires CopiesHold(env, db, bases, source)
    ensures Look(Bind(ShadowCtes(shadow, ref, source), env, [], run), n)
         == if n.Plain? && n.table in shadow
            then InsideRows(n.table, Look(db, n), db, ScalarValue(ref, run), source, run.m)
            else Look(env, n)
  {
    hide Predicate, Inside, Needs, IsAnchor;
    if shadow != [] {
      var t := shadow[0];
      var regions := ScalarValue(ref, run);
      assert t in shadow;
      KeepMeansInside(t, Look(env, Copy(t)), env, db, bases, regions, source, run.m);
      var env1 := env[Plain(t) := InsideRows(t, Look(db, Plain(t)), db, regions, source, run.m)];
      assert Eval(Where(Predicate(t, source), From(Copy(t)), ref), env, [], run) == Look(env1, Plain(t));
      hide InsideRows, CopiesHold;
      ShadowKeepsCopies(t, bases, env, db, source, Look(env1, Plain(t)));
      assert forall x :: x in shadow[1..] ==> x in shadow;
      ShadowsBound(shadow[1..], bases, env1, db, ref, source, run, n);
      assert n.Plain? && n.table in shadow ==> n.table == t || n.table in shadow[1..];
    }
  }

  lemma ShadowKeepsCopies(t: Table, bases: seq<Table>, env: Env, db: Env, source: Source, rows: Rows)
    requires IsAnchor(t) && CopiesHold(env, db, bases, source)
    ensures CopiesHold(env[Plain(t) := rows], db, bases, source)
  {
    assert Plain(t) != GeoTable(source);
    forall b | b in bases
      ensures Look(env[Plain(t) := rows], Copy(b)) == Look(db, Plain(b))
    {
      assert Look(env, Copy(b)) == Look(db, Plain(b));
    }
  }

  // ---- the statement and its environment ----

  /** A fixed template: written without region conditions, WITH RECURSIVE or the reserved `__rs_` names. */
  predicate Template(q: Query) {
    match q
    case From(name) => !name.Copy?
    case Aside(_, name) => !name.Copy?
    case Leaf(_, _, _) => true
    case Enclosed(open, inner) => Opens(open) && Template(inner)
    case Op(_, _, l, r) => Template(l) && Template(r)
    case Each(_, _, outer, inner) => Template(outer) && Template(inner)
    case With(ctes, body) => TemplateCtes(ctes) && Template(body)
    case Recursive(_) => false
    case Where(_, _, _) => false
  }

  predicate TemplateCtes(ctes: Ctes) {
    match ctes
    case End => true
    case Cte(name, def, rest) => name.Plain? && Template(def) && TemplateCtes(rest)
  }

  lemma {:induction false} TemplateReadsNoCopy(q: Query, n: Name)
    requires Template(q) && n in Live(q)
    ensures !n.Copy?
  {
    match q
    case From(_) =>
    case Aside(_, _) =>
    case Leaf(_, _, _) =>
    case Enclosed(_, inner) => TemplateReadsNoCopy(inner, n);
    case Op(_, _, l, r) => if n in Live(l) { TemplateReadsNoCopy(l, n); } else { TemplateReadsNoCopy(r, n); }
    case Each(_, _, l, r) => if n in Live(l) { TemplateReadsNoCopy(l, n); } else { TemplateReadsNoCopy(r, n); }
    case With(ctes, body) =>
      TemplateCtesReadNoCopy(ctes, Live(body), n);
      if n in Live(body) { TemplateReadsNoCopy(body, n); }
  }

  lemma {:induction false} TemplateCtesReadNoCopy(ctes: Ctes, wanted: set<Name>, n: Name)
    requires TemplateCtes(ctes) && n in LiveThrough(ctes, wanted)
    ensures n in wanted || !n.Copy?
  {
    match ctes
    case End =>
    case Cte(name, def, rest) =>
      if n in LiveThrough(rest, wanted) {
        TemplateCtesReadNoCopy(rest, wanted, n);
      } else {
        TemplateReadsNoCopy(def, n);
      }
  }

  /** The guard a caller can check: each anchored table the statement reads is one the rewriter found. */
  predicate Covered(q: Query) {
    forall n :: n in Live(q) && !n.Copy? && IsAnchor(n.table) ==> n.Plain? && n in Referenced(Words(q))
  }

  lemma PrefixedValue(q: Query, shadow: seq<Table>, bases: seq<Table>, ref: Scalar, source: Source, db: Env, run: Run)
    requires forall t :: t in shadow ==> IsAnchor(t)
    ensures Eval(Prefixed(q, shadow, bases, ref, source), db, [], run)
         == Eval(q, Bind(ShadowCtes(shadow, ref, source), Bind(BaseCtes(bases), db, [], run), [], run), [], run)
  {
    BindAppend(BaseCtes(bases), ShadowCtes(shadow, ref, source), db, [], run);
    if q.With? {
      BindAppend(AppendCtes(BaseCtes(bases), ShadowCtes(shadow, ref, source)), q.ctes, db, [], run);
    }
  }

  lemma PrefixBinds(shadow: seq<Table>, bases: seq<Table>, ref: Scalar, source: Source, db: Env, run: Run, n: Name)
    requires forall t :: t in shadow ==> IsAnchor(t) && t in bases
    requires forall t, x :: t in shadow && x in Needs(t) ==> x in bases
    requires !n.Copy?
    ensures Look(Bind(ShadowCtes(shadow, ref, source), Bind(BaseCtes(bases), db, [], run), [], run), n)
         == if n.Plain? && n.table in shadow
            then InsideRows(n.table, Look(db, n), db, ScalarValue(ref, run), source, run.m)
            else Look(db, n)
  {
    var env := Bind(BaseCtes(bases), db, [], run);
    forall b | b in bases
      ensures Look(env, Copy(b)) == Look(db, Plain(b))
    {
      BasesBound(bases, db, run, Copy(b));
    }
    BasesBound(bases, db, run, GeoTable(source));
    BasesBound(bases, db, run, n);
    ShadowsBound(shadow, bases, env, db, ref, source, run, n);
  }

  lemma {:induction false} InsideRowsOfNone(t: Table, db: Env, regions: Value, source: Source, m: Meaning)
    requires IsAnchor(t)
    ensures InsideRows(t, [], db, regions, source, m) == []
  {
  }

  /** MEANING PRESERVED. In whatever order the prefix lists its shadows and copies, a covered statement run
      under the prefix returns on every database exactly what the statement itself returns on the database
      whose anchored tables are cut down to the territory. */
  lemma ScopePreservesMeaning(q: Query, params: seq<Value>, shadow: seq<Table>, bases: seq<Table>, regions: seq<Region>,
                              source: Source, db: Env, now: Value, m: Meaning)
    requires Template(q) && ParamsBound(q, |params|)
    requires IsPlan(Words(q), shadow, bases)
    requires Covered(q)
    ensures Eval(Prefixed(q, shadow, bases, Param(|params| + 1), source), db, [],
                 Run(params + [Territory(regions)], now, m))
         == Eval(q, Regionalized(db, Territory(regions), source, m), [], Run(params, now, m))
  {
    hide Inside, Predicate, Needs, Holds, Eval, InsideRows;
    var ref := Param(|params| + 1);
    var run := Run(params + [Territory(regions)], now, m);
    var inner := Bind(ShadowCtes(shadow, ref, source), Bind(BaseCtes(bases), db, [], run), [], run);
    var cut := Regionalized(db, Territory(regions), source, m);
    PrefixedValue(q, shadow, bases, ref, source, db, run);
    forall n | n in Live(q)
      ensures Look(inner, n) == Look(cut, n)
    {
      TemplateReadsNoCopy(q, n);
      PrefixBinds(shadow, bases, ref, source, db, run, n);
      assert IsAnchor(n.table) ==> n == Plain(n.table) && n in Referenced(Words(q)) && !PassThrough(n.table);
      assert n.Plain? && n.table in shadow <==> IsAnchor(n.table);
      if n in db {
      } else if IsAnchor(n.table) {
        InsideRowsOfNone(n.table, db, Territory(regions), source, m);
      }
    }
    EvalDependsOnLive(q, inner, cut, [], run);
    AppendedParamsUnseen(q, cut, [], params, [Territory(regions)], now, m);
  }

  /** COVERAGE. When parentheses are all closed where they are opened, a statement is covered exactly when none
      of its reads escapes the patterns in one of four ways: an anchored table is read under its schema's name;
      or it is read only from places other than after FROM and JOIN, or only inside calls whose parentheses nest
      at most once; or a common table expression or window of the statement has its name too. */
  lemma CoverageIsNameHygiene(q: Query)
    requires Template(q) && Tidy(q)
    ensures Covered(q) <==> forall n :: n in Live(q) && !n.Copy? && IsAnchor(n.table) ==>
      n.Plain? && AfterFrom(n) in Kept(q) && Head(n) !in Words(q)
    ensures !Refused(Words(q)) && (forall n :: n in Live(q) ==> AfterFrom(n) in Kept(q) && Head(n) !in Words(q)) ==>
      forall n :: n in Live(q) ==> n.Plain? && (IsAnchor(n.table) || PassThrough(n.table))
  {
    hide Words, Kept, Strip, Live, Tidy, Template;
    var text := Words(q);
    StrippedText(q);
    forall n
      ensures n in Referenced(text) <==> AfterFrom(n) in Kept(q) && Head(n) !in text
    {
      if AfterFrom(n) in Kept(q) { assert AfterFrom(n).name in FromNames(Strip(text)); }
      if Head(n) in text { assert Head(n).name in HeadNames(text); }
    }
  }
}
