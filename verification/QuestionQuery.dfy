/** From a recognised question to a builder query, and the validator that every such query meets again before it
    runs. */
module QuestionQuery {
  import opened Options
  import opened Text

  // ---- the builder's tables ----

  const PLATFORM_METRICS: set<string> := {
    "dispute_rate_pct", "refund_rate_pct", "job_completion_rate_pct", "payout_failure_count", "open_disputes",
    "investor_gmv_cents", "investor_take_rate_pct", "consulting_cancel_rate_pct", "consulting_avg_nps", "mrr_cents",
    "escrow_held_cents", "promo_discount_cents"}
  const GROWTH_METRICS: set<string> := {
    "growth_campaign_recipients", "growth_offer_ctr_pct", "growth_offer_optout_rate_pct", "growth_push_open_rate_pct",
    "growth_affiliate_commission_cents", "growth_promo_redeemed_cents", "demand_unfilled_rate_pct", "demand_gap_index"}
  const REVENUE := "platform_revenue_cents"
  const CANCEL_RATE := "cancel_rate_pct"
  const BUSINESS_METRICS: set<string> := {"sla_first_response_compliance_pct", "support_nps_index"}
  const RESTAURANT_METRICS: set<string> := {"restaurant_repeat_order_rate", "restaurant_top_items_revenue"}
  const PERIODS: set<string> := {"1d", "7d", "30d", "90d", "1y"}
  const CANCEL_ROLES: set<string> := {"customer", "helper", "platform"}
  const MAX_SAFE: int := 9007199254740991

  predicate IsBuilderMetric(metric: string) {
    metric in PLATFORM_METRICS + GROWTH_METRICS + BUSINESS_METRICS + RESTAURANT_METRICS + {REVENUE, CANCEL_RATE}
  }

  function Dimensions(metric: string): set<string> {
    if metric == REVENUE then {"period"}
    else if metric == CANCEL_RATE then {"role"}
    else if metric in BUSINESS_METRICS then {"business"}
    else if metric in RESTAURANT_METRICS then {"restaurant"}
    else {}
  }

  function FilterKeys(metric: string): set<string> {
    if metric == CANCEL_RATE then {"role", "customerId"}
    else if metric in BUSINESS_METRICS then {"businessId"}
    else if metric in RESTAURANT_METRICS then {"restaurantId"}
    else {}
  }

  // ---- queries ----

  datatype Filters = Filters(
    role: Option<string>, customerId: Option<string>, businessId: Option<int>, restaurantId: Option<int>)

  datatype Query = Query(metric: string, dimensions: seq<string>, filters: Filters, period: string)

  /** A query as it comes in: untrimmed, and perhaps without a period. */
  datatype Input = Input(metric: string, dimensions: seq<string>, filters: Filters, period: Option<string>)

  datatype Checked = Valid(q: Query) | Invalid(code: string)

  // ---- the validator ----

  function KeysOf(f: Filters): set<string> {
    (if f.role.Some? then {"role"} else {}) + (if f.customerId.Some? then {"customerId"} else {}) +
    (if f.businessId.Some? then {"businessId"} else {}) + (if f.restaurantId.Some? then {"restaurantId"} else {})
  }

  predicate PositiveSafe(id: int) {
    0 < id <= MAX_SAFE
  }

  predicate FilterError(f: Filters) {
    || (f.role.Some? && f.role.value !in CANCEL_ROLES)
    || (f.customerId.Some? && !IsUuid(f.customerId.value))
    || (f.customerId.Some? && f.role.Some? && f.role.value != "customer")
    || (f.businessId.Some? && !PositiveSafe(f.businessId.value))
    || (f.restaurantId.Some? && !PositiveSafe(f.restaurantId.value))
  }

  function TrimmedOption(s: Option<string>): Option<string> {
    if s.Some? then Some(Trimmed(s.value)) else None
  }

  function TrimmedAll(ss: seq<string>): (r: seq<string>)
    ensures |r| == |ss| && forall i :: 0 <= i < |ss| ==> r[i] == Trimmed(ss[i])
  {
    seq(|ss|, i requires 0 <= i < |ss| => Trimmed(ss[i]))
  }

  /** The canonical form of what comes in: trimmed, with the default period. */
  function Canonical(input: Input): Query {
    Query(Trimmed(input.metric), TrimmedAll(input.dimensions),
          input.filters.(role := TrimmedOption(input.filters.role),
                         customerId := TrimmedOption(input.filters.customerId)),
          if input.period.Some? then Trimmed(input.period.value) else "30d")
  }

  /** A query sent back in. */
  function AsInput(q: Query): Input {
    Input(q.metric, q.dimensions, q.filters, Some(q.period))
  }

  /** The dimensions, trimmed, in their order; none is one that is not allowed, or repeated. */
  method CheckDimensions(raw: seq<string>, allowed: set<string>) returns (checked: Option<seq<string>>)
    ensures checked.Some? <==> OnceAllowed(TrimmedAll(raw), allowed)
    ensures checked.Some? ==> checked.value == TrimmedAll(raw)
  {
    var dimensions: seq<string>, seen: set<string> := [], {};
    for i := 0 to |raw|
      invariant dimensions == TrimmedAll(raw)[..i] && seen == set d | d in dimensions
      invariant OnceAllowed(dimensions, allowed)
    {
      var name := Trimmed(raw[i]);
      assert TrimmedAll(raw)[i] == name;
      if name !in allowed {
        return None;
      }
      if name in seen {
        var j :| 0 <= j < i && dimensions[j] == name;
        assert TrimmedAll(raw)[j] == name;
        return None;
      }
      assert TrimmedAll(raw)[..i + 1] == dimensions + [name];
      seen := seen + {name};
      dimensions := dimensions + [name];
    }
    assert TrimmedAll(raw)[..|raw|] == TrimmedAll(raw);
    return Some(dimensions);
  }

  predicate OnceAllowed(dimensions: seq<string>, allowed: set<string>) {
    && (forall i :: 0 <= i < |dimensions| ==> dimensions[i] in allowed)
    && (forall j, k :: 0 <= j < k < |dimensions| ==> dimensions[j] != dimensions[k])
  }

  /** validateBuilderQuery: the canonical form, if the builder accepts it. */
  method Validate(input: Input) returns (r: Checked)
    ensures r.Valid? <==> Accepts(Canonical(input))
    ensures r.Valid? ==> r.q == Canonical(input)
  {
    hide IsBuilderMetric, Dimensions, FilterKeys, FilterError, KeysOf, Trimmed, OnceAllowed;
    var metric := Trimmed(input.metric);
    if !IsBuilderMetric(metric) {
      return Invalid("invalid_metric");
    }
    var dimensions := CheckDimensions(input.dimensions, Dimensions(metric));
    if dimensions == None {
      return Invalid("invalid_dimension");
    }
    SameKeys(input);
    if !(KeysOf(input.filters) <= FilterKeys(metric)) {
      return Invalid("invalid_filter");
    }
    var filters := Canonical(input).filters;
    if FilterError(filters) {
      return Invalid("invalid_filter");
    }
    if "role" in dimensions.value && (filters.role.Some? || filters.customerId.Some?) {
      return Invalid("invalid_filter");
    }
    var period := if input.period.Some? then Trimmed(input.period.value) else "30d";
    if period !in PERIODS {
      return Invalid("invalid_period");
    }
    return Valid(Query(metric, dimensions.value, filters, period));
  }

  lemma SameKeys(input: Input)
    ensures KeysOf(Canonical(input).filters) == KeysOf(input.filters)
  {
  }

  /** What the validator returns it accepts again, unchanged. */
  lemma CanonicalStays(input: Input)
    ensures Canonical(AsInput(Canonical(input))) == Canonical(input)
  {
    var q := Canonical(input);
    assert IsTrimmed("30d");
    assert TrimmedAll(q.dimensions) == q.dimensions;
  }

  predicate Accepts(q: Query) {
    && IsBuilderMetric(q.metric)
    && OnceAllowed(q.dimensions, Dimensions(q.metric))
    && KeysOf(q.filters) <= FilterKeys(q.metric) && !FilterError(q.filters)
    && !("role" in q.dimensions && (q.filters.role.Some? || q.filters.customerId.Some?))
    && q.period in PERIODS
  }

  // ---- the parser, once a single metric is recognised ----

  /** How the question refers to a restaurant or a business: not at all, by number, or by something else. */
  datatype Reference = Nothing | Number(n: nat) | Named

  /** What the patterns find in the normalised question; `dims` are the dimension patterns that match, in their
      order, and may repeat a dimension. */
  datatype Question = Question(
    metric: string, dims: seq<string>, restaurant: Reference, business: Reference, customer: bool, helper: bool,
    period: Option<string>)

  datatype Parsed = Compiled(q: Query) | Rejected(reason: string)

  function Once(dims: seq<string>): seq<string> {
    if dims == [] then []
    else
      var rest := Once(dims[..|dims| - 1]);
      var last := dims[|dims| - 1];
      if last in rest then rest else rest + [last]
  }

  function RoleOf(q: Question): Option<string> {
    if q.metric != CANCEL_RATE then None
    else if q.customer then Some("customer")
    else if q.helper then Some("helper")
    else None
  }

  function IdOf(r: Reference): Option<int> {
    if r.Number? then Some(r.n) else None
  }

  /** The parser with the dimensions it is told each metric has. */
  function Parse(q: Question, allow: string -> set<string>): Parsed {
    if exists d :: d in q.dims && d !in allow(q.metric) then Rejected("dimension not supported")
    else if q.restaurant.Named? then Rejected("restaurant name lookup not supported in v1")
    else if q.metric == CANCEL_RATE && q.customer && q.helper then Rejected("ambiguous role filter")
    else if q.metric in BUSINESS_METRICS && q.business.Named? then Rejected("business name lookup not supported in v1")
    else
      Compiled(Query(
        q.metric, Once(q.dims),
        Filters(RoleOf(q), None, if q.metric in BUSINESS_METRICS then IdOf(q.business) else None, IdOf(q.restaurant)),
        if q.period.Some? then q.period.value else "30d"))
  }

  lemma {:induction false} OnceEach(dims: seq<string>)
    ensures forall d :: d in Once(dims) <==> d in dims
    ensures forall j, k :: 0 <= j < k < |Once(dims)| ==> Once(dims)[j] != Once(dims)[k]
  {
    if dims != [] {
      OnceEach(dims[..|dims| - 1]);
      assert dims == dims[..|dims| - 1] + [dims[|dims| - 1]];
    }
  }

  /** The parser's own table, in three parts: the metrics of the platform, those of growth and demand, and those of
      business owners. */
  function ParserDimensions(metric: string): set<string> {
    match metric
    case "dispute_rate_pct" => {}
    case "job_completion_rate_pct" => {}
    case "refund_rate_pct" => {}
    case "payout_failure_count" => {}
    case "open_disputes" => {}
    case "platform_revenue_cents" => {"period"}
    case "investor_gmv_cents" => {}
    case "investor_take_rate_pct" => {}
    case "cancel_rate_pct" => {"role"}
    case "consulting_cancel_rate_pct" => {}
    case "sla_first_response_compliance_pct" => {"business"}
    case "support_nps_index" => {"business"}
    case "consulting_avg_nps" => {}
    case "mrr_cents" => {}
    case "escrow_held_cents" => {}
    case "promo_discount_cents" => {}
    case "restaurant_repeat_order_rate" => {"restaurant"}
    case "restaurant_top_items_revenue" => {"restaurant"}
    case _ => GrowthDimensions(metric)
  }

  function GrowthDimensions(metric: string): set<string> {
    match metric
    case "growth_campaign_recipients" => {}
    case "growth_offer_ctr_pct" => {}
    case "growth_offer_optout_rate_pct" => {}
    case "growth_push_open_rate_pct" => {}
    case "growth_affiliate_commission_cents" => {}
    case "growth_promo_redeemed_cents" => {}
    case "demand_unfilled_rate_pct" => {}
    case "demand_gap_index" => {}
    case _ => OwnerDimensions(metric)
  }

  /** Any name that is not in the table has no dimensions. */
  function OwnerDimensions(metric: string): set<string> {
    match metric
    case "business_invoice_revenue" => {"business"}
    case "business_job_payout_revenue" => {"business"}
    case "business_expense_total" => {"business"}
    case "business_job_stats_6m" => {"business"}
    case "business_invoice_outstanding" => {"business"}
    case _ => {}
  }

  predicate IsName(s: string) {
    s != "" && 'a' <= s[0] <= 'z' && 'a' <= s[|s| - 1] <= 'z'
  }

  lemma PlatformMetricsAreNames(name: string)
    requires name in PLATFORM_METRICS
    ensures IsName(name) && name[0] != 'b'
  {
  }

  lemma GrowthMetricsAreNames(name: string)
    requires name in GROWTH_METRICS
    ensures IsName(name) && name[0] != 'b'
  {
  }

  lemma OtherMetricsAreNames(name: string)
    requires name in BUSINESS_METRICS + RESTAURANT_METRICS + {REVENUE, CANCEL_RATE}
    ensures IsName(name) && name[0] != 'b'
  {
  }

  lemma WordsAreTrimmed(name: string)
    requires name in PERIODS + CANCEL_ROLES + {"period", "role", "business", "restaurant"}
    ensures IsTrimmed(name)
  {
  }

  lemma MetricsAreNames(metric: string)
    requires IsBuilderMetric(metric)
    ensures IsName(metric) && metric[0] != 'b'
  {
    if metric in PLATFORM_METRICS {
      PlatformMetricsAreNames(metric);
    } else if metric in GROWTH_METRICS {
      GrowthMetricsAreNames(metric);
    } else {
      OtherMetricsAreNames(metric);
    }
  }

  const OWNER_METRICS: set<string> := {
    "business_invoice_revenue", "business_job_payout_revenue", "business_expense_total", "business_job_stats_6m",
    "business_invoice_outstanding"}

  lemma OwnersMetricsStartWithB(metric: string)
    requires metric in OWNER_METRICS
    ensures metric != "" && metric[0] == 'b'
  {
  }

  lemma OwnersMetricsAreNotTheBuilders(metric: string)
    requires metric in OWNER_METRICS
    ensures !IsBuilderMetric(metric)
  {
    OwnersMetricsStartWithB(metric);
    hide IsBuilderMetric;
    if IsBuilderMetric(metric) { MetricsAreNames(metric); }
  }

  lemma PlatformSaysOfOthers(metric: string)
    requires metric !in PLATFORM_METRICS && metric != REVENUE && metric != CANCEL_RATE
    requires metric !in BUSINESS_METRICS && metric !in RESTAURANT_METRICS
    ensures ParserDimensions(metric) == GrowthDimensions(metric)
  {
    hide GrowthDimensions;
  }

  lemma GrowthSaysOfOthers(metric: string)
    requires metric !in GROWTH_METRICS
    ensures GrowthDimensions(metric) == OwnerDimensions(metric)
  {
    hide OwnerDimensions;
  }

  lemma ParserSaysOfOthers(metric: string)
    requires !IsBuilderMetric(metric)
    ensures ParserDimensions(metric) == OwnerDimensions(metric)
  {
    hide ParserDimensions, GrowthDimensions, OwnerDimensions;
    GrowthSaysOfOthers(metric);
    PlatformSaysOfOthers(metric);
  }

  lemma BuilderSaysOfOthers(metric: string)
    requires !IsBuilderMetric(metric)
    ensures Dimensions(metric) == {}
  {
  }

  lemma ParserSaysOfOwners(metric: string)
    ensures OwnerDimensions(metric) == if metric in OWNER_METRICS then {"business"} else {}
  {
  }

  lemma ParserSaysNothing(metric: string)
    requires metric in PLATFORM_METRICS + GROWTH_METRICS && Dimensions(metric) == {}
    ensures ParserDimensions(metric) == {}
  {
    if metric in GROWTH_METRICS { GrowthSaysNothing(metric); }
    hide OwnerDimensions, GrowthDimensions;
  }

  lemma GrowthSaysNothing(metric: string)
    requires metric in GROWTH_METRICS
    ensures GrowthDimensions(metric) == {}
  {
    hide OwnerDimensions;
  }

  lemma ParserSaysBusiness(metric: string)
    requires metric in BUSINESS_METRICS
    ensures ParserDimensions(metric) == {"business"} == Dimensions(metric)
  {
    hide GrowthDimensions;
  }

  lemma ParserSaysOther(metric: string)
    requires metric in RESTAURANT_METRICS + {REVENUE, CANCEL_RATE}
    ensures ParserDimensions(metric) == Dimensions(metric)
  {
    hide GrowthDimensions;
  }

  lemma BuilderSaysNothing(metric: string)
    requires metric in PLATFORM_METRICS + GROWTH_METRICS
    ensures Dimensions(metric) == {}
  {
  }

  /** The two tables, each as its file writes it, give a name the same dimensions if and only if it is not one of the
      five owners' metrics, which the parser lists and the builder does not have. */
  lemma TablesAgree(metric: string)
    ensures ParserDimensions(metric) == Dimensions(metric) <==> metric !in OWNER_METRICS
    ensures IsBuilderMetric(metric) ==> metric !in OWNER_METRICS
  {
    hide ParserDimensions, GrowthDimensions, OwnerDimensions, Dimensions;
    if metric in OWNER_METRICS { OwnersMetricsAreNotTheBuilders(metric); }
    if !IsBuilderMetric(metric) {
      ParserSaysOfOthers(metric);
      BuilderSaysOfOthers(metric);
      ParserSaysOfOwners(metric);
    } else if metric in BUSINESS_METRICS {
      ParserSaysBusiness(metric);
    } else if metric in RESTAURANT_METRICS + {REVENUE, CANCEL_RATE} {
      ParserSaysOther(metric);
    } else {
      BuilderSaysNothing(metric);
      ParserSaysNothing(metric);
    }
  }

  lemma NamesAreTrimmed(name: string)
    requires IsBuilderMetric(name) || name in PERIODS + CANCEL_ROLES + {"period", "role", "business", "restaurant"}
    ensures Trimmed(name) == name
  {
    hide Trimmed, IsBuilderMetric;
    if name in PERIODS + CANCEL_ROLES + {"period", "role", "business", "restaurant"} {
      WordsAreTrimmed(name);
    } else {
      MetricsAreNames(name);
      assert IsTrimmed(name);
    }
  }

  /** Everything the parser compiles passes the validator unchanged, whichever of the tables it is given, except for
      exactly these: a metric the builder does not have, an id that is not a positive safe integer, a restaurant
      named beside another kind of metric, and a role both asked for and broken down by. */
  lemma ParsedQueriesPassExactlyWhen(question: Question, allow: string -> set<string>)
    requires forall m :: IsBuilderMetric(m) ==> allow(m) == Dimensions(m)
    requires Parse(question, allow).Compiled? && IsTrimmed(question.metric)
    requires question.period.Some? ==> question.period.value in PERIODS
    ensures var q := Parse(question, allow).q;
      Accepts(Canonical(AsInput(q))) && Canonical(AsInput(q)) == q <==>
        && IsBuilderMetric(question.metric)
        && (question.restaurant.Number? ==>
              question.metric in RESTAURANT_METRICS && PositiveSafe(question.restaurant.n))
        && (question.metric in BUSINESS_METRICS && question.business.Number? ==> PositiveSafe(question.business.n))
        && !(question.metric == CANCEL_RATE && "role" in question.dims && (question.customer || question.helper))
  {
    var q := Parse(question, allow).q;
    OnceEach(question.dims);
    assert forall i :: 0 <= i < |q.dimensions| ==> q.dimensions[i] in question.dims;
    if IsBuilderMetric(question.metric) {
      CompiledIsCanonical(question, allow);
      AcceptedExactlyWhen(question, allow);
    }
  }

  lemma CompiledIsCanonical(question: Question, allow: string -> set<string>)
    requires IsBuilderMetric(question.metric) && allow(question.metric) == Dimensions(question.metric)
    requires Parse(question, allow).Compiled?
    requires question.period.Some? ==> question.period.value in PERIODS
    ensures var q := Parse(question, allow).q;
      Canonical(AsInput(q)) == q
  {
    hide IsBuilderMetric, Trimmed;
    var q := Parse(question, allow).q;
    OnceEach(question.dims);
    NamesAreTrimmed(q.metric);
    NamesAreTrimmed(q.period);
    if q.filters.role.Some? { NamesAreTrimmed(q.filters.role.value); }
    forall i | 0 <= i < |q.dimensions|
      ensures Trimmed(q.dimensions[i]) == q.dimensions[i]
    {
      assert q.dimensions[i] in question.dims;
      NamesAreTrimmed(q.dimensions[i]);
    }
    assert TrimmedAll(q.dimensions) == q.dimensions;
  }

  lemma AcceptedExactlyWhen(question: Question, allow: string -> set<string>)
    requires IsBuilderMetric(question.metric) && allow(question.metric) == Dimensions(question.metric)
    requires Parse(question, allow).Compiled?
    requires question.period.Some? ==> question.period.value in PERIODS
    ensures Accepts(Parse(question, allow).q) <==>
        && (question.restaurant.Number? ==>
              question.metric in RESTAURANT_METRICS && PositiveSafe(question.restaurant.n))
        && (question.metric in BUSINESS_METRICS && question.business.Number? ==> PositiveSafe(question.business.n))
        && !(question.metric == CANCEL_RATE && "role" in question.dims && (question.customer || question.helper))
  {
    var q := Parse(question, allow).q;
    OnceEach(question.dims);
    assert forall i :: 0 <= i < |q.dimensions| ==> q.dimensions[i] in question.dims;
    assert "role" in q.dimensions <==> "role" in question.dims;
    hide Once;
    assert "businessId" in KeysOf(q.filters) <==> q.filters.businessId.Some?;
    assert "restaurantId" in KeysOf(q.filters) <==> q.filters.restaurantId.Some?;
    assert "role" in KeysOf(q.filters) <==> q.filters.role.Some?;
    DifferentTables(question.metric);
  }

  lemma DifferentTables(metric: string)
    ensures metric in BUSINESS_METRICS ==> metric !in RESTAURANT_METRICS && metric != CANCEL_RATE
    ensures metric in RESTAURANT_METRICS ==> metric != CANCEL_RATE
    ensures metric in BUSINESS_METRICS + RESTAURANT_METRICS + {CANCEL_RATE} ==> metric != REVENUE
  {
  }
}
