/** Which builder queries pass the validator, metric by metric, and which questions the parser compiles. */
module QueryForms {
  import opened Options
  import opened QuestionQuery
  import opened Text

  predicate NoFilters(f: Filters) {
    f == Filters(None, None, None, None)
  }

  predicate PositiveId(id: Option<int>) {
    id == None || 1 <= id.value <= 9007199254740991
  }

  /** A cancellation rate may be asked for one cohort, or for one customer as a customer, or broken down by role. */
  predicate CohortPasses(dimensions: seq<string>, role: Option<string>, customer: Option<string>) {
    && (role == None || role.value == "customer" || role.value == "helper" || role.value == "platform")
    && (customer == None || (IsUuid(customer.value) && (role == None || role.value == "customer")))
    && (dimensions == [] || (dimensions == ["role"] && role == None && customer == None))
  }

  predicate OneOf(dimensions: seq<string>, d: string) {
    dimensions == [] || dimensions == [d]
  }

  predicate PassesForm(q: Query) {
    if q.metric == "cancel_rate_pct" then
      && CohortPasses(q.dimensions, q.filters.role, q.filters.customerId)
      && q.filters.businessId == None && q.filters.restaurantId == None
    else if q.metric == "sla_first_response_compliance_pct" || q.metric == "support_nps_index" then
      OneOf(q.dimensions, "business") && NoFilters(q.filters.(businessId := None)) && PositiveId(q.filters.businessId)
    else if q.metric == "restaurant_repeat_order_rate" || q.metric == "restaurant_top_items_revenue" then
      && OneOf(q.dimensions, "restaurant") && NoFilters(q.filters.(restaurantId := None))
      && PositiveId(q.filters.restaurantId)
    else if q.metric == "platform_revenue_cents" then OneOf(q.dimensions, "period") && NoFilters(q.filters)
    else q.dimensions == [] && NoFilters(q.filters)
  }

  predicate IsPeriod(p: string) {
    p == "1d" || p == "7d" || p == "30d" || p == "90d" || p == "1y"
  }

  lemma {:induction false} OneAllowed(dimensions: seq<string>, d: string)
    ensures OnceAllowed(dimensions, {d}) <==> OneOf(dimensions, d)
  {
    if |dimensions| > 1 {
      assert dimensions[0] in {d} && dimensions[1] in {d} ==> dimensions[0] == dimensions[1];
    }
  }

  lemma {:induction false} NoneAllowed(dimensions: seq<string>)
    ensures OnceAllowed(dimensions, {}) <==> dimensions == []
  {
    var nothing: set<string> := {};
    assert dimensions != [] ==> dimensions[0] !in nothing;
  }

  lemma {:induction false} KeysWithin(f: Filters)
    ensures KeysOf(f) <= {} <==> NoFilters(f)
    ensures KeysOf(f) <= {"businessId"} <==> NoFilters(f.(businessId := None))
    ensures KeysOf(f) <= {"restaurantId"} <==> NoFilters(f.(restaurantId := None))
    ensures KeysOf(f) <= {"role", "customerId"} <==> f.businessId == None && f.restaurantId == None
  {
    assert f.role.Some? ==> "role" in KeysOf(f);
    assert f.customerId.Some? ==> "customerId" in KeysOf(f);
    assert f.businessId.Some? ==> "businessId" in KeysOf(f);
    assert f.restaurantId.Some? ==> "restaurantId" in KeysOf(f);
  }

  /** What is allowed of each kind of metric. */
  lemma {:induction false} TablesSpelled(metric: string)
    ensures (Dimensions(metric), FilterKeys(metric)) ==
      if metric == "cancel_rate_pct" then ({"role"}, {"role", "customerId"})
      else if metric == "sla_first_response_compliance_pct" || metric == "support_nps_index" then
        ({"business"}, {"businessId"})
      else if metric == "restaurant_repeat_order_rate" || metric == "restaurant_top_items_revenue" then
        ({"restaurant"}, {"restaurantId"})
      else if metric == "platform_revenue_cents" then ({"period"}, {})
      else ({}, {})
  {
    DifferentTables(metric);
  }

  lemma {:induction false} FilterErrors(f: Filters)
    ensures !FilterError(f) <==>
      && CohortPasses([], f.role, f.customerId) && PositiveId(f.businessId) && PositiveId(f.restaurantId)
  {
  }

  lemma {:induction false} CohortsPass(dimensions: seq<string>, role: Option<string>, customer: Option<string>)
    ensures OneOf(dimensions, "role") ==>
      (CohortPasses(dimensions, role, customer) <==>
        CohortPasses([], role, customer) && !("role" in dimensions && (role.Some? || customer.Some?)))
    ensures CohortPasses(dimensions, role, customer) ==> OneOf(dimensions, "role")
    ensures OneOf(dimensions, "period") || OneOf(dimensions, "business") || OneOf(dimensions, "restaurant") ==>
      "role" !in dimensions
    ensures CohortPasses([], None, None)
  {
  }

  lemma {:induction false} PeriodsSpelled(p: string)
    ensures p in PERIODS <==> IsPeriod(p)
  {
  }

  /** EXACT. Which canonical queries the validator accepts, spelled out for each kind of metric. */
  lemma {:induction false} AcceptsExactly(q: Query)
    ensures Accepts(q) <==> IsBuilderMetric(q.metric) && IsPeriod(q.period) && PassesForm(q)
  {
    hide IsBuilderMetric, Dimensions, FilterKeys, FilterError, KeysOf, OnceAllowed, OneOf, CohortPasses, IsPeriod;
    TablesSpelled(q.metric);
    PeriodsSpelled(q.period);
    OneAllowed(q.dimensions, "role");
    OneAllowed(q.dimensions, "business");
    OneAllowed(q.dimensions, "restaurant");
    OneAllowed(q.dimensions, "period");
    NoneAllowed(q.dimensions);
    KeysWithin(q.filters);
    FilterErrors(q.filters);
    CohortsPass(q.dimensions, q.filters.role, q.filters.customerId);
  }

  /** What the validator looks at and returns is what came in, without the blanks around it. */
  lemma {:induction false} CanonicalStrips(input: Input, i: nat)
    ensures var q := Canonical(input);
      && StripsTo(input.metric, q.metric)
      && |q.dimensions| == |input.dimensions|
      && (i < |q.dimensions| ==> StripsTo(input.dimensions[i], q.dimensions[i]))
      && (q.filters.role.Some? <==> input.filters.role.Some?)
      && (q.filters.role.Some? ==> StripsTo(input.filters.role.value, q.filters.role.value))
      && (q.filters.customerId.Some? <==> input.filters.customerId.Some?)
      && (q.filters.customerId.Some? ==> StripsTo(input.filters.customerId.value, q.filters.customerId.value))
      && q.filters.businessId == input.filters.businessId && q.filters.restaurantId == input.filters.restaurantId
      && (if input.period == None then q.period == "30d" else StripsTo(input.period.value, q.period))
  {
    hide StripsTo;
    TrimmedStrips(input.metric);
    if i < |input.dimensions| { TrimmedStrips(input.dimensions[i]); }
    if input.filters.role.Some? { TrimmedStrips(input.filters.role.value); }
    if input.filters.customerId.Some? { TrimmedStrips(input.filters.customerId.value); }
    if input.period.Some? { TrimmedStrips(input.period.value); }
  }

  // ---- which questions are compiled, and to what ----

  /** EXACT. A question about one metric is compiled unless it breaks down by what the metric does not have, names a
      restaurant or, for a business metric, a business, or asks a cancellation rate of customers and helpers both. */
  lemma {:induction false} CompilesExactly(q: Question, allow: string -> set<string>)
    ensures Parse(q, allow).Compiled? <==>
      && (forall d :: d in q.dims ==> d in allow(q.metric))
      && q.restaurant != Named
      && !(q.metric == "cancel_rate_pct" && q.customer && q.helper)
      && (q.business == Named ==> q.metric != "sla_first_response_compliance_pct" && q.metric != "support_nps_index")
  {
  }

  /** What a compiled question asks: its metric, each dimension once, the cohort for cancellation rates only, the
      business for business metrics only, the restaurant, and the period or the last thirty days. */
  lemma {:induction false} CompiledMeans(question: Question, allow: string -> set<string>)
    requires Parse(question, allow).Compiled?
    ensures var q := Parse(question, allow).q;
      && q.metric == question.metric
      && (forall d :: d in q.dimensions <==> d in question.dims)
      && (forall j, k :: 0 <= j < k < |q.dimensions| ==> q.dimensions[j] != q.dimensions[k])
      && (q.filters.role == Some("customer") <==> q.metric == "cancel_rate_pct" && question.customer)
      && (q.filters.role == Some("helper") <==> q.metric == "cancel_rate_pct" && question.helper)
      && (q.filters.role == None <==> q.metric == "cancel_rate_pct" ==> !question.customer && !question.helper)
      && q.filters.customerId == None
      && (q.filters.restaurantId.Some? <==> question.restaurant.Number?)
      && (question.restaurant.Number? ==> q.filters.restaurantId == Some(question.restaurant.n))
      && (q.filters.businessId.Some? <==>
            question.business.Number?
            && (q.metric == "sla_first_response_compliance_pct" || q.metric == "support_nps_index"))
      && (q.filters.businessId.Some? ==> q.filters.businessId == Some(question.business.n))
      && q.period == if question.period == None then "30d" else question.period.value
  {
    OnceEach(question.dims);
    assert "customer" != "helper";
    hide Once;
  }
}
