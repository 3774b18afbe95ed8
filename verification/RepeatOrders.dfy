/** Repeat orders of a restaurant: the query builder's join, the restaurant's own page and the window count of the
    evidence are three ways to count the same orders. */
module RepeatOrders {
  import opened Options
  import opened Rows
  import opened Sequences

  datatype Order = Order(
    id: nat, restaurant: nat, location: Option<nat>, customer: Option<string>, payment: string, status: string, at: int)

  predicate PaidOrder(o: Order) {
    o.payment == "paid" && o.status != "cancelled" && o.status != "refunded"
  }

  function IdentifiedOrders(orders: seq<Order>, from: int, now: int): seq<Order> {
    Where(orders, (o: Order) => PaidOrder(o) && o.customer.Some? && from <= o.at < now)
  }

  function OrdersOf(s: seq<Order>, restaurant: nat, customer: Option<string>): nat {
    |Where(s, (o: Order) => o.restaurant == restaurant && o.customer == customer)|
  }

  datatype Figures = Figures(total: nat, repeats: nat)

  // ---- the query builder: two left joins ----

  datatype CustomerOrders = CustomerOrders(restaurant: nat, customer: Option<string>, n: nat)

  predicate SameCustomer(o: Order, g: CustomerOrders) {
    g.restaurant == o.restaurant && g.customer == o.customer
  }

  /** GROUP BY restaurant and customer, the groups in any order. */
  ghost predicate IsGrouped(s: seq<Order>, groups: seq<CustomerOrders>) {
    && (forall g :: g in groups ==> g.n == OrdersOf(s, g.restaurant, g.customer))
    && (forall o :: o in s ==> exists g :: g in groups && SameCustomer(o, g))
    && (forall i, k :: 0 <= i < k < |groups| ==>
          groups[i].restaurant != groups[k].restaurant || groups[i].customer != groups[k].customer)
  }

  type WithOrder = (nat, Option<Order>)
  type Joined = (WithOrder, Option<CustomerOrders>)

  predicate OfRestaurant(r: nat, o: Order) {
    o.restaurant == r
  }

  predicate OfCustomer(p: WithOrder, g: CustomerOrders) {
    p.1.Some? && SameCustomer(p.1.value, g)
  }

  function JoinedRows(restaurants: seq<nat>, s: seq<Order>, groups: seq<CustomerOrders>): seq<Joined> {
    LeftJoin(LeftJoin(restaurants, s, OfRestaurant), groups, OfCustomer)
  }

  predicate CountsOrder(p: Joined, r: nat) {
    p.0.0 == r && p.0.1.Some?
  }

  predicate CountsRepeat(p: Joined, r: nat) {
    CountsOrder(p, r) && p.1.Some? && p.1.value.n > 1
  }

  /** The row of restaurant `r`: COUNT(i.id), and COUNT(i.id) FILTER (WHERE co.n > 1). */
  function BuilderRow(restaurants: seq<nat>, s: seq<Order>, groups: seq<CustomerOrders>, r: nat): Figures {
    Figures(|Where(JoinedRows(restaurants, s, groups), p => CountsOrder(p, r))|,
            |Where(JoinedRows(restaurants, s, groups), p => CountsRepeat(p, r))|)
  }

  // ---- the restaurant's own page: membership in the repeat customers ----

  /** Staff assigned to some locations see the orders of those, an order without a location never being one; none is
      no such limit. */
  predicate AtLocation(o: Order, locations: Option<set<nat>>) {
    locations.Some? ==> o.location.Some? && o.location.value in locations.value
  }

  function InCohort(r: nat, from: int, to: int, locations: Option<set<nat>>): Order -> bool {
    (o: Order) => o.restaurant == r && from <= o.at <= to && PaidOrder(o) && AtLocation(o, locations)
  }

  function PageCohort(orders: seq<Order>, r: nat, from: int, to: int, locations: Option<set<nat>>): seq<Order> {
    Where(orders, InCohort(r, from, to, locations))
  }

  function PageIdentified(orders: seq<Order>, r: nat, from: int, to: int, locations: Option<set<nat>>): seq<Order> {
    Where(PageCohort(orders, r, from, to, locations), (o: Order) => o.customer.Some?)
  }

  function CountOf(s: seq<Order>, customer: Option<string>): nat {
    |Where(s, (o: Order) => o.customer == customer)|
  }

  ghost function RepeatCustomers(s: seq<Order>): set<Option<string>> {
    set o | o in s && CountOf(s, o.customer) > 1 :: o.customer
  }

  ghost function PageFigures(s: seq<Order>): Figures {
    Figures(|s|, |Where(s, (o: Order) => o.customer in RepeatCustomers(s))|)
  }

  // ---- the evidence: one record an order, with a window count ----

  datatype Line = Line(order: nat, restaurant: nat, customer: Option<string>, customerOrders: nat)

  function LineOf(s: seq<Order>, o: Order): Line {
    Line(o.id, o.restaurant, o.customer, OrdersOf(s, o.restaurant, o.customer))
  }

  function EvidenceLines(s: seq<Order>): seq<Line> {
    Select(s, o => LineOf(s, o))
  }

  function EvidenceFigures(shown: seq<Line>, r: nat): Figures {
    Figures(|Where(shown, (x: Line) => x.restaurant == r)|,
            |Where(shown, (x: Line) => x.restaurant == r && x.customerOrders > 1)|)
  }

  // ---- the three agree ----

  /** What an identified order adds to the repeat orders of `r`. */
  function RepeatOne(s: seq<Order>, r: nat, o: Order): int {
    One(o.restaurant == r && OrdersOf(s, r, o.customer) > 1)
  }

  function OrderOne(r: nat, o: Order): int {
    One(o.restaurant == r)
  }

  /** A figure over the joined rows is the same figure over the orders: no order is joined twice. */
  lemma JoinedTotal(
    restaurants: seq<nat>, s: seq<Order>, groups: seq<CustomerOrders>, r: nat, f: Joined -> int, g: Order -> int)
    requires IsGrouped(s, groups) && r in restaurants && Distinct(restaurants)
    requires forall p: Joined :: !CountsOrder(p, r) ==> f(p) == 0
    requires forall o, k :: o in s && o.restaurant == r && k in groups && SameCustomer(o, k) ==>
      f(((r, Some(o)), Some(k))) == g(o)
    requires forall o: Order :: o.restaurant != r ==> g(o) == 0
    ensures Sum(JoinedRows(restaurants, s, groups), f) == Sum(s, g)
  {
    var rows1 := LeftJoin(restaurants, s, OfRestaurant);
    var f1 := (p: WithOrder) => if p.0 == r && p.1.Some? && p.1.value.restaurant == r then g(p.1.value) else 0;
    assert Sum(JoinedRows(restaurants, s, groups), f) == Sum(rows1, f1) by {
      SecondJoin(restaurants, s, groups, r, f, g, f1);
    }
    FirstJoin(restaurants, s, r, f1, g);
  }

  lemma SecondJoin(
    restaurants: seq<nat>, s: seq<Order>, groups: seq<CustomerOrders>, r: nat, f: Joined -> int, g: Order -> int,
    f1: WithOrder -> int)
    requires IsGrouped(s, groups)
    requires forall p: Joined :: !CountsOrder(p, r) ==> f(p) == 0
    requires forall o, k :: o in s && o.restaurant == r && k in groups && SameCustomer(o, k) ==>
      f(((r, Some(o)), Some(k))) == g(o)
    requires forall p: WithOrder ::
      f1(p) == if p.0 == r && p.1.Some? && p.1.value.restaurant == r then g(p.1.value) else 0
    ensures Sum(JoinedRows(restaurants, s, groups), f) == Sum(LeftJoin(restaurants, s, OfRestaurant), f1)
  {
    var rows1 := LeftJoin(restaurants, s, OfRestaurant);
    var cell := (p: WithOrder) => (k: CustomerOrders) => if OfCustomer(p, k) then f((p, Some(k))) else 0;
    LeftJoinMembers(restaurants, s, OfRestaurant);
    forall p | p in rows1
      ensures (exists k :: k in groups && OfCustomer(p, k)) ==> f1(p) == Sum(groups, cell(p))
      ensures !(exists k :: k in groups && OfCustomer(p, k)) ==> f1(p) == f((p, None))
    {
      if k :| k in groups && OfCustomer(p, k) {
        var i :| 0 <= i < |groups| && groups[i] == k;
        SumOfOnly(groups, i, cell(p));
      }
    }
    SumLeftJoin(rows1, groups, OfCustomer, f, cell, f1);
  }

  lemma FirstJoin(restaurants: seq<nat>, s: seq<Order>, r: nat, f1: WithOrder -> int, g: Order -> int)
    requires r in restaurants && Distinct(restaurants)
    requires forall p: WithOrder ::
      f1(p) == if p.0 == r && p.1.Some? && p.1.value.restaurant == r then g(p.1.value) else 0
    requires forall o: Order :: o.restaurant != r ==> g(o) == 0
    ensures Sum(LeftJoin(restaurants, s, OfRestaurant), f1) == Sum(s, g)
  {
    var cell := (q: nat) => (o: Order) => if OfRestaurant(q, o) then f1((q, Some(o))) else 0;
    var rows := (q: nat) => Sum(s, cell(q));
    forall q | q in restaurants
      ensures !(exists o :: o in s && OfRestaurant(q, o)) ==> rows(q) == 0
      ensures q != r ==> rows(q) == 0
    {
      if q != r || !(exists o :: o in s && OfRestaurant(q, o)) {
        SumOfZeros(s, cell(q));
      }
    }
    SumLeftJoin(restaurants, s, OfRestaurant, f1, cell, rows);
    var i :| 0 <= i < |restaurants| && restaurants[i] == r;
    SumOfOnly(restaurants, i, rows);
    SumEq(s, cell(r), g);
  }

  lemma GroupSizes(s: seq<Order>, groups: seq<CustomerOrders>)
    requires IsGrouped(s, groups)
    ensures forall k :: k in groups ==> k.n == OrdersOf(s, k.restaurant, k.customer)
  {
  }

  /** The builder counts the identified orders of the restaurant, and those of customers with more than one. */
  lemma BuilderCounts(
    restaurants: seq<nat>, s: seq<Order>, groups: seq<CustomerOrders>, r: nat, total: Order -> int,
    repeats: Order -> int)
    requires IsGrouped(s, groups) && r in restaurants && Distinct(restaurants)
    requires forall o :: total(o) == OrderOne(r, o) && repeats(o) == RepeatOne(s, r, o)
    ensures BuilderRow(restaurants, s, groups, r).total == Sum(s, total)
    ensures BuilderRow(restaurants, s, groups, r).repeats == Sum(s, repeats)
  {
    var orderOf := (p: Joined) => One(CountsOrder(p, r));
    var repeatOf := (p: Joined) => One(CountsRepeat(p, r));
    CountIsSum(JoinedRows(restaurants, s, groups), p => CountsOrder(p, r), orderOf);
    CountIsSum(JoinedRows(restaurants, s, groups), p => CountsRepeat(p, r), repeatOf);
    hide JoinedRows, OrdersOf, IsGrouped;
    JoinedTotal(restaurants, s, groups, r, orderOf, total);
    GroupSizes(s, groups);
    JoinedTotal(restaurants, s, groups, r, repeatOf, repeats);
  }

  /** Counting the evidence gives the same two numbers, in whatever order it is listed. */
  lemma EvidenceCounts(s: seq<Order>, shown: seq<Line>, r: nat, total: Order -> int, repeats: Order -> int)
    requires multiset(shown) == multiset(EvidenceLines(s))
    requires forall o :: total(o) == OrderOne(r, o) && repeats(o) == RepeatOne(s, r, o)
    ensures EvidenceFigures(shown, r).total == Sum(s, total)
    ensures EvidenceFigures(shown, r).repeats == Sum(s, repeats)
  {
    var lineOf := (x: Line) => One(x.restaurant == r);
    var repeatOf := (x: Line) => One(x.restaurant == r && x.customerOrders > 1);
    CountIsSum(shown, (x: Line) => x.restaurant == r, lineOf);
    CountIsSum(shown, (x: Line) => x.restaurant == r && x.customerOrders > 1, repeatOf);
    SumPermutes(shown, EvidenceLines(s), lineOf);
    SumPermutes(shown, EvidenceLines(s), repeatOf);
    SumSelect(s, o => LineOf(s, o), lineOf, total);
    SumSelect(s, o => LineOf(s, o), repeatOf, repeats);
  }

  // ---- the restaurant's own page ----

  predicate AtTheEnd(o: Order, r: nat, to: int) {
    o.restaurant == r && PaidOrder(o) && o.customer.Some? && o.at == to
  }

  /** The page's window is closed at its end and the builder's is not. */
  lemma PageSelection(orders: seq<Order>, r: nat, from: int, to: int)
    requires from <= to
    ensures |PageIdentified(orders, r, from, to, None)|
         == Sum(IdentifiedOrders(orders, from, to), o => OrderOne(r, o)) + |Where(orders, o => AtTheEnd(o, r, to))|
  {
    var page := (o: Order) => One(o.restaurant == r && from <= o.at <= to && PaidOrder(o) && o.customer.Some?);
    var listed := (o: Order) => if o.customer.Some? then 1 else 0;
    var inside := (o: Order) => if PaidOrder(o) && o.customer.Some? && from <= o.at < to then OrderOne(r, o) else 0;
    var last := (o: Order) => One(AtTheEnd(o, r, to));
    SizeIsSum(PageIdentified(orders, r, from, to, None), (o: Order) => 1);
    SumWhere(PageCohort(orders, r, from, to, None), (o: Order) => o.customer.Some?, (o: Order) => 1, listed);
    SumWhere(orders, InCohort(r, from, to, None), listed, page);
    SumWhere(orders, (o: Order) => PaidOrder(o) && o.customer.Some? && from <= o.at < to, o => OrderOne(r, o), inside);
    CountIsSum(orders, o => AtTheEnd(o, r, to), last);
    SumPlus(orders, inside, last, page);
  }

  function AtRestaurant(s: seq<Order>, r: nat): seq<Order> {
    Where(s, (o: Order) => o.restaurant == r)
  }

  lemma SameIdentified(orders: seq<Order>, r: nat, from: int, to: int)
    requires forall o :: o in orders ==> !AtTheEnd(o, r, to)
    ensures PageIdentified(orders, r, from, to, None) == AtRestaurant(IdentifiedOrders(orders, from, to), r)
  {
    var both := (o: Order) => o.restaurant == r && from <= o.at <= to && PaidOrder(o) && o.customer.Some?;
    WhereTwice(orders, InCohort(r, from, to, None), (o: Order) => o.customer.Some?, both);
    WhereTwice(orders, (o: Order) => PaidOrder(o) && o.customer.Some? && from <= o.at < to,
               (o: Order) => o.restaurant == r, both);
  }

  lemma CountAtRestaurant(s: seq<Order>, r: nat, customer: Option<string>)
    ensures CountOf(AtRestaurant(s, r), customer) == OrdersOf(s, r, customer)
  {
    WhereTwice(s, (o: Order) => o.restaurant == r, (o: Order) => o.customer == customer,
               (o: Order) => o.restaurant == r && o.customer == customer);
  }

  lemma PageCounts(s: seq<Order>, r: nat, repeats: Order -> int)
    requires forall o :: repeats(o) == RepeatOne(s, r, o)
    ensures PageFigures(AtRestaurant(s, r)).repeats == Sum(s, repeats)
  {
    var t := AtRestaurant(s, r);
    WhereMembers(s, (o: Order) => o.restaurant == r);
    var more := (o: Order) => OrdersOf(s, r, o.customer) > 1;
    forall o | o in t
      ensures (o.customer in RepeatCustomers(t)) == more(o)
    {
      CountAtRestaurant(s, r, o.customer);
    }
    SameSelection(t, (o: Order) => o.customer in RepeatCustomers(t), more);
    var one := (o: Order) => One(more(o));
    CountIsSum(t, more, one);
    SumWhere(s, (o: Order) => o.restaurant == r, one, repeats);
  }

  lemma OrdersOfCustomers(t: seq<Order>, keys: set<Option<string>>, p: Order -> bool)
    requires forall o: Order :: p(o) == (o.customer in keys)
    ensures SumOver(keys, c => CountOf(t, c)) == |Where(t, p)|
  {
    var key := (o: Order) => o.customer;
    var one := (o: Order) => 1;
    var part := (c: Option<string>) => (o: Order) => One(o.customer == c);
    var group := c => CountOf(t, c);
    var total := (o: Order) => One(p(o));
    forall c
      ensures group(c) == Sum(t, part(c))
    {
      CountIsSum(t, (o: Order) => o.customer == c, part(c));
    }
    GroupsAddUp(t, key, keys, one, part, group, total);
    CountIsSum(t, p, total);
  }

  /** Each repeat customer has at least two of the repeat orders. */
  lemma RepeatBounds(t: seq<Order>)
    ensures 2 * |RepeatCustomers(t)| <= PageFigures(t).repeats <= PageFigures(t).total
  {
    var keys := RepeatCustomers(t);
    var p := (o: Order) => o.customer in RepeatCustomers(t);
    OrdersOfCustomers(t, keys, p);
    SumOverAtLeast(keys, c => CountOf(t, c), 2);
    WhereKeepsAll(t, p);
  }

  function AtLocations(orders: seq<Order>, locations: Option<set<nat>>): seq<Order> {
    Where(orders, o => AtLocation(o, locations))
  }

  /** Limiting the page to locations is the page of the orders at those locations. */
  lemma PageAtLocations(orders: seq<Order>, r: nat, from: int, to: int, locations: Option<set<nat>>)
    ensures PageIdentified(orders, r, from, to, locations)
         == PageIdentified(AtLocations(orders, locations), r, from, to, None)
  {
    WhereTwice(orders, o => AtLocation(o, locations), InCohort(r, from, to, None), InCohort(r, from, to, locations));
  }

  /** The builder and the evidence always agree. On the orders at the page's locations, which are all when it has no
      limit, the page agrees with them exactly when no identified order of the restaurant falls on the end of the
      window, which only the page includes. */
  lemma ThreeDefinitionsAgree(
    orders: seq<Order>, restaurants: seq<nat>, groups: seq<CustomerOrders>, shown: seq<Line>, r: nat, from: int,
    to: int, locations: Option<set<nat>>)
    requires from <= to && r in restaurants && Distinct(restaurants)
    requires IsGrouped(IdentifiedOrders(AtLocations(orders, locations), from, to), groups)
    requires multiset(shown) == multiset(EvidenceLines(IdentifiedOrders(AtLocations(orders, locations), from, to)))
    ensures var local := AtLocations(orders, locations);
      var builder := BuilderRow(restaurants, IdentifiedOrders(local, from, to), groups, r);
      && builder == EvidenceFigures(shown, r)
      && (PageFigures(PageIdentified(orders, r, from, to, locations)) == builder
          <==> forall o :: o in local ==> !AtTheEnd(o, r, to))
    ensures locations == None ==> AtLocations(orders, locations) == orders
  {
    var local := AtLocations(orders, locations);
    var s := IdentifiedOrders(local, from, to);
    var total := o => OrderOne(r, o);
    var repeats := o => RepeatOne(s, r, o);
    BuilderCounts(restaurants, s, groups, r, total, repeats);
    EvidenceCounts(s, shown, r, total, repeats);
    PageAtLocations(orders, r, from, to, locations);
    PageSelection(local, r, from, to);
    WhereMembers(local, o => AtTheEnd(o, r, to));
    var last := Where(local, o => AtTheEnd(o, r, to));
    if last == [] {
      SameIdentified(local, r, from, to);
      PageCounts(s, r, repeats);
    } else {
      assert last[0] in last;
    }
    if locations == None { WhereAll(orders, o => AtLocation(o, locations)); }
  }

  /** It happens: an order at the very end of the window is on the page and not in the builder's figure. */
  lemma OrderAtTheEndShows()
    ensures var orders := [Order(1, 7, None, Some("ana"), "paid", "delivered", 100)];
      var page := PageFigures(PageIdentified(orders, 7, 0, 100, None));
      page != BuilderRow([7], IdentifiedOrders(orders, 0, 100), [], 7)
  {
    var orders := [Order(1, 7, None, Some("ana"), "paid", "delivered", 100)];
    WhereAll(orders, o => AtLocation(o, None));
    var s := IdentifiedOrders(orders, 0, 100);
    assert s == [];
    assert AtTheEnd(orders[0], 7, 100);
    ThreeDefinitionsAgree(orders, [7], [], EvidenceLines(s), 7, 0, 100, None);
  }

  // ---- which orders count ----

  /** An order counts if it is paid, was neither cancelled nor refunded, has a customer and falls in the window; the
      page counts orders at the window's end too, and limits a member of the staff to the assigned locations. */
  lemma OrderOneMore(o: Order, orders: seq<Order>, r: nat, from: int, to: int, locations: Option<set<nat>>)
    ensures var counts := o.payment == "paid" && o.status !in {"cancelled", "refunded"} && from <= o.at;
      var placed := locations == None || (o.location.Some? && o.location.value in locations.value);
      var identified, page := IdentifiedOrders(orders, from, to), PageCohort(orders, r, from, to, locations);
      var named := PageIdentified(orders, r, from, to, locations);
      && IdentifiedOrders([o] + orders, from, to)
         == (if counts && o.customer != None && o.at < to then [o] + identified else identified)
      && PageCohort([o] + orders, r, from, to, locations)
         == (if counts && o.restaurant == r && o.at <= to && placed then [o] + page else page)
      && PageIdentified([o] + orders, r, from, to, locations)
         == if counts && o.restaurant == r && o.at <= to && placed && o.customer != None then [o] + named else named
  {
    WhereOneMore(o, orders, (o: Order) => PaidOrder(o) && o.customer.Some? && from <= o.at < to);
    WhereOneMore(o, orders, InCohort(r, from, to, locations));
    WhereOneMore(o, PageCohort(orders, r, from, to, locations), (o: Order) => o.customer.Some?);
  }

  /** Orders can always be grouped. */
  lemma GroupingExists(s: seq<Order>)
    ensures exists groups :: IsGrouped(s, groups)
  {
    var keys := KeysOf(s);
    var groups := seq(|keys|, i requires 0 <= i < |keys| =>
      CustomerOrders(keys[i].0, keys[i].1, OrdersOf(s, keys[i].0, keys[i].1)));
    forall o | o in s
      ensures exists g :: g in groups && SameCustomer(o, g)
    {
      var i :| 0 <= i < |keys| && keys[i] == (o.restaurant, o.customer);
      assert groups[i] in groups && SameCustomer(o, groups[i]);
    }
    assert IsGrouped(s, groups);
  }

  lemma {:induction false} KeysOf(s: seq<Order>) returns (keys: seq<(nat, Option<string>)>)
    ensures Distinct(keys)
    ensures forall o :: o in s ==> (o.restaurant, o.customer) in keys
  {
    keys := [];
    if s != [] {
      keys := KeysOf(s[1..]);
      var key := (s[0].restaurant, s[0].customer);
      if key !in keys { keys := keys + [key]; }
    }
  }
}
