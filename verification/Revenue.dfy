/** Platform revenue: the figure per currency, its time series, and the buckets an investor sees, of which the
    small ones are withheld. */
module Revenue {
  import opened Evidence
  import opened Rows
  import opened Text

  const MIN_CELL := 3

  predicate IsRevenue(l: Entry, from: int, now: int) {
    (l.source == "job_fee" || l.source == "subscription") && l.cents > 0 && from <= l.at < now
  }

  /** The figure of one currency. */
  function RevenueFigure(ledger: seq<Entry>, from: int, now: int, c: string): int {
    Sum(Where(Where(ledger, l => IsRevenue(l, from, now)), (l: Entry) => Upper(l.currency) == c), (l: Entry) => l.cents)
  }

  /** The figure of one currency in one bucket of the time series. */
  function RevenueIn(ledger: seq<Entry>, from: int, now: int, trunc: int -> int, t: int, c: string): int {
    Sum(Where(Where(ledger, l => IsRevenue(l, from, now)), (l: Entry) => trunc(l.at) == t && Upper(l.currency) == c),
        (l: Entry) => l.cents)
  }

  function Shout(l: Entry): Entry {
    l.(currency := Upper(l.currency))
  }

  /** The records beneath the figure. */
  function RevenueLines(ledger: seq<Entry>, from: int, now: int): seq<Entry> {
    Select(Where(ledger, l => IsRevenue(l, from, now)), Shout)
  }

  // ---- the buckets ----

  datatype Cell = Cell(bucket: int, currency: string, source: string)

  function CellOf(l: Entry, trunc: int -> int): Cell {
    Cell(trunc(l.at), l.currency, l.source)
  }

  function CellRows(shown: seq<Entry>, trunc: int -> int, k: Cell): seq<Entry> {
    Where(shown, l => CellOf(l, trunc) == k)
  }

  function CellCents(shown: seq<Entry>, trunc: int -> int, k: Cell): int {
    Sum(CellRows(shown, trunc, k), (l: Entry) => l.cents)
  }

  /** The buckets of some records that satisfy `q`. */
  ghost function Cells(shown: seq<Entry>, trunc: int -> int, q: Cell -> bool): set<Cell> {
    set l | l in shown && q(CellOf(l, trunc)) :: CellOf(l, trunc)
  }

  predicate Withheld(shown: seq<Entry>, trunc: int -> int, k: Cell) {
    |CellRows(shown, trunc, k)| < MIN_CELL
  }

  // ---- they add up ----

  lemma CellsAddUp(shown: seq<Entry>, trunc: int -> int, q: Cell -> bool, f: Entry -> int)
    requires forall l :: f(l) == if q(CellOf(l, trunc)) then l.cents else 0
    ensures SumOver(Cells(shown, trunc, q), k => CellCents(shown, trunc, k)) == Sum(shown, f)
  {
    var cents := (l: Entry) => l.cents;
    var part := (k: Cell) => (l: Entry) => if CellOf(l, trunc) == k then l.cents else 0;
    var group := k => CellCents(shown, trunc, k);
    forall k
      ensures group(k) == Sum(shown, part(k))
    {
      SumWhere(shown, l => CellOf(l, trunc) == k, cents, part(k));
    }
    GroupsAddUp(shown, l => CellOf(l, trunc), Cells(shown, trunc, q), cents, part, group, f);
  }

  lemma LinesAddUp(ledger: seq<Entry>, from: int, now: int, shown: seq<Entry>, p: Entry -> bool, f: Entry -> int)
    requires multiset(shown) == multiset(RevenueLines(ledger, from, now))
    requires forall l :: f(Shout(l)) == if p(l) then l.cents else 0
    ensures Sum(shown, f) == Sum(Where(Where(ledger, l => IsRevenue(l, from, now)), p), (l: Entry) => l.cents)
  {
    var revenue := Where(ledger, l => IsRevenue(l, from, now));
    SumPermutes(shown, RevenueLines(ledger, from, now), f);
    SumSelect(revenue, Shout, f, l => f(Shout(l)));
    SumWhere(revenue, p, (l: Entry) => l.cents, l => f(Shout(l)));
  }

  /** The buckets of a currency add up to its figure, and those of one time bucket to its point of the series. */
  lemma RevenueReconciles(
    ledger: seq<Entry>, from: int, now: int, trunc: int -> int, shown: seq<Entry>, c: string, t: int)
    requires multiset(shown) == multiset(RevenueLines(ledger, from, now))
    ensures SumOver(Cells(shown, trunc, (k: Cell) => k.currency == c), k => CellCents(shown, trunc, k))
         == RevenueFigure(ledger, from, now, c)
    ensures SumOver(Cells(shown, trunc, (k: Cell) => k.bucket == t && k.currency == c), k => CellCents(shown, trunc, k))
         == RevenueIn(ledger, from, now, trunc, t, c)
  {
    var inCurrency := (l: Entry) => if l.currency == c then l.cents else 0;
    CellsAddUp(shown, trunc, (k: Cell) => k.currency == c, inCurrency);
    LinesAddUp(ledger, from, now, shown, (l: Entry) => Upper(l.currency) == c, inCurrency);
    var inBoth := (l: Entry) => if trunc(l.at) == t && l.currency == c then l.cents else 0;
    CellsAddUp(shown, trunc, (k: Cell) => k.bucket == t && k.currency == c, inBoth);
    LinesAddUp(ledger, from, now, shown, (l: Entry) => trunc(l.at) == t && Upper(l.currency) == c, inBoth);
  }

  /** What an investor can add up of a currency: its buckets of MIN_CELL records or more. */
  ghost function OpenTotal(shown: seq<Entry>, trunc: int -> int, c: string): int {
    SumOver(Cells(shown, trunc, (k: Cell) => k.currency == c && !Withheld(shown, trunc, k)),
        k => CellCents(shown, trunc, k))
  }

  predicate NoneWithheld(shown: seq<Entry>, trunc: int -> int, c: string) {
    forall l :: l in shown && l.currency == c ==> !Withheld(shown, trunc, CellOf(l, trunc))
  }

  lemma OpenAndWithheld(
    ledger: seq<Entry>, from: int, now: int, trunc: int -> int, shown: seq<Entry>, c: string, rest: Entry -> int)
    requires multiset(shown) == multiset(RevenueLines(ledger, from, now))
    requires forall l ::
      rest(l) == if l.currency == c && Withheld(shown, trunc, CellOf(l, trunc)) then l.cents else 0
    ensures RevenueFigure(ledger, from, now, c) == OpenTotal(shown, trunc, c) + Sum(shown, rest)
  {
    hide Withheld;
    var q := (k: Cell) => k.currency == c && !Withheld(shown, trunc, k);
    var open := (l: Entry) => if q(CellOf(l, trunc)) then l.cents else 0;
    var all := (l: Entry) => if l.currency == c then l.cents else 0;
    CellsAddUp(shown, trunc, q, open);
    LinesAddUp(ledger, from, now, shown, (l: Entry) => Upper(l.currency) == c, all);
    SumPlus(shown, open, rest, all);
  }

  /** The open buckets of a currency never exceed its figure, and add up to it exactly when none is withheld. */
  lemma OpenBucketsAddUpExactlyWhenNoneWithheld(
    ledger: seq<Entry>, from: int, now: int, trunc: int -> int, shown: seq<Entry>, c: string)
    requires multiset(shown) == multiset(RevenueLines(ledger, from, now))
    ensures OpenTotal(shown, trunc, c) <= RevenueFigure(ledger, from, now, c)
    ensures OpenTotal(shown, trunc, c) == RevenueFigure(ledger, from, now, c) <==> NoneWithheld(shown, trunc, c)
  {
    hide Withheld, OpenTotal, RevenueFigure, RevenueLines;
    var rest := (l: Entry) => if l.currency == c && Withheld(shown, trunc, CellOf(l, trunc)) then l.cents else 0;
    OpenAndWithheld(ledger, from, now, trunc, shown, c, rest);
    PositiveLines(ledger, from, now, shown);
    SumOfNonNegatives(shown, rest);
  }

  lemma PositiveLines(ledger: seq<Entry>, from: int, now: int, shown: seq<Entry>)
    requires multiset(shown) == multiset(RevenueLines(ledger, from, now))
    ensures forall l :: l in shown ==> l.cents > 0
  {
    WhereMembers(ledger, l => IsRevenue(l, from, now));
    SelectMembers(Where(ledger, l => IsRevenue(l, from, now)), Shout);
    forall l | l in shown
      ensures l.cents > 0
    {
      assert l in multiset(shown);
      assert l in RevenueLines(ledger, from, now);
    }
  }

  // ---- what one entry more adds ----

  /** An entry counts in the figure of its currency, and in its point of the series, if it is a job fee or a
      subscription above zero and falls in the window, whose end is outside. */
  lemma RevenueOneMore(l: Entry, ledger: seq<Entry>, from: int, now: int, trunc: int -> int, t: int, c: string)
    ensures var counts :=
        l.source in {"job_fee", "subscription"} && l.cents > 0 && from <= l.at && l.at < now && Upper(l.currency) == c;
      var figure, point := RevenueFigure(ledger, from, now, c), RevenueIn(ledger, from, now, trunc, t, c);
      && RevenueFigure([l] + ledger, from, now, c) == figure + (if counts then l.cents else 0)
      && RevenueIn([l] + ledger, from, now, trunc, t, c) == point + if counts && trunc(l.at) == t then l.cents else 0
  {
    hide Upper;
    var revenue := l => IsRevenue(l, from, now);
    var rest := Where(ledger, revenue);
    WhereOneMore(l, ledger, revenue);
    var inCurrency := (l: Entry) => Upper(l.currency) == c;
    WhereOneMore(l, rest, inCurrency);
    SumOneMore(l, Where(rest, inCurrency), (l: Entry) => l.cents);
    var inBoth := (l: Entry) => trunc(l.at) == t && Upper(l.currency) == c;
    WhereOneMore(l, rest, inBoth);
    SumOneMore(l, Where(rest, inBoth), (l: Entry) => l.cents);
  }

  /** A bucket of no, one or two records is withheld, and one of three is not; a record is in the bucket of its time,
      currency and source. */
  lemma WithheldOneMore(l: Entry, shown: seq<Entry>, trunc: int -> int, k: Cell)
    ensures CellRows([], trunc, k) == []
    ensures CellRows([l] + shown, trunc, k) == CellRows(shown, trunc, k)
      || CellRows([l] + shown, trunc, k) == [l] + CellRows(shown, trunc, k)
    ensures |CellRows([l] + shown, trunc, k)| > |CellRows(shown, trunc, k)| <==>
      k.bucket == trunc(l.at) && k.currency == l.currency && k.source == l.source
    ensures Withheld(shown, trunc, k) <==> |CellRows(shown, trunc, k)| in {0, 1, 2}
  {
    WhereOneMore(l, shown, l => CellOf(l, trunc) == k);
  }
}
