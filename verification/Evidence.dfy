/** The money figures and the records shown beneath them: each figure is written once as an aggregate and once
    as a list of records, and the two must agree. */
module Evidence {
  import opened Options
  import opened Rows
  import opened Text

  datatype Job = Job(id: string, status: string, deleted: bool, price: Option<int>, currency: string)
  datatype Entry = Entry(job: Option<string>, source: string, currency: string, cents: int, at: int)

  function Figure(x: Option<int>): int {
    if x.Some? then x.value else 0
  }

  /** SUM over a nullable column: null when no row has a value. */
  ghost function SumOrNull<T(!new)>(s: seq<T>, f: T -> Option<int>): Option<int> {
    if forall x :: x in s ==> f(x) == None then None else Some(Sum(s, x => Figure(f(x))))
  }

  predicate Completed(j: Job) {
    j.status == "completed" && !j.deleted
  }

  predicate IsFee(l: Entry) {
    l.source == "job_fee" && l.cents > 0
  }

  // ---- the aggregates ----

  datatype CohortRow = CohortRow(id: string, currency: string, price: int)

  function Cohort(jobs: seq<Job>): seq<CohortRow> {
    Select(Where(jobs, (j: Job) => Completed(j) && j.price.Some?),
      (j: Job) => CohortRow(j.id, Upper(j.currency), Figure(j.price)))
  }

  predicate Pays(l: Entry, j: CohortRow) {
    l.job == Some(j.id) && j.currency == Upper(l.currency)
  }

  function JoinedFees(jobs: seq<Job>, ledger: seq<Entry>): seq<(Entry, CohortRow)> {
    Where(Join(ledger, Cohort(jobs), Pays), (p: (Entry, CohortRow)) => IsFee(p.0))
  }

  datatype Rate = Rate(gmv: int, fees: int)

  function RateGmv(cohort: seq<CohortRow>, c: string): int {
    Sum(Where(cohort, (j: CohortRow) => j.currency == c), (j: CohortRow) => j.price)
  }

  function RateFees(joined: seq<(Entry, CohortRow)>, c: string): int {
    Sum(Where(joined, (p: (Entry, CohortRow)) => Upper(p.0.currency) == c), (p: (Entry, CohortRow)) => p.0.cents)
  }

  /** The take-rate figure: price and fees of each currency of the cohort. */
  ghost function TakeRate(jobs: seq<Job>, ledger: seq<Entry>): map<string, Rate> {
    map c | c in (set j | j in Cohort(jobs) :: j.currency) ::
      Rate(RateGmv(Cohort(jobs), c), RateFees(JoinedFees(jobs, ledger), c))
  }

  datatype Volume = Volume(gmv: int, jobs: nat, unpriced: nat)

  ghost function VolumeOf(group: seq<Job>): Volume {
    Volume(Figure(SumOrNull(group, (j: Job) => j.price)), |group|, |Where(group, (j: Job) => j.price == None)|)
  }

  ghost function Currencies(jobs: seq<Job>): set<string> {
    set j | j in jobs :: Upper(j.currency)
  }

  function CompletedIn(jobs: seq<Job>, c: string): seq<Job> {
    Where(Where(jobs, Completed), (j: Job) => Upper(j.currency) == c)
  }

  /** The GMV figure: price, number of jobs and number of unpriced jobs of each currency. */
  ghost function GrossVolume(jobs: seq<Job>): map<string, Volume> {
    map c | c in Currencies(Where(jobs, Completed)) ::
      VolumeOf(CompletedIn(jobs, c))
  }

  // ---- the records ----

  datatype Metric = GmvMetric | RateMetric
  datatype Line = Line(job: string, currency: string, gmv: Option<int>, fees: int)

  predicate Listed(metric: Metric, j: Job) {
    Completed(j) && (metric == RateMetric ==> j.price.Some?)
  }

  predicate FeeOf(l: Entry, j: Job) {
    l.job == Some(j.id) && Upper(l.currency) == Upper(j.currency) && IsFee(l)
  }

  /** One record: the job, with its fees found by a correlated subquery. */
  function LineOf(j: Job, ledger: seq<Entry>): Line {
    Line(j.id, Upper(j.currency), j.price, Sum(Where(ledger, l => FeeOf(l, j)), (l: Entry) => l.cents))
  }

  function EvidenceLines(metric: Metric, jobs: seq<Job>, ledger: seq<Entry>): seq<Line> {
    Select(Where(jobs, j => Listed(metric, j)), j => LineOf(j, ledger))
  }

  datatype Bucket = Bucket(records: nat, unpriced: nat, gmv: Option<int>, fees: int)

  function LinesIn(shown: seq<Line>, c: string): seq<Line> {
    Where(shown, (x: Line) => x.currency == c)
  }

  /** What an investor sees of one currency: totals over the records, whatever their order. */
  ghost function CurrencyBucket(shown: seq<Line>, c: string): Bucket {
    var group := LinesIn(shown, c);
    Bucket(|group|, |Where(group, (x: Line) => x.gmv == None)|, SumOrNull(group, (x: Line) => x.gmv),
           Sum(group, (x: Line) => x.fees))
  }

  // ---- every figure as one sum over the jobs ----

  lemma LinesTotal(metric: Metric, jobs: seq<Job>, ledger: seq<Entry>, shown: seq<Line>, c: string, f: Line -> int,
      g: Job -> int)
    requires multiset(shown) == multiset(EvidenceLines(metric, jobs, ledger))
    requires forall j :: j in jobs ==>
      g(j) == if Listed(metric, j) && Upper(j.currency) == c then f(LineOf(j, ledger)) else 0
    ensures Sum(LinesIn(shown, c), f) == Sum(jobs, g)
  {
    var lines := EvidenceLines(metric, jobs, ledger);
    var part := (x: Line) => if x.currency == c then f(x) else 0;
    SumWhere(shown, (x: Line) => x.currency == c, f, part);
    SumPermutes(shown, lines, part);
    var listed := Where(jobs, j => Listed(metric, j));
    SumSelect(listed, j => LineOf(j, ledger), part, (j: Job) => part(LineOf(j, ledger)));
    SumWhere(jobs, j => Listed(metric, j), (j: Job) => part(LineOf(j, ledger)), g);
  }

  lemma CohortTotal(jobs: seq<Job>, f: CohortRow -> int, g: Job -> int)
    requires forall j :: j in jobs ==>
      g(j) == if Listed(RateMetric, j) then f(CohortRow(j.id, Upper(j.currency), Figure(j.price))) else 0
    ensures Sum(Cohort(jobs), f) == Sum(jobs, g)
  {
    var p := (j: Job) => Completed(j) && j.price.Some?;
    var m := (j: Job) => CohortRow(j.id, Upper(j.currency), Figure(j.price));
    SumSelect(Where(jobs, p), m, f, j => f(m(j)));
    SumWhere(jobs, p, j => f(m(j)), g);
  }

  /** What ledger row `l` adds through job `j` to the fees of currency `c`. */
  function Paid(l: Entry, j: Job, c: string): int {
    if Listed(RateMetric, j) && Upper(j.currency) == c && FeeOf(l, j) then l.cents else 0
  }

  lemma JoinTotal(jobs: seq<Job>, ledger: seq<Entry>, c: string, paid: Entry -> Job -> int, rows: Entry -> int)
    requires forall l, j :: paid(l)(j) == Paid(l, j, c)
    requires forall l :: rows(l) == Sum(jobs, paid(l))
    ensures RateFees(JoinedFees(jobs, ledger), c) == Sum(ledger, rows)
  {
    var inCurrency := (p: (Entry, CohortRow)) => if Upper(p.0.currency) == c then p.0.cents else 0;
    var fee := (p: (Entry, CohortRow)) => if IsFee(p.0) then inCurrency(p) else 0;
    SumWhere(JoinedFees(jobs, ledger), (p: (Entry, CohortRow)) => Upper(p.0.currency) == c,
             (p: (Entry, CohortRow)) => p.0.cents, inCurrency);
    SumWhere(Join(ledger, Cohort(jobs), Pays), (p: (Entry, CohortRow)) => IsFee(p.0), inCurrency, fee);
    var cell := (l: Entry) => (j: CohortRow) => if Pays(l, j) then fee((l, j)) else 0;
    forall l | l in ledger
      ensures rows(l) == Sum(Cohort(jobs), cell(l))
    {
      CohortTotal(jobs, cell(l), paid(l));
    }
    SumJoin(ledger, Cohort(jobs), Pays, fee, cell, rows);
  }

  /** The fees of the join are the fees of the subqueries. */
  lemma FeesAgree(jobs: seq<Job>, ledger: seq<Entry>, shown: seq<Line>, c: string)
    requires multiset(shown) == multiset(EvidenceLines(RateMetric, jobs, ledger))
    ensures RateFees(JoinedFees(jobs, ledger), c) == Sum(LinesIn(shown, c), (x: Line) => x.fees)
  {
    var paid := (l: Entry) => (j: Job) => Paid(l, j, c);
    var paidBy := (j: Job) => (l: Entry) => Paid(l, j, c);
    var rows := (l: Entry) => Sum(jobs, paid(l));
    var cols := (j: Job) => Sum(ledger, paidBy(j));
    JoinTotal(jobs, ledger, c, paid, rows);
    SumSwap(ledger, jobs, paid, paidBy, rows, cols);
    forall j | j in jobs
      ensures cols(j) == if Listed(RateMetric, j) && Upper(j.currency) == c then LineOf(j, ledger).fees else 0
    {
      ColumnIsLine(j, ledger, c, paidBy(j));
    }
    LinesTotal(RateMetric, jobs, ledger, shown, c, (x: Line) => x.fees, cols);
  }

  lemma ColumnIsLine(j: Job, ledger: seq<Entry>, c: string, paid: Entry -> int)
    requires forall l :: paid(l) == Paid(l, j, c)
    ensures Sum(ledger, paid)
         == if Listed(RateMetric, j) && Upper(j.currency) == c then LineOf(j, ledger).fees else 0
  {
    if Listed(RateMetric, j) && Upper(j.currency) == c {
      SumWhere(ledger, l => FeeOf(l, j), (l: Entry) => l.cents, paid);
    } else {
      SumOfZeros(ledger, paid);
    }
  }

  // ---- each figure is the total of its records ----

  ghost function LineCurrencies(shown: seq<Line>): set<string> {
    set x | x in shown :: x.currency
  }

  lemma SumOrNullFigure<T(!new)>(s: seq<T>, f: T -> Option<int>, g: T -> int)
    requires forall x :: g(x) == Figure(f(x))
    ensures Figure(SumOrNull(s, f)) == Sum(s, g)
  {
    if forall x :: x in s ==> f(x) == None {
      SumOfZeros(s, g);
    } else {
      SumEq(s, g, x => Figure(f(x)));
    }
  }

  lemma ListedCurrencies(metric: Metric, jobs: seq<Job>, ledger: seq<Entry>, shown: seq<Line>)
    requires multiset(shown) == multiset(EvidenceLines(metric, jobs, ledger))
    ensures LineCurrencies(shown) == Currencies(Where(jobs, j => Listed(metric, j)))
  {
    var listed := Where(jobs, j => Listed(metric, j));
    var lines := EvidenceLines(metric, jobs, ledger);
    SelectMembers(listed, j => LineOf(j, ledger));
    forall x
      ensures x in shown <==> x in lines
    {
      assert x in multiset(shown) <==> x in multiset(lines);
    }
    forall c | c in Currencies(listed)
      ensures c in LineCurrencies(shown)
    {
      var j :| j in listed && Upper(j.currency) == c;
      assert LineOf(j, ledger) in lines;
    }
  }

  lemma CohortCurrencies(jobs: seq<Job>)
    ensures (set j | j in Cohort(jobs) :: j.currency) == Currencies(Where(jobs, j => Listed(RateMetric, j)))
  {
    var priced := (j: Job) => Completed(j) && j.price.Some?;
    var m := (j: Job) => CohortRow(j.id, Upper(j.currency), Figure(j.price));
    SelectMembers(Where(jobs, priced), m);
    WhereMembers(jobs, priced);
    WhereMembers(jobs, j => Listed(RateMetric, j));
    var listed := Where(jobs, j => Listed(RateMetric, j));
    forall c | c in Currencies(listed)
      ensures c in (set j | j in Cohort(jobs) :: j.currency)
    {
      var j :| j in listed && Upper(j.currency) == c;
      assert m(j) in Cohort(jobs);
    }
  }

  /** Every line of the take-rate figure is the total of the records shown beneath it, in whatever order. */
  lemma RateReconciles(jobs: seq<Job>, ledger: seq<Entry>, shown: seq<Line>, c: string)
    requires multiset(shown) == multiset(EvidenceLines(RateMetric, jobs, ledger))
    ensures c in TakeRate(jobs, ledger) <==> c in LineCurrencies(shown)
    ensures c in TakeRate(jobs, ledger) ==>
      var b := CurrencyBucket(shown, c);
      TakeRate(jobs, ledger)[c] == Rate(Figure(b.gmv), b.fees)
  {
    ListedCurrencies(RateMetric, jobs, ledger, shown);
    CohortCurrencies(jobs);
    FeesAgree(jobs, ledger, shown, c);
    var g := (j: Job) => if Listed(RateMetric, j) && Upper(j.currency) == c then Figure(j.price) else 0;
    var inCurrency := (j: CohortRow) => if j.currency == c then j.price else 0;
    SumWhere(Cohort(jobs), (j: CohortRow) => j.currency == c, (j: CohortRow) => j.price, inCurrency);
    CohortTotal(jobs, inCurrency, g);
    LinesTotal(RateMetric, jobs, ledger, shown, c, (x: Line) => Figure(x.gmv), g);
    SumOrNullFigure(LinesIn(shown, c), (x: Line) => x.gmv, (x: Line) => Figure(x.gmv));
  }

  lemma GroupTotal(jobs: seq<Job>, c: string, f: Job -> int, g: Job -> int)
    requires forall j :: g(j) == if Completed(j) && Upper(j.currency) == c then f(j) else 0
    ensures Sum(CompletedIn(jobs, c), f) == Sum(jobs, g)
  {
    var inCurrency := (j: Job) => if Upper(j.currency) == c then f(j) else 0;
    SumWhere(Where(jobs, Completed), (j: Job) => Upper(j.currency) == c, f, inCurrency);
    SumWhere(jobs, Completed, inCurrency, g);
  }

  /** One aggregate of the GMV figure and the same aggregate of its records. */
  lemma TotalsAgree(
    jobs: seq<Job>, ledger: seq<Entry>, shown: seq<Line>, c: string, f: Option<int> -> int, fj: Job -> int,
    fx: Line -> int)
    requires multiset(shown) == multiset(EvidenceLines(GmvMetric, jobs, ledger))
    requires forall j :: fj(j) == f(j.price)
    requires forall x :: fx(x) == f(x.gmv)
    ensures Sum(CompletedIn(jobs, c), fj) == Sum(LinesIn(shown, c), fx)
  {
    var g := (j: Job) => if Completed(j) && Upper(j.currency) == c then f(j.price) else 0;
    GroupTotal(jobs, c, fj, g);
    LinesTotal(GmvMetric, jobs, ledger, shown, c, fx, g);
  }

  lemma VolumesAgree(jobs: seq<Job>, ledger: seq<Entry>, shown: seq<Line>, c: string)
    requires multiset(shown) == multiset(EvidenceLines(GmvMetric, jobs, ledger))
    ensures Figure(SumOrNull(CompletedIn(jobs, c), (j: Job) => j.price)) == Figure(CurrencyBucket(shown, c).gmv)
  {
    hide CompletedIn, LinesIn;
    SumOrNullFigure(CompletedIn(jobs, c), (j: Job) => j.price, (j: Job) => Figure(j.price));
    SumOrNullFigure(LinesIn(shown, c), (x: Line) => x.gmv, (x: Line) => Figure(x.gmv));
    TotalsAgree(jobs, ledger, shown, c, Figure, (j: Job) => Figure(j.price), (x: Line) => Figure(x.gmv));
  }

  lemma CountsAgree(jobs: seq<Job>, ledger: seq<Entry>, shown: seq<Line>, c: string)
    requires multiset(shown) == multiset(EvidenceLines(GmvMetric, jobs, ledger))
    ensures |CompletedIn(jobs, c)| == CurrencyBucket(shown, c).records
    ensures |Where(CompletedIn(jobs, c), (j: Job) => j.price == None)| == CurrencyBucket(shown, c).unpriced
  {
    hide CompletedIn, LinesIn;
    var oneJob := (j: Job) => 1;
    var oneLine := (x: Line) => 1;
    SizeIsSum(CompletedIn(jobs, c), oneJob);
    SizeIsSum(LinesIn(shown, c), oneLine);
    TotalsAgree(jobs, ledger, shown, c, x => 1, oneJob, oneLine);
    var freeJob := (j: Job) => One(j.price == None);
    var freeLine := (x: Line) => One(x.gmv == None);
    CountIsSum(CompletedIn(jobs, c), (j: Job) => j.price == None, freeJob);
    CountIsSum(LinesIn(shown, c), (x: Line) => x.gmv == None, freeLine);
    TotalsAgree(jobs, ledger, shown, c, x => One(x == None), freeJob, freeLine);
  }

  /** Every line of the GMV figure is the total of its records, unpriced jobs included; where nothing is priced
      the figure is 0 and the total of the records is null. */
  lemma GmvReconciles(jobs: seq<Job>, ledger: seq<Entry>, shown: seq<Line>, c: string)
    requires multiset(shown) == multiset(EvidenceLines(GmvMetric, jobs, ledger))
    ensures c in GrossVolume(jobs) <==> c in LineCurrencies(shown)
    ensures c in GrossVolume(jobs) ==>
      var b := CurrencyBucket(shown, c);
      GrossVolume(jobs)[c] == Volume(Figure(b.gmv), b.records, b.unpriced)
    ensures var b := CurrencyBucket(shown, c); b.gmv == None <==> b.unpriced == b.records
  {
    ListedCurrencies(GmvMetric, jobs, ledger, shown);
    SameSelection(jobs, j => Listed(GmvMetric, j), Completed);
    VolumesAgree(jobs, ledger, shown, c);
    CountsAgree(jobs, ledger, shown, c);
    WhereKeepsAll(LinesIn(shown, c), (x: Line) => x.gmv == None);
    hide CompletedIn, LinesIn, EvidenceLines, Currencies, LineCurrencies;
  }

  // ---- where the two money figures part ----

  function UnpricedFee(j: Job, ledger: seq<Entry>, c: string): int {
    if Completed(j) && j.price == None && Upper(j.currency) == c then LineOf(j, ledger).fees else 0
  }

  /** The fees of the unpriced jobs of a currency: on the GMV records, not in the take-rate figure. */
  function UnpricedFees(jobs: seq<Job>, ledger: seq<Entry>, c: string): int {
    Sum(jobs, (j: Job) => UnpricedFee(j, ledger, c))
  }

  predicate HasFee(j: Job, ledger: seq<Entry>) {
    exists l :: l in ledger && FeeOf(l, j)
  }

  lemma LineFeesPositive(j: Job, ledger: seq<Entry>)
    ensures LineOf(j, ledger).fees >= 0
    ensures LineOf(j, ledger).fees == 0 <==> !HasFee(j, ledger)
  {
    WhereMembers(ledger, l => FeeOf(l, j));
    SumOfNonNegatives(Where(ledger, l => FeeOf(l, j)), (l: Entry) => l.cents);
  }

  lemma GmvRecordsTotal(jobs: seq<Job>, ledger: seq<Entry>, shown: seq<Line>, c: string)
    requires multiset(shown) == multiset(EvidenceLines(GmvMetric, jobs, ledger))
    ensures CurrencyBucket(shown, c).fees == RateFees(JoinedFees(jobs, ledger), c) + UnpricedFees(jobs, ledger, c)
  {
    hide Completed, Upper, RateFees, JoinedFees, LineOf, EvidenceLines, LinesIn;
    var fees := (j: Job) => if Completed(j) && Upper(j.currency) == c then LineOf(j, ledger).fees else 0;
    var priced := (j: Job) => if Listed(RateMetric, j) && Upper(j.currency) == c then LineOf(j, ledger).fees else 0;
    LinesTotal(GmvMetric, jobs, ledger, shown, c, (x: Line) => x.fees, fees);
    LinesTotal(RateMetric, jobs, ledger, EvidenceLines(RateMetric, jobs, ledger), c, (x: Line) => x.fees, priced);
    FeesAgree(jobs, ledger, EvidenceLines(RateMetric, jobs, ledger), c);
    SumPlus(jobs, priced, (j: Job) => UnpricedFee(j, ledger, c), fees);
  }

  /** The fees on the GMV records exceed the take-rate fees by those of unpriced jobs, so the two agree exactly
      when no unpriced completed job of the currency was charged a fee. */
  lemma GmvRecordsAndRateFees(jobs: seq<Job>, ledger: seq<Entry>, shown: seq<Line>, c: string)
    requires multiset(shown) == multiset(EvidenceLines(GmvMetric, jobs, ledger))
    ensures CurrencyBucket(shown, c).fees >= RateFees(JoinedFees(jobs, ledger), c)
    ensures CurrencyBucket(shown, c).fees == RateFees(JoinedFees(jobs, ledger), c)
      <==> forall j :: j in jobs && Completed(j) && j.price == None && Upper(j.currency) == c ==> !HasFee(j, ledger)
  {
    hide Completed, Upper, HasFee, RateFees, JoinedFees, CurrencyBucket, LineOf, EvidenceLines;
    GmvRecordsTotal(jobs, ledger, shown, c);
    var unpriced := (j: Job) => UnpricedFee(j, ledger, c);
    forall j
      ensures unpriced(j) >= 0
      ensures Completed(j) && j.price == None && Upper(j.currency) == c ==> (unpriced(j) == 0 <==> !HasFee(j, ledger))
    {
      LineFeesPositive(j, ledger);
    }
    SumOfNonNegatives(jobs, unpriced);
  }

  lemma OneUnpricedFee(jobs: seq<Job>, ledger: seq<Entry>, c: string, j: Job)
    requires j in jobs && Completed(j) && j.price == None && Upper(j.currency) == c && HasFee(j, ledger)
    ensures CurrencyBucket(EvidenceLines(GmvMetric, jobs, ledger), c).fees > RateFees(JoinedFees(jobs, ledger), c)
  {
    hide *;
    GmvRecordsAndRateFees(jobs, ledger, EvidenceLines(GmvMetric, jobs, ledger), c);
  }

  /** It happens in any currency: one completed job without a price that was charged a fee. */
  lemma UnpricedFeeShows(job: Job, fee: Entry)
    requires job.status == "completed" && !job.deleted && job.price == None
    requires fee.job == Some(job.id) && fee.source == "job_fee" && fee.currency == job.currency && fee.cents > 0
    ensures CurrencyBucket(EvidenceLines(GmvMetric, [job], [fee]), Upper(job.currency)).fees
          > RateFees(JoinedFees([job], [fee]), Upper(job.currency))
  {
    assert Completed(job) && FeeOf(fee, job) && fee in [fee] && job in [job];
    assert HasFee(job, [fee]);
    hide *;
    OneUnpricedFee([job], [fee], Upper(job.currency), job);
  }

  // ---- each fee is counted once ----

  predicate KeysDistinct(s: seq<CohortRow>) {
    forall i, k :: 0 <= i < k < |s| ==> s[i].id != s[k].id || s[i].currency != s[k].currency
  }

  /** The fees that some cohort job accounts for, each taken once. */
  function AccountedFees(cohort: seq<CohortRow>, ledger: seq<Entry>): int {
    Sum(ledger, (l: Entry) => if IsFee(l) && exists j :: j in cohort && Pays(l, j) then l.cents else 0)
  }

  function JoinedTotal(jobs: seq<Job>, ledger: seq<Entry>): int {
    Sum(JoinedFees(jobs, ledger), (p: (Entry, CohortRow)) => p.0.cents)
  }

  ghost predicate CountsOnce(jobs: seq<Job>, ledger: seq<Entry>) {
    JoinedTotal(jobs, ledger) == AccountedFees(Cohort(jobs), ledger)
  }

  lemma JoinedByEntry(jobs: seq<Job>, ledger: seq<Entry>, cell: Entry -> CohortRow -> int, rows: Entry -> int)
    requires forall l, j :: cell(l)(j) == if Pays(l, j) && IsFee(l) then l.cents else 0
    requires forall l :: rows(l) == Sum(Cohort(jobs), cell(l))
    ensures JoinedTotal(jobs, ledger) == Sum(ledger, rows)
  {
    var fee := (p: (Entry, CohortRow)) => if IsFee(p.0) then p.0.cents else 0;
    SumWhere(Join(ledger, Cohort(jobs), Pays), (p: (Entry, CohortRow)) => IsFee(p.0),
             (p: (Entry, CohortRow)) => p.0.cents, fee);
    SumJoin(ledger, Cohort(jobs), Pays, fee, cell, rows);
  }

  lemma OneJobPays(cohort: seq<CohortRow>, l: Entry, cell: CohortRow -> int)
    requires KeysDistinct(cohort)
    requires forall j :: cell(j) == if Pays(l, j) && IsFee(l) then l.cents else 0
    ensures Sum(cohort, cell) == if IsFee(l) && exists j :: j in cohort && Pays(l, j) then l.cents else 0
  {
    if j :| j in cohort && Pays(l, j) {
      var k :| 0 <= k < |cohort| && cohort[k] == j;
      SumOfOnly(cohort, k, cell);
    } else {
      SumOfZeros(cohort, cell);
    }
  }

  lemma TwoJobsPay(jobs: seq<Job>, i: nat, k: nat)
    requires i < k < |Cohort(jobs)|
    requires Cohort(jobs)[i].id == Cohort(jobs)[k].id && Cohort(jobs)[i].currency == Cohort(jobs)[k].currency
    requires Upper(Cohort(jobs)[i].currency) == Cohort(jobs)[i].currency
    ensures !CountsOnce(jobs, [Entry(Some(Cohort(jobs)[i].id), "job_fee", Cohort(jobs)[i].currency, 1, 0)])
  {
    var cohort := Cohort(jobs);
    var l := Entry(Some(cohort[i].id), "job_fee", cohort[i].currency, 1, 0);
    var cell := (l: Entry) => (j: CohortRow) => if Pays(l, j) && IsFee(l) then l.cents else 0;
    var rows := (l: Entry) => Sum(cohort, cell(l));
    JoinedByEntry(jobs, [l], cell, rows);
    SumOfTwoOrMore(cohort, i, k, cell(l));
    hide Cohort, Upper;
    assert Sum([l], rows) == rows(l) >= 2;
    SumOfOnly([l], 0, (l: Entry) => if IsFee(l) && exists j :: j in cohort && Pays(l, j) then l.cents else 0);
  }

  lemma UpperTwice(s: string)
    ensures Upper(Upper(s)) == Upper(s)
  {
  }

  /** Whatever the ledger holds, the join counts each fee once exactly when no two priced completed jobs share an
      id and a currency; the primary key on job ids is what the figure rests on. */
  lemma FeesCountedOnceExactlyWhenKeysDistinct(jobs: seq<Job>)
    ensures (forall ledger :: CountsOnce(jobs, ledger)) <==> KeysDistinct(Cohort(jobs))
  {
    var cohort := Cohort(jobs);
    if KeysDistinct(cohort) {
      forall ledger
        ensures CountsOnce(jobs, ledger)
      {
        var cell := (l: Entry) => (j: CohortRow) => if Pays(l, j) && IsFee(l) then l.cents else 0;
        var rows := (l: Entry) => Sum(cohort, cell(l));
        JoinedByEntry(jobs, ledger, cell, rows);
        forall l
          ensures rows(l) == if IsFee(l) && exists j :: j in cohort && Pays(l, j) then l.cents else 0
        {
          OneJobPays(cohort, l, cell(l));
        }
        SumEq(ledger, rows, (l: Entry) => if IsFee(l) && exists j :: j in cohort && Pays(l, j) then l.cents else 0);
      }
    } else {
      var i, k :| 0 <= i < k < |cohort| && cohort[i].id == cohort[k].id && cohort[i].currency == cohort[k].currency;
      CohortIsUpper(jobs, i);
      TwoJobsPay(jobs, i, k);
    }
  }

  lemma CohortIsUpper(jobs: seq<Job>, i: nat)
    requires i < |Cohort(jobs)|
    ensures Upper(Cohort(jobs)[i].currency) == Cohort(jobs)[i].currency
  {
    var priced := Where(jobs, (j: Job) => Completed(j) && j.price.Some?);
    SelectMembers(priced, (j: Job) => CohortRow(j.id, Upper(j.currency), Figure(j.price)));
    UpperTwice(priced[i].currency);
  }

  // ---- what one job or entry more adds ----

  /** Only a completed job that is not deleted counts, in the currency it is written in, whatever its case. */
  lemma GmvOneMore(j: Job, jobs: seq<Job>, c: string)
    ensures VolumeOf(CompletedIn([], c)) == Volume(0, 0, 0)
    ensures var counts := j.status == "completed" && !j.deleted && Upper(j.currency) == c;
      var v := VolumeOf(CompletedIn(jobs, c));
      VolumeOf(CompletedIn([j] + jobs, c)) == if !counts then v
        else match j.price
          case Some(price) => Volume(v.gmv + price, v.jobs + 1, v.unpriced)
          case None => Volume(v.gmv, v.jobs + 1, v.unpriced + 1)
  {
    hide Upper;
    WhereOneMore(j, jobs, Completed);
    WhereOneMore(j, Where(jobs, Completed), (j: Job) => Upper(j.currency) == c);
    VolumeOneMore(j, CompletedIn(jobs, c));
    assert Where([j] + jobs, Completed)
        == if Completed(j) then [j] + Where(jobs, Completed) else Where(jobs, Completed);
  }

  lemma VolumeOneMore(j: Job, group: seq<Job>)
    ensures var v, w := VolumeOf(group), VolumeOf([j] + group);
      w == Volume(v.gmv + Figure(j.price), v.jobs + 1, v.unpriced + if j.price == None then 1 else 0)
  {
    var price := (x: Job) => Figure(x.price);
    WhereOneMore(j, group, (j: Job) => j.price == None);
    SumOneMore(j, group, price);
    SumOrNullFigure(group, (j: Job) => j.price, price);
    SumOrNullFigure([j] + group, (j: Job) => j.price, price);
  }

  /** The price of the take rate counts the completed jobs that have one, and its fees the entries above zero that are
      job fees of such a job in its currency. */
  lemma RateOneMore(j: Job, jobs: seq<Job>, l: Entry, ledger: seq<Entry>, c: string)
    ensures RateGmv(Cohort([j] + jobs), c) == RateGmv(Cohort(jobs), c)
      + if j.status == "completed" && !j.deleted && j.price.Some? && Upper(j.currency) == c then j.price.value else 0
    ensures LineOf(j, [l] + ledger).fees == LineOf(j, ledger).fees
      + if l.job == Some(j.id) && l.source == "job_fee" && l.cents > 0 && Upper(l.currency) == Upper(j.currency)
        then l.cents else 0
  {
    hide Upper;
    var priced := (j: Job) => Completed(j) && j.price.Some?;
    var rowOf := (j: Job) => CohortRow(j.id, Upper(j.currency), Figure(j.price));
    WhereOneMore(j, jobs, priced);
    SelectOneMore(j, Where(jobs, priced), rowOf);
    var inCurrency := (j: CohortRow) => j.currency == c;
    WhereOneMore(rowOf(j), Cohort(jobs), inCurrency);
    SumOneMore(rowOf(j), Where(Cohort(jobs), inCurrency), (j: CohortRow) => j.price);
    var feeOf := l => FeeOf(l, j);
    WhereOneMore(l, ledger, feeOf);
    SumOneMore(l, Where(ledger, feeOf), (l: Entry) => l.cents);
  }
}
