/** The offline asset cache of the service worker: bodies in one store, their recorded size and last use in
    another, and the pruning that keeps both bounded. Times are in milliseconds, sizes in bytes. */
module AssetCache {
  import opened Rows
  import opened Sequences

  const MAX_ASSET_ENTRIES: nat := 160
  const MAX_ASSET_BYTES: nat := 80 * 1024 * 1024
  const MAX_ASSET_AGE: nat := 30 * 24 * 60 * 60 * 1000
  const LARGEST_ASSET: nat := 8 * 1024 * 1024

  datatype Meta = Meta(bytes: nat, lastUsed: int)

  /** Both stores: the cached addresses in the order they were put, the size of each body, and the metadata. */
  datatype Caches = Caches(order: seq<string>, bodies: map<string, nat>, metas: map<string, Meta>)

  ghost predicate WellFormed(c: Caches) {
    Distinct(c.order) && forall url :: url in c.order <==> url in c.bodies
  }

  // ---- what a prune looks at ----

  datatype Record = Record(url: string, bytes: nat, lastUsed: int)

  function RecordOf(c: Caches, url: string): Record {
    if url in c.metas then Record(url, c.metas[url].bytes, c.metas[url].lastUsed) else Record(url, 0, 0)
  }

  function RecordsOf(c: Caches): seq<Record> {
    Select(c.order, url => RecordOf(c, url))
  }

  /** Insert after every record used as recently: the sort is stable. */
  function InsertByUse(s: seq<Record>, r: Record): seq<Record> {
    if s != [] && s[0].lastUsed >= r.lastUsed then [s[0]] + InsertByUse(s[1..], r) else [r] + s
  }

  function MostRecentFirst(s: seq<Record>): seq<Record> {
    if s == [] then [] else InsertByUse(MostRecentFirst(s[..|s| - 1]), s[|s| - 1])
  }

  // ---- what it keeps ----

  datatype Limits = Limits(now: int, entries: nat, bytes: nat)

  predicate Expired(r: Record, l: Limits) {
    r.lastUsed < l.now - MAX_ASSET_AGE
  }

  predicate Refused(r: Record, count: nat, bytes: nat, l: Limits) {
    Expired(r, l) || count >= l.entries || bytes + r.bytes > l.bytes
  }

  function Kept(rs: seq<Record>, count: nat, bytes: nat, l: Limits): seq<Record> {
    if rs == [] then []
    else if Refused(rs[0], count, bytes, l) then Kept(rs[1..], count, bytes, l)
    else [rs[0]] + Kept(rs[1..], count + 1, bytes + rs[0].bytes, l)
  }

  function KeptOf(c: Caches, l: Limits): seq<Record> {
    Kept(MostRecentFirst(RecordsOf(c)), 0, 0, l)
  }

  function Urls(rs: seq<Record>): set<string> {
    set r | r in rs :: r.url
  }

  /** Both stores without the addresses outside `live`. */
  function Restrict(c: Caches, live: set<string>): Caches {
    Caches(Where(c.order, url => url in live),
           map url | url in c.bodies && url in live :: c.bodies[url],
           map url | url in c.metas && url in live :: c.metas[url])
  }

  function Pruned(c: Caches, l: Limits): Caches {
    Restrict(c, Urls(KeptOf(c, l)))
  }

  // ---- the sort ----

  predicate RecentFirst(s: seq<Record>) {
    forall i, j :: 0 <= i < j < |s| ==> s[i].lastUsed >= s[j].lastUsed
  }

  lemma {:induction false} InsertCounts(s: seq<Record>, r: Record)
    ensures multiset(InsertByUse(s, r)) == multiset(s) + multiset{r}
  {
    if s != [] && s[0].lastUsed >= r.lastUsed {
      InsertCounts(s[1..], r);
      assert s == [s[0]] + s[1..];
    }
  }

  lemma InsertMembers(s: seq<Record>, r: Record, x: Record)
    requires x in InsertByUse(s, r)
    ensures x in s || x == r
  {
    InsertCounts(s, r);
    assert x in multiset(InsertByUse(s, r));
  }

  lemma {:induction false} InsertSorts(s: seq<Record>, r: Record)
    requires RecentFirst(s)
    ensures RecentFirst(InsertByUse(s, r))
  {
    if s != [] && s[0].lastUsed >= r.lastUsed {
      InsertSorts(s[1..], r);
      var rest := InsertByUse(s[1..], r);
      forall i | 0 <= i < |rest|
        ensures rest[i].lastUsed <= s[0].lastUsed
      {
        InsertMembers(s[1..], r, rest[i]);
      }
    }
  }

  lemma {:induction false} SortSorts(s: seq<Record>)
    ensures RecentFirst(MostRecentFirst(s))
    ensures multiset(MostRecentFirst(s)) == multiset(s)
  {
    hide InsertByUse, RecentFirst;
    if s == [] {
      EmptyIsSorted();
    } else {
      var rest := MostRecentFirst(s[..|s| - 1]);
      SortSorts(s[..|s| - 1]);
      InsertSorts(rest, s[|s| - 1]);
      InsertCounts(rest, s[|s| - 1]);
      assert s == s[..|s| - 1] + [s[|s| - 1]];
    }
  }

  lemma EmptyIsSorted()
    ensures RecentFirst([])
  {
  }

  // ---- the greedy choice ----

  function Bytes(rs: seq<Record>): int {
    Sum(rs, (r: Record) => r.bytes)
  }

  lemma {:induction false} KeptIsBounded(rs: seq<Record>, count: nat, bytes: nat, l: Limits)
    ensures var k := Kept(rs, count, bytes, l);
      && (count <= l.entries ==> count + |k| <= l.entries)
      && (bytes <= l.bytes ==> bytes + Bytes(k) <= l.bytes)
      && (forall r :: r in k ==> r in rs && !Expired(r, l))
  {
    if rs != [] {
      if Refused(rs[0], count, bytes, l) {
        KeptIsBounded(rs[1..], count, bytes, l);
      } else {
        KeptIsBounded(rs[1..], count + 1, bytes + rs[0].bytes, l);
        SumAppend([rs[0]], Kept(rs[1..], count + 1, bytes + rs[0].bytes, l), (r: Record) => r.bytes);
      }
      assert rs == [rs[0]] + rs[1..];
    }
  }

  /** The kept records used at least as recently as `r`. */
  function AtLeastAsRecent(k: seq<Record>, r: Record): seq<Record> {
    Where(k, (x: Record) => x.lastUsed >= r.lastUsed)
  }

  /** A record that fits what is kept of the more recent ones is kept. */
  lemma {:induction false} RefusedForRecentOnes(rs: seq<Record>, count: nat, bytes: nat, l: Limits, r: Record)
    requires RecentFirst(rs) && r in rs && !Expired(r, l) && r !in Kept(rs, count, bytes, l)
    ensures var k := AtLeastAsRecent(Kept(rs, count, bytes, l), r);
      count + |k| >= l.entries || bytes + Bytes(k) + r.bytes > l.bytes
  {
    var k := Kept(rs, count, bytes, l);
    var recent := (x: Record) => x.lastUsed >= r.lastUsed;
    if Refused(rs[0], count, bytes, l) {
      if rs[0] == r {
        SumOfNonNegatives(AtLeastAsRecent(k, r), (x: Record) => x.bytes);
      } else {
        RefusedForRecentOnes(rs[1..], count, bytes, l, r);
      }
    } else {
      var rest := Kept(rs[1..], count + 1, bytes + rs[0].bytes, l);
      assert r != rs[0] && r in rs[1..];
      RefusedForRecentOnes(rs[1..], count + 1, bytes + rs[0].bytes, l, r);
      assert k[0] == rs[0] && k[1..] == rest && recent(rs[0]);
      assert Where(k, recent) == [rs[0]] + Where(rest, recent);
      SumAppend([rs[0]], Where(rest, recent), (x: Record) => x.bytes);
    }
  }

  /** Records that are within the limits together are all kept, in any order. */
  lemma {:induction false} FittingAreKept(rs: seq<Record>, count: nat, bytes: nat, l: Limits)
    requires count + |rs| <= l.entries && bytes + Bytes(rs) <= l.bytes
    requires forall r :: r in rs ==> !Expired(r, l)
    ensures Kept(rs, count, bytes, l) == rs
  {
    if rs != [] {
      SumOfNonNegatives(rs[1..], (r: Record) => r.bytes);
      assert rs[0] in rs;
      FittingAreKept(rs[1..], count + 1, bytes + rs[0].bytes, l);
    }
  }

  // ---- what is left is what was kept ----

  lemma {:induction false} KeptCounts(rs: seq<Record>, count: nat, bytes: nat, l: Limits)
    ensures multiset(Kept(rs, count, bytes, l)) <= multiset(rs)
  {
    if rs != [] {
      assert rs == [rs[0]] + rs[1..];
      if Refused(rs[0], count, bytes, l) {
        KeptCounts(rs[1..], count, bytes, l);
      } else {
        KeptCounts(rs[1..], count + 1, bytes + rs[0].bytes, l);
      }
    }
  }

  lemma RecordsAreOfTheirUrl(c: Caches)
    requires WellFormed(c)
    ensures forall r :: r in RecordsOf(c) <==> r.url in c.order && r == RecordOf(c, r.url)
    ensures Distinct(RecordsOf(c)) && |RecordsOf(c)| == |c.order|
  {
    SelectMembers(c.order, url => RecordOf(c, url));
  }

  lemma SortedRecords(c: Caches)
    requires WellFormed(c)
    ensures var rs := MostRecentFirst(RecordsOf(c));
      && RecentFirst(rs) && multiset(rs) == multiset(RecordsOf(c))
      && (forall r :: r in rs <==> r.url in c.order && r == RecordOf(c, r.url))
      && (forall r :: multiset(rs)[r] <= 1)
  {
    var rs := MostRecentFirst(RecordsOf(c));
    SortSorts(RecordsOf(c));
    RecordsAreOfTheirUrl(c);
    DistinctCounts(RecordsOf(c));
    forall r
      ensures r in rs <==> r in RecordsOf(c)
    {
      assert r in multiset(rs) <==> r in multiset(RecordsOf(c));
    }
  }

  lemma KeptUrls(c: Caches, l: Limits)
    requires WellFormed(c)
    ensures forall r :: r in KeptOf(c, l) ==> r.url in c.order && r == RecordOf(c, r.url)
    ensures forall url :: url in c.order ==> (url in Urls(KeptOf(c, l)) <==> RecordOf(c, url) in KeptOf(c, l))
    ensures Urls(KeptOf(c, l)) <= (set url | url in c.order)
  {
    SortedRecords(c);
    KeptIsBounded(MostRecentFirst(RecordsOf(c)), 0, 0, l);
  }

  lemma InKept(c: Caches, l: Limits, r: Record)
    requires WellFormed(c)
    ensures r in KeptOf(c, l) ==> r in MostRecentFirst(RecordsOf(c))
    ensures r in MostRecentFirst(RecordsOf(c)) ==> (r.url in Urls(KeptOf(c, l)) <==> r in KeptOf(c, l))
    ensures multiset(KeptOf(c, l))[r] <= multiset(MostRecentFirst(RecordsOf(c)))[r] <= 1
  {
    KeptUrls(c, l);
    SortedRecords(c);
    KeptCounts(MostRecentFirst(RecordsOf(c)), 0, 0, l);
  }

  lemma KeptIsSelected(c: Caches, l: Limits, p: Record -> bool)
    requires WellFormed(c)
    requires forall r: Record :: p(r) == (r.url in Urls(KeptOf(c, l)))
    ensures multiset(Where(MostRecentFirst(RecordsOf(c)), p)) == multiset(KeptOf(c, l))
  {
    var rs := MostRecentFirst(RecordsOf(c));
    var kept := KeptOf(c, l);
    forall r
      ensures multiset(Where(rs, p))[r] == multiset(kept)[r]
    {
      hide *;
      InKept(c, l, r);
      WhereCounts(rs, p, r);
      assert r in multiset(rs) <==> r in rs;
      assert r in multiset(kept) <==> r in kept;
    }
  }

  lemma PrunedWellFormed(c: Caches, l: Limits)
    requires WellFormed(c)
    ensures WellFormed(Pruned(c, l))
    ensures forall url :: url in Pruned(c, l).order <==> url in c.order && RecordOf(c, url) in KeptOf(c, l)
  {
    hide KeptOf, RecordOf;
    var live := Urls(KeptOf(c, l));
    KeptUrls(c, l);
    WhereMembers(c.order, url => url in live);
    WhereKeepsDistinct(c.order, url => url in live);
  }

  lemma LeftRecords(c: Caches, d: Caches, live: set<string>)
    requires d == Restrict(c, live)
    ensures RecordsOf(d) == Where(RecordsOf(c), (r: Record) => r.url in live)
  {
    SelectWhere(c.order, url => url in live, (r: Record) => r.url in live, url => RecordOf(c, url),
        url => RecordOf(d, url));
  }

  /** After a prune the stores hold exactly the kept records. */
  lemma LeftIsKept(c: Caches, l: Limits)
    requires WellFormed(c)
    ensures multiset(RecordsOf(Pruned(c, l))) == multiset(KeptOf(c, l))
  {
    hide KeptOf, RecordsOf, MostRecentFirst;
    var live := Urls(KeptOf(c, l));
    var p := (r: Record) => r.url in live;
    LeftRecords(c, Pruned(c, l), live);
    SortedRecords(c);
    WherePermutes(MostRecentFirst(RecordsOf(c)), RecordsOf(c), p);
    KeptIsSelected(c, l, p);
  }

  // ---- what a prune guarantees ----

  /** The number of entries and their recorded size are within the limits. */
  lemma PruneFits(c: Caches, l: Limits)
    requires WellFormed(c)
    ensures |Pruned(c, l).order| <= l.entries && Bytes(RecordsOf(Pruned(c, l))) <= l.bytes
  {
    hide RecordsOf, MostRecentFirst, Kept, Pruned;
    var d := Pruned(c, l);
    PrunedWellFormed(c, l);
    LeftIsKept(c, l);
    KeptIsBounded(MostRecentFirst(RecordsOf(c)), 0, 0, l);
    SumPermutes(RecordsOf(d), KeptOf(c, l), (r: Record) => r.bytes);
    RecordsAreOfTheirUrl(d);
    assert |RecordsOf(d)| == |multiset(RecordsOf(d))| == |KeptOf(c, l)|;
  }

  /** Nothing expired is left, what is left is as it was, and both stores hold the same addresses unless a body
      without metadata was kept, which no clock past the age limit allows. */
  lemma PruneLeavesStoresAlike(c: Caches, l: Limits)
    requires WellFormed(c)
    ensures var d := Pruned(c, l);
      && WellFormed(d)
      && (forall url :: url in d.order ==>
            url in c.order && !Expired(RecordOf(d, url), l) && d.bodies[url] == c.bodies[url])
      && d.metas.Keys <= d.bodies.Keys
      && (d.metas.Keys == d.bodies.Keys <==> forall url :: url in d.order ==> url in c.metas)
      && (l.now > MAX_ASSET_AGE ==> d.metas.Keys == d.bodies.Keys)
  {
    var d := Pruned(c, l);
    PrunedWellFormed(c, l);
    KeptIsBounded(MostRecentFirst(RecordsOf(c)), 0, 0, l);
    KeptUrls(c, l);
    hide KeptOf, Kept, MostRecentFirst, RecordsOf, Where;
    assert forall url :: url in d.order ==> RecordOf(d, url) == RecordOf(c, url);
  }

  /** An unexpired address that was dropped no longer fits beside what is left of the more recently used ones. */
  lemma PruneIsMaximal(c: Caches, l: Limits, url: string)
    requires WellFormed(c) && url in c.order && url !in Pruned(c, l).order && !Expired(RecordOf(c, url), l)
    ensures var recent := AtLeastAsRecent(RecordsOf(Pruned(c, l)), RecordOf(c, url));
      |recent| >= l.entries || Bytes(recent) + RecordOf(c, url).bytes > l.bytes
  {
    var r := RecordOf(c, url);
    PrunedWellFormed(c, l);
    SortedRecords(c);
    RefusedForRecentOnes(MostRecentFirst(RecordsOf(c)), 0, 0, l, r);
    LeftIsKept(c, l);
    hide KeptOf, RecordsOf, RecordOf, MostRecentFirst, Pruned;
    var left, kept := AtLeastAsRecent(RecordsOf(Pruned(c, l)), r), AtLeastAsRecent(KeptOf(c, l), r);
    WherePermutes(RecordsOf(Pruned(c, l)), KeptOf(c, l), (x: Record) => x.lastUsed >= r.lastUsed);
    SumPermutes(left, kept, (r: Record) => r.bytes);
    assert |left| == |multiset(left)| == |kept|;
  }

  /** An unexpired address is dropped only from a full cache: as many entries as allowed, or less than the largest
      asset short of the size limit. */
  lemma DroppedOnlyWhenFull(c: Caches, l: Limits, url: string)
    requires WellFormed(c) && url in c.order && url !in Pruned(c, l).order && !Expired(RecordOf(c, url), l)
    requires RecordOf(c, url).bytes <= LARGEST_ASSET
    ensures |Pruned(c, l).order| == l.entries || Bytes(RecordsOf(Pruned(c, l))) + LARGEST_ASSET > l.bytes
  {
    var left := RecordsOf(Pruned(c, l));
    var r := RecordOf(c, url);
    PruneIsMaximal(c, l, url);
    PruneFits(c, l);
    PrunedWellFormed(c, l);
    RecordsAreOfTheirUrl(Pruned(c, l));
    hide Pruned, RecordsOf;
    WhereKeepsAll(left, (x: Record) => x.lastUsed >= r.lastUsed);
    SumWhere(left, (x: Record) => x.lastUsed >= r.lastUsed, (x: Record) => x.bytes,
             (x: Record) => if x.lastUsed >= r.lastUsed then x.bytes else 0);
    SumMonotone(left, (x: Record) => if x.lastUsed >= r.lastUsed then x.bytes else 0, (x: Record) => x.bytes);
  }

  /** The most recently used address survives, if it is within the limits on its own. */
  lemma MostRecentSurvives(c: Caches, l: Limits, url: string)
    requires WellFormed(c) && url in c.order && !Expired(RecordOf(c, url), l)
    requires l.entries > 0 && RecordOf(c, url).bytes <= l.bytes
    requires forall other :: other in c.order && other != url ==>
      RecordOf(c, other).lastUsed < RecordOf(c, url).lastUsed
    ensures url in Pruned(c, l).order
  {
    var rs := MostRecentFirst(RecordsOf(c));
    SortedRecords(c);
    PrunedWellFormed(c, l);
    assert RecordOf(c, url) in rs;
    assert rs[0] in rs;
    assert rs[0] == RecordOf(c, url);
    assert Kept(rs, 0, 0, l)[0] == rs[0];
  }

  /** Pruning what was just pruned changes nothing. */
  lemma PruneTwice(c: Caches, l: Limits)
    requires WellFormed(c)
    ensures Pruned(Pruned(c, l), l) == Pruned(c, l)
  {
    var d := Pruned(c, l);
    PruneFits(c, l);
    PruneLeavesStoresAlike(c, l);
    AllFitAllStay(d, l);
  }

  lemma AllFitAllStay(d: Caches, l: Limits)
    requires WellFormed(d) && |d.order| <= l.entries && Bytes(RecordsOf(d)) <= l.bytes
    requires forall url :: url in d.order ==> !Expired(RecordOf(d, url), l)
    requires d.metas.Keys <= d.bodies.Keys
    ensures Pruned(d, l) == d
  {
    var rs := MostRecentFirst(RecordsOf(d));
    SortedRecords(d);
    RecordsAreOfTheirUrl(d);
    SumPermutes(rs, RecordsOf(d), (r: Record) => r.bytes);
    assert |rs| == |multiset(rs)| == |RecordsOf(d)|;
    FittingAreKept(rs, 0, 0, l);
    AllStay(d, rs);
  }

  lemma AllStay(d: Caches, rs: seq<Record>)
    requires WellFormed(d) && d.metas.Keys <= d.bodies.Keys
    requires forall r :: r in rs <==> r.url in d.order && r == RecordOf(d, r.url)
    ensures Restrict(d, Urls(rs)) == d
  {
    hide WellFormed, RecordOf;
    UrlOfRecord(d);
    forall url | url in d.order
      ensures url in Urls(rs)
    {
      assert RecordOf(d, url) in rs;
    }
    RestrictAll(d, Urls(rs));
  }

  lemma RestrictAll(d: Caches, live: set<string>)
    requires WellFormed(d) && d.metas.Keys <= d.bodies.Keys
    requires forall url :: url in d.order ==> url in live
    ensures Restrict(d, live) == d
  {
    WhereAll(d.order, url => url in live);
    assert forall url :: url in d.bodies ==> url in live;
    hide WellFormed, Where;
    assert (map url | url in d.bodies && url in live :: d.bodies[url]) == d.bodies;
    assert (map url | url in d.metas && url in live :: d.metas[url]) == d.metas;
  }

  lemma UrlOfRecord(d: Caches)
    ensures forall url :: RecordOf(d, url).url == url
  {
  }

  /** Eviction is not a prefix of the order of use: a smaller, older record may stay where a larger one went. */
  lemma EvictionIsNotAPrefix()
    ensures var newest, middle, oldest := Record("a", 6, 30), Record("b", 5, 20), Record("c", 4, 10);
      Kept([newest, middle, oldest], 0, 0, Limits(40, 3, 10)) == [newest, oldest]
  {
    var newest, middle, oldest := Record("a", 6, 30), Record("b", 5, 20), Record("c", 4, 10);
    var l := Limits(40, 3, 10);
    assert Kept([oldest], 1, 6, l) == [oldest] + Kept([], 2, 10, l);
    assert [middle, oldest][1..] == [oldest] && [newest, middle, oldest][1..] == [middle, oldest];
    assert Kept([middle, oldest], 1, 6, l) == Kept([oldest], 1, 6, l);
  }

  lemma {:induction false} InsertIsStable(s: seq<Record>, r: Record, used: int)
    requires RecentFirst(s)
    ensures Where(InsertByUse(s, r), (x: Record) => x.lastUsed == used)
         == Where(s, (x: Record) => x.lastUsed == used) + if r.lastUsed == used then [r] else []
  {
    var same := (x: Record) => x.lastUsed == used;
    if s != [] && s[0].lastUsed >= r.lastUsed {
      assert InsertByUse(s, r)[1..] == InsertByUse(s[1..], r);
      InsertIsStable(s[1..], r, used);
    } else if s != [] {
      assert ([r] + s)[1..] == s;
      if r.lastUsed == used {
        assert forall x :: x in s ==> x.lastUsed < used;
        WhereNone(s, same);
      }
    }
  }

  lemma {:induction false} WhereNone(s: seq<Record>, p: Record -> bool)
    requires forall x :: x in s ==> !p(x)
    ensures Where(s, p) == []
  {
    if s != [] {
      assert s[0] in s && forall x :: x in s[1..] ==> x in s;
      WhereNone(s[1..], p);
    }
  }

  lemma {:induction false} WhereSnoc(s: seq<Record>, r: Record, p: Record -> bool)
    ensures Where(s + [r], p) == Where(s, p) + if p(r) then [r] else []
  {
    if s == [] {
      assert s + [r] == [r] && [r][1..] == [];
    } else {
      var first := if p(s[0]) then [s[0]] else [];
      assert (s + [r])[1..] == s[1..] + [r];
      WhereSnoc(s[1..], r, p);
      assert first + (Where(s[1..], p) + if p(r) then [r] else []) == Where(s, p) + if p(r) then [r] else [];
    }
  }

  /** STABLE. Records used at the same time keep the order in which they were put. */
  lemma {:induction false} SortIsStable(s: seq<Record>, used: int)
    ensures Where(MostRecentFirst(s), (x: Record) => x.lastUsed == used)
         == Where(s, (x: Record) => x.lastUsed == used)
  {
    if s != [] {
      var n := |s| - 1;
      assert s == s[..n] + [s[n]];
      assert MostRecentFirst(s) == InsertByUse(MostRecentFirst(s[..n]), s[n]);
      hide Where, InsertByUse, MostRecentFirst;
      SortIsStable(s[..n], used);
      SortSorts(s[..n]);
      InsertIsStable(MostRecentFirst(s[..n]), s[n], used);
      WhereSnoc(s[..n], s[n], (x: Record) => x.lastUsed == used);
    }
  }

  /** EXACT. A lone asset that fits stays until thirty days after its last use, and not a millisecond longer; without
      metadata it counts as never used and as having no size. */
  lemma LoneAssetStaysExactly(url: string, size: nat, meta: Meta, now: int, l: Limits)
    requires l.now == now && l.entries > 0
    ensures url in Pruned(Caches([url], map[url := size], map[url := meta]), l).order
      <==> now - meta.lastUsed <= 30 * 24 * 60 * 60 * 1000 && meta.bytes <= l.bytes
    ensures url in Pruned(Caches([url], map[url := size], map[]), l).order <==> now <= 30 * 24 * 60 * 60 * 1000
  {
    LoneRecord(Caches([url], map[url := size], map[url := meta]), url, l);
    LoneRecord(Caches([url], map[url := size], map[]), url, l);
  }

  lemma LoneRecord(c: Caches, url: string, l: Limits)
    requires c.order == [url]
    ensures url in Pruned(c, l).order <==> !Refused(RecordOf(c, url), 0, 0, l)
  {
    var r := RecordOf(c, url);
    assert c.order[1..] == [];
    assert Select<string, Record>([], u => RecordOf(c, u)) == [];
    assert RecordsOf(c) == [r];
    assert [r][..0] == [] && MostRecentFirst([r]) == InsertByUse([], r) == [r];
    assert [r][1..] == [] && Kept([], 1, r.bytes, l) == [] && Kept([], 0, 0, l) == [];
    assert KeptOf(c, l) == if Refused(r, 0, 0, l) then [] else [r];
    var live := Urls(KeptOf(c, l));
    assert Where(c.order, u => u in live) == if url in live then [url] else [];
  }
}
