/** Writing to the asset cache: the prune loop, storing with its retry, and the touches that may interleave. */
module AssetCacheWrites {
  import opened AssetCache
  import opened Options
  import opened Rows
  import opened Sequences

  const RETRY_ENTRIES: nat := 120
  const RETRY_BYTES: nat := 60 * 1024 * 1024

  // ---- the writes, as functions of the stores ----

  function PutBody(c: Caches, url: string, size: nat): Caches {
    c.(order := Remaining(c.order, {url}) + [url], bodies := c.bodies[url := size])
  }

  function PutMeta(c: Caches, url: string, m: Meta): Caches {
    c.(metas := c.metas[url := m])
  }

  function DropBody(c: Caches, url: string): Caches {
    c.(order := Remaining(c.order, {url}), bodies := c.bodies - {url})
  }

  function DropMeta(c: Caches, url: string): Caches {
    c.(metas := c.metas - {url})
  }

  /** Which of the writes of one store go through: the body, the body after making room, the metadata. */
  datatype Fate = Fate(first: bool, second: bool, meta: bool)

  function Usual(now: int): Limits {
    Limits(now, MAX_ASSET_ENTRIES, MAX_ASSET_BYTES)
  }

  function WithBody(c: Caches, url: string, size: nat, now: int, fate: Fate): Option<Caches> {
    if fate.first then Some(PutBody(c, url, size))
    else if fate.second then Some(PutBody(Pruned(c, Limits(now, RETRY_ENTRIES, RETRY_BYTES)), url, size))
    else None
  }

  /** The stores after storing a response, and whether the promise is fulfilled. */
  function Stored(c: Caches, url: string, size: nat, now: int, fate: Fate): (Caches, bool) {
    if size > LARGEST_ASSET then (c, true)
    else
      match WithBody(c, url, size, now, fate)
      case None => (Pruned(c, Limits(now, RETRY_ENTRIES, RETRY_BYTES)), false)
      case Some(d) =>
        if fate.meta then (Pruned(PutMeta(d, url, Meta(size, now)), Usual(now)), true) else (d, false)
  }

  /** The size a touch writes back: the recorded one, or that of the body it was served. */
  function ReadForTouch(c: Caches, url: string): Option<nat> {
    if url !in c.bodies then None
    else if url in c.metas then Some(c.metas[url].bytes)
    else Some(c.bodies[url])
  }

  /** The addresses of a list that are not among `gone`, in their order. */
  function Remaining(order: seq<string>, gone: set<string>): seq<string> {
    if order == [] then [] else (if order[0] in gone then [] else [order[0]]) + Remaining(order[1..], gone)
  }

  lemma {:induction false} RemainingSnoc(order: seq<string>, x: string, gone: set<string>)
    ensures Remaining(order + [x], gone) == Remaining(order, gone) + if x in gone then [] else [x]
  {
    if order != [] {
      assert (order + [x])[1..] == order[1..] + [x];
      RemainingSnoc(order[1..], x, gone);
    }
  }

  lemma {:induction false} RemainingOneMore(order: seq<string>, gone: set<string>, url: string)
    ensures Remaining(order, {}) == order
    ensures Remaining(Remaining(order, gone), {url}) == Remaining(order, gone + {url})
  {
    if order != [] {
      RemainingOneMore(order[1..], gone, url);
      assert order[0] !in gone ==> Remaining(order, gone)[1..] == Remaining(order[1..], gone);
      assert order[0] in gone ==> Remaining(order, gone) == Remaining(order[1..], gone);
    }
  }

  lemma {:induction false} RemainingWhere(order: seq<string>, gone: set<string>, p: string -> bool)
    requires forall url :: url in order ==> (p(url) <==> url !in gone)
    ensures Remaining(order, gone) == Where(order, p)
  {
    if order != [] {
      assert order[0] in order;
      assert forall x :: x in order[1..] ==> x in order;
      RemainingWhere(order[1..], gone, p);
    }
  }

  // ---- the same, in place ----

  class AssetStore {
    var order: seq<string>
    var bodies: map<string, nat>
    var metas: map<string, Meta>

    function State(): Caches
      reads this
    {
      Caches(order, bodies, metas)
    }

    method ReadRecords() returns (records: seq<Record>)
      requires WellFormed(State())
      ensures records == RecordsOf(State())
    {
      var c := State();
      records := [];
      for i := 0 to |order|
        invariant records == Select(order[..i], url => RecordOf(c, url))
      {
        records := records + [RecordOf(c, order[i])];
        assert order[..i + 1] == order[..i] + [order[i]];
        SelectSnoc(order[..i], order[i], url => RecordOf(c, url));
      }
      assert order[..|order|] == order;
    }

    method Delete(url: string)
      modifies this
      ensures order == Remaining(old(order), {url})
      ensures bodies == old(bodies) - {url} && metas == old(metas) - {url}
    {
      var left := [];
      for i := 0 to |order|
        invariant order == old(order) && bodies == old(bodies) && metas == old(metas)
        invariant left == Remaining(order[..i], {url})
      {
        assert order[..i + 1] == order[..i] + [order[i]];
        RemainingSnoc(order[..i], order[i], {url});
        if order[i] != url {
          left := left + [order[i]];
        }
      }
      assert order[..|order|] == order;
      order := left;
      bodies := bodies - {url};
      metas := metas - {url};
    }

    /** The greedy pass over the records, most recently used first. */
    method Evict(records: seq<Record>, l: Limits)
      requires forall i, j :: 0 <= i < j < |records| ==> records[i].url != records[j].url
      modifies this
      ensures var gone := Urls(records) - Urls(Kept(records, 0, 0, l));
        && order == Remaining(old(order), gone)
        && bodies == old(bodies) - gone && metas == old(metas) - gone
    {
      hide *;
      var count: nat, bytes: nat := 0, 0;
      ghost var kept, gone := [], {};
      PassStarts(records, l);
      RemainingOneMore(order, gone, "");
      for i := 0 to |records|
        invariant Pass(records, i, kept, gone, count, bytes, l)
        invariant order == Remaining(old(order), gone)
        invariant bodies == old(bodies) - gone && metas == old(metas) - gone
      {
        var record := records[i];
        PassSteps(records, i, kept, gone, count, bytes, l);
        if Refused(record, count, bytes, l) {
          Delete(record.url);
          RemainingOneMore(old(order), gone, record.url);
          gone := gone + {record.url};
        } else {
          count, bytes := count + 1, bytes + record.bytes;
          kept := kept + [record];
        }
      }
      PassEnds(records, kept, gone, count, bytes, l);
    }

    /** Metadata whose body is gone is removed. */
    method DropOrphans()
      modifies this`metas
      ensures metas == map url | url in old(metas) && url in bodies :: old(metas)[url]
    {
      var rest := metas.Keys;
      while rest != {}
        invariant rest <= old(metas).Keys
        invariant metas == map url | url in old(metas) && (url in bodies || url in rest) :: old(metas)[url]
        decreases |rest|
      {
        var url :| url in rest;
        if url !in bodies {
          metas := metas - {url};
        }
        rest := rest - {url};
      }
    }

    method Prune(l: Limits)
      requires WellFormed(State())
      modifies this
      ensures State() == Pruned(old(State()), l)
    {
      var records := ReadRecords();
      var sorted := MostRecentFirst(records);
      SortedUrlsDiffer(State());
      assert sorted == MostRecentFirst(RecordsOf(State()));
      hide Pruned;
      Evict(sorted, l);
      DropOrphans();
      WhatIsLeft(old(State()), l, State());
    }

    /** storeAsset: stores of one worker run one after the other. */
    method Store(url: string, size: nat, now: int, fate: Fate) returns (ok: bool)
      requires WellFormed(State())
      modifies this
      ensures WellFormed(State())
      ensures (State(), ok) == Stored(old(State()), url, size, now, fate)
      ensures ok <==> size > 8 * 1024 * 1024 || ((fate.first || fate.second) && fate.meta)
      ensures size > 8 * 1024 * 1024 ==> State() == old(State())
      ensures size <= 8 * 1024 * 1024 && !fate.first && !fate.second ==>
        State() == Pruned(old(State()), Limits(now, 120, 60 * 1024 * 1024))
    {
      if size > LARGEST_ASSET {
        return true;
      }
      if !fate.first {
        PrunedWellFormed(State(), Limits(now, RETRY_ENTRIES, RETRY_BYTES));
        Prune(Limits(now, RETRY_ENTRIES, RETRY_BYTES));
        if !fate.second {
          return false;
        }
      }
      hide Pruned;
      PutWellFormed(State(), url, size);
      order, bodies := Remaining(order, {url}) + [url], bodies[url := size];
      if !fate.meta {
        return false;
      }
      metas := metas[url := Meta(size, now)];
      PrunedWellFormed(State(), Usual(now));
      Prune(Usual(now));
      return true;
    }

    /** cachedAsset, when nothing comes between its reads and its write. A metadata store that fails hides no body. */
    method Touch(url: string, now: int, written: bool) returns (hit: bool)
      modifies this`metas
      ensures hit == (url in bodies)
      ensures match ReadForTouch(old(State()), url)
        case None => State() == old(State())
        case Some(bytes) => State() == if written then PutMeta(old(State()), url, Meta(bytes, now)) else old(State())
    {
      hit := url in bodies;
      if hit && written {
        var bytes := if url in metas then metas[url].bytes else bodies[url];
        metas := metas[url := Meta(bytes, now)];
      }
    }
  }

  /** The greedy pass after `i` records. */
  ghost predicate Pass(
    records: seq<Record>, i: nat, kept: seq<Record>, gone: set<string>, count: nat, bytes: nat, l: Limits)
  {
    && i <= |records|
    && Kept(records, 0, 0, l) == kept + Kept(records[i..], count, bytes, l)
    && gone !! Urls(kept) && gone + Urls(kept) == Urls(records[..i])
  }

  lemma PassStarts(records: seq<Record>, l: Limits)
    ensures Pass(records, 0, [], {}, 0, 0, l)
  {
    assert records[0..] == records;
  }

  lemma PassSteps(
    records: seq<Record>, i: nat, kept: seq<Record>, gone: set<string>, count: nat, bytes: nat, l: Limits)
    requires Pass(records, i, kept, gone, count, bytes, l) && i < |records|
    requires forall i, j :: 0 <= i < j < |records| ==> records[i].url != records[j].url
    ensures if Refused(records[i], count, bytes, l)
            then Pass(records, i + 1, kept, gone + {records[i].url}, count, bytes, l)
            else Pass(records, i + 1, kept + [records[i]], gone, count + 1, bytes + records[i].bytes, l)
  {
    assert records[i..][1..] == records[i + 1..];
    assert records[..i + 1] == records[..i] + [records[i]];
    assert Urls(records[..i + 1]) == Urls(records[..i]) + {records[i].url};
    assert Urls(kept + [records[i]]) == Urls(kept) + {records[i].url};
    assert records[i].url !in Urls(records[..i]);
  }

  lemma PassEnds(records: seq<Record>, kept: seq<Record>, gone: set<string>, count: nat, bytes: nat, l: Limits)
    requires Pass(records, |records|, kept, gone, count, bytes, l)
    ensures gone == Urls(records) - Urls(Kept(records, 0, 0, l))
  {
    assert records[..|records|] == records && records[|records|..] == [];
    assert kept + [] == kept;
  }

  lemma SortedUrlsDiffer(c: Caches)
    requires WellFormed(c)
    ensures var rs := MostRecentFirst(RecordsOf(c));
      forall i, j :: 0 <= i < j < |rs| ==> rs[i].url != rs[j].url
  {
    SortedRecords(c);
    CountsDistinct(MostRecentFirst(RecordsOf(c)));
  }

  lemma RemainingMembers(order: seq<string>, gone: set<string>)
    ensures forall url :: url in Remaining(order, gone) <==> url in order && url !in gone
    ensures Distinct(order) ==> Distinct(Remaining(order, gone))
  {
    RemainingWhere(order, gone, url => url !in gone);
    WhereMembers(order, url => url !in gone);
    if Distinct(order) {
      WhereKeepsDistinct(order, url => url !in gone);
    }
  }

  lemma PutWellFormed(c: Caches, url: string, size: nat)
    requires WellFormed(c)
    ensures WellFormed(PutBody(c, url, size)) && WellFormed(DropBody(c, url))
  {
    RemainingMembers(c.order, {url});
  }

  lemma {:induction false} SelectSnoc<T(!new), U(!new)>(s: seq<T>, x: T, f: T -> U)
    ensures Select(s + [x], f) == Select(s, f) + [f(x)]
  {
    if s != [] {
      assert (s + [x])[1..] == s[1..] + [x];
      SelectSnoc(s[1..], x, f);
    }
  }

  lemma WhatIsLeft(c: Caches, l: Limits, d: Caches)
    requires WellFormed(c)
    requires var gone := Urls(MostRecentFirst(RecordsOf(c))) - Urls(KeptOf(c, l));
      && d.order == Remaining(c.order, gone)
      && d.bodies == c.bodies - gone
      && d.metas == map url | url in c.metas - gone && url in c.bodies - gone :: c.metas[url]
    ensures d == Pruned(c, l)
  {
    SortedRecords(c);
    KeptUrls(c, l);
    var sorted, kept := Urls(MostRecentFirst(RecordsOf(c))), Urls(KeptOf(c, l));
    forall url | url in c.order
      ensures url in sorted
    {
      assert RecordOf(c, url) in MostRecentFirst(RecordsOf(c));
    }
    hide MostRecentFirst, RecordsOf, KeptOf, Urls;
    LeftIsRestricted(c, sorted - kept, kept, d);
  }

  lemma LeftIsRestricted(c: Caches, gone: set<string>, kept: set<string>, d: Caches)
    requires WellFormed(c)
    requires forall url :: url in kept ==> url in c.order
    requires forall url :: url in c.order ==> (url in gone <==> url !in kept)
    requires d.order == Remaining(c.order, gone)
    requires d.bodies == c.bodies - gone
    requires d.metas == map url | url in c.metas - gone && url in c.bodies - gone :: c.metas[url]
    ensures d == Restrict(c, kept)
  {
    RemainingWhere(c.order, gone, url => url in kept);
    assert d.bodies == Restrict(c, kept).bodies;
    assert d.metas == Restrict(c, kept).metas;
  }

  // ---- every interleaving ----

  /** A touch on its way: it was served a body, then found the size it will write back. */
  datatype Touch = Served(url: string, size: nat) | Measured(url: string, size: nat)

  datatype System = System(caches: Caches, touches: map<nat, Touch>)

  /** The single calls that stores, prunes, touches and the browser's own eviction are made of. */
  datatype Step =
    | PuttingBody(url: string, size: nat)
    | PuttingMeta(url: string, size: nat, now: int)
    | DroppingBody(url: string)
    | DroppingMeta(url: string)
    | Serving(id: nat, url: string)
    | Measuring(id: nat)
    | WritingBack(id: nat, now: int)
    | GivingUp(id: nat)

  function Next(s: System, step: Step): System {
    match step
    case PuttingBody(url, size) => s.(caches := PutBody(s.caches, url, size))
    case PuttingMeta(url, size, now) => s.(caches := PutMeta(s.caches, url, Meta(size, now)))
    case DroppingBody(url) => s.(caches := DropBody(s.caches, url))
    case DroppingMeta(url) => s.(caches := DropMeta(s.caches, url))
    case Serving(id, url) =>
      if url in s.caches.bodies then s.(touches := s.touches[id := Served(url, s.caches.bodies[url])]) else s
    case Measuring(id) =>
      if id in s.touches && s.touches[id].Served? then
        var url := s.touches[id].url;
        s.(touches := s.touches[id := Measured(url, SizeToWrite(s.caches, s.touches[id]))])
      else s
    case WritingBack(id, now) =>
      if id in s.touches && s.touches[id].Measured?
      then System(PutMeta(s.caches, s.touches[id].url, Meta(s.touches[id].size, now)), s.touches - {id})
      else s
    case GivingUp(id) => s.(touches := s.touches - {id})
  }

  /** The recorded size, or that of the body it was served when there is no record. */
  function SizeToWrite(c: Caches, t: Touch): nat {
    if t.url in c.metas then c.metas[t.url].bytes else t.size
  }

  function Run(s: System, steps: seq<Step>): System
    decreases |steps|
  {
    if steps == [] then s else Run(Next(s, steps[0]), steps[1..])
  }

  lemma {:induction false} RunAppend(s: System, a: seq<Step>, b: seq<Step>)
    ensures Run(s, a + b) == Run(Run(s, a), b)
    decreases |a|
  {
    hide Next;
    if a == [] {
      assert a + b == b;
    } else {
      assert (a + b)[1..] == a[1..] + b;
      RunAppend(Next(s, a[0]), a[1..], b);
    }
  }

  // ---- a store and a prune are runs of such steps ----

  predicate Dropping(steps: seq<Step>) {
    forall step :: step in steps ==> step.DroppingBody? || step.DroppingMeta?
  }

  lemma {:induction false} Listing(urls: set<string>) returns (list: seq<string>)
    ensures forall url :: url in list <==> url in urls
  {
    if urls == {} {
      list := [];
    } else {
      var url :| url in urls;
      list := Listing(urls - {url});
      list := [url] + list;
      assert forall x :: x in urls <==> x == url || x in urls - {url};
    }
  }

  lemma {:induction false} DropAll(s: System, urls: seq<string>, gone: set<string>) returns (steps: seq<Step>)
    requires forall url :: url in urls <==> url in gone
    ensures Dropping(steps)
    ensures Run(s, steps)
         == s.(caches := Caches(Remaining(s.caches.order, gone), s.caches.bodies - gone, s.caches.metas - gone))
    decreases |urls|
  {
    RemainingOneMore(s.caches.order, gone, "");
    if urls == [] {
      steps := [];
      assert gone == {};
    } else {
      var url := urls[0];
      var rest := set x | x in urls[1..];
      assert gone == {url} + rest;
      var s1 := Next(s, DroppingBody(url));
      var s2 := Next(s1, DroppingMeta(url));
      var later := DropAll(s2, urls[1..], rest);
      steps := [DroppingBody(url)] + ([DroppingMeta(url)] + later);
      assert steps[1..] == [DroppingMeta(url)] + later && ([DroppingMeta(url)] + later)[1..] == later;
      RemainingTwice(s.caches.order, {url}, rest);
    }
  }

  lemma {:induction false} RemainingTwice(order: seq<string>, gone: set<string>, more: set<string>)
    ensures Remaining(Remaining(order, gone), more) == Remaining(order, gone + more)
  {
    if order != [] {
      RemainingTwice(order[1..], gone, more);
      assert order[0] !in gone ==> Remaining(order, gone)[1..] == Remaining(order[1..], gone);
      assert order[0] in gone ==> Remaining(order, gone) == Remaining(order[1..], gone);
    }
  }

  lemma {:induction false} DropMetas(s: System, urls: seq<string>, gone: set<string>) returns (steps: seq<Step>)
    requires forall url :: url in urls <==> url in gone
    ensures Dropping(steps)
    ensures Run(s, steps) == s.(caches := s.caches.(metas := s.caches.metas - gone))
    decreases |urls|
  {
    if urls == [] {
      steps := [];
      assert gone == {};
    } else {
      var rest := set x | x in urls[1..];
      assert gone == {urls[0]} + rest;
      var later := DropMetas(Next(s, DroppingMeta(urls[0])), urls[1..], rest);
      steps := [DroppingMeta(urls[0])] + later;
      assert steps[1..] == later;
    }
  }

  /** What an undisturbed prune does is a run of single deletions. */
  lemma PruneIsSteps(s: System, l: Limits) returns (steps: seq<Step>)
    requires WellFormed(s.caches)
    ensures Dropping(steps) && Run(s, steps) == s.(caches := Pruned(s.caches, l))
  {
    hide Urls, MostRecentFirst, RecordsOf, KeptOf, Pruned, Run, WellFormed, Remaining;
    var c := s.caches;
    var gone := Urls(MostRecentFirst(RecordsOf(c))) - Urls(KeptOf(c, l));
    var refused := Listing(gone);
    var drops := DropAll(s, refused, gone);
    var t := Run(s, drops);
    var orphaned := t.caches.metas.Keys - t.caches.bodies.Keys;
    var orphans := Listing(orphaned);
    var rest := DropMetas(t, orphans, orphaned);
    var d := Run(t, rest).caches;
    assert d.metas == map url | url in c.metas - gone && url in c.bodies - gone :: c.metas[url];
    WhatIsLeft(c, l, d);
    RunAppend(s, drops, rest);
    steps := drops + rest;
  }

  /** Wherever a prune is cut short, and whatever the clock says at each record, it only drops: what is left of both
      stores is as it was. */
  lemma {:induction false} DropsOnlyDrop(s: System, steps: seq<Step>)
    requires WellFormed(s.caches) && Dropping(steps)
    ensures var c, d := s.caches, Run(s, steps).caches;
      && WellFormed(d) && d.bodies.Keys <= c.bodies.Keys && d.metas.Keys <= c.metas.Keys
      && (forall url :: url in d.bodies ==> d.bodies[url] == c.bodies[url])
      && (forall url :: url in d.metas ==> d.metas[url] == c.metas[url])
    ensures Run(s, steps).touches == s.touches
    decreases |steps|
  {
    hide Remaining, WellFormed;
    if steps != [] {
      assert steps[0] in steps && forall step :: step in steps[1..] ==> step in steps;
      DroppedWellFormed(s.caches, steps[0].url);
      DropsOnlyDrop(Next(s, steps[0]), steps[1..]);
    }
  }

  lemma DroppedWellFormed(c: Caches, url: string)
    requires WellFormed(c)
    ensures WellFormed(DropBody(c, url)) && WellFormed(DropMeta(c, url))
  {
    PutWellFormed(c, url, 0);
  }

  /** What an undisturbed store does is a run of single calls. */
  lemma StoreIsSteps(s: System, url: string, size: nat, now: int, fate: Fate) returns (steps: seq<Step>)
    requires WellFormed(s.caches)
    ensures Run(s, steps) == s.(caches := Stored(s.caches, url, size, now, fate).0)
    ensures forall step | step in steps ::
      step == PuttingBody(url, size) || step == PuttingMeta(url, size, now) || step.DroppingBody? || step.DroppingMeta?
  {
    hide Pruned, PutBody, PutMeta, WellFormed;
    if size > LARGEST_ASSET { return []; }
    var room := [];
    if !fate.first {
      PrunedWellFormed(s.caches, Limits(now, RETRY_ENTRIES, RETRY_BYTES));
      room := PruneIsSteps(s, Limits(now, RETRY_ENTRIES, RETRY_BYTES));
      if !fate.second { return room; }
    }
    var s1 := Run(s, room);
    PutWellFormed(s1.caches, url, size);
    var body := [PuttingBody(url, size)];
    RunAppend(s, room, body);
    assert Run(Next(s1, body[0]), body[1..]) == Next(s1, body[0]);
    if !fate.meta { return room + body; }
    var s2 := Run(s, room + body);
    var meta := [PuttingMeta(url, size, now)];
    PutMetaWellFormed(s2.caches, url, Meta(size, now));
    RunAppend(s, room + body, meta);
    assert Run(Next(s2, meta[0]), meta[1..]) == Next(s2, meta[0]);
    var s3 := Run(s, room + body + meta);
    var drops := PruneIsSteps(s3, Usual(now));
    RunAppend(s, room + body + meta, drops);
    steps := room + body + meta + drops;
  }

  lemma PutMetaWellFormed(c: Caches, url: string, m: Meta)
    requires WellFormed(c)
    ensures WellFormed(PutMeta(c, url, m))
  {
  }

  // ---- addresses that never change their bytes ----

  /** Each address always has the same bytes, as fingerprinted addresses do. */
  predicate Immutable(step: Step, sizeOf: string -> nat) {
    step.PuttingBody? || step.PuttingMeta? ==> step.size == sizeOf(step.url)
  }

  ghost predicate SizesRight(s: System, sizeOf: string -> nat) {
    && (forall url :: url in s.caches.bodies ==> s.caches.bodies[url] == sizeOf(url))
    && (forall url :: url in s.caches.metas ==> s.caches.metas[url].bytes == sizeOf(url))
    && (forall id :: id in s.touches ==> s.touches[id].size == sizeOf(s.touches[id].url))
  }

  /** As long as no address changes its bytes, the recorded sizes are right in every interleaving of the single
      calls of stores, prunes, touches, failures and losses. */
  lemma {:induction false} ImmutableAssetsStayRight(s: System, steps: seq<Step>, sizeOf: string -> nat)
    requires SizesRight(s, sizeOf)
    requires forall i :: 0 <= i < |steps| ==> Immutable(steps[i], sizeOf)
    ensures SizesRight(Run(s, steps), sizeOf)
    decreases |steps|
  {
    if steps != [] {
      assert Immutable(steps[0], sizeOf);
      ImmutableAssetsStayRight(Next(s, steps[0]), steps[1..], sizeOf);
    }
  }

  // ---- when recorded sizes go wrong ----

  predicate TruthfulAt(c: Caches, url: string) {
    url in c.bodies && url in c.metas ==> c.metas[url].bytes == c.bodies[url]
  }

  ghost predicate Truthful(c: Caches) {
    forall url :: url in c.bodies && url in c.metas ==> c.metas[url].bytes == c.bodies[url]
  }

  predicate ByTouch(step: Step, id: nat) {
    match step
    case Serving(i, _) => i == id
    case Measuring(i) => i == id
    case WritingBack(i, _) => i == id
    case GivingUp(i) => i == id
    case _ => false
  }

  predicate OthersOnly(steps: seq<Step>, id: nat) {
    forall i :: 0 <= i < |steps| ==> !ByTouch(steps[i], id)
  }

  /** The size of the body last put at an address and not dropped since, read off the calls alone. */
  function LastPut(steps: seq<Step>, url: string, start: Option<nat>): Option<nat> {
    if steps == [] then start
    else
      var last := steps[|steps| - 1];
      if last.PuttingBody? && last.url == url then Some(last.size)
      else if last.DroppingBody? && last.url == url then None
      else LastPut(steps[..|steps| - 1], url, start)
  }

  function BodyOf(c: Caches, url: string): Option<nat> {
    if url in c.bodies then Some(c.bodies[url]) else None
  }

  lemma RunSnoc(s: System, steps: seq<Step>)
    requires steps != []
    ensures Run(s, steps) == Next(Run(s, steps[..|steps| - 1]), steps[|steps| - 1])
  {
    var n := |steps| - 1;
    RunAppend(s, steps[..n], [steps[n]]);
    assert steps[..n] + [steps[n]] == steps;
    assert [steps[n]][1..] == [];
    assert Run(Run(s, steps[..n]), [steps[n]]) == Run(Next(Run(s, steps[..n]), steps[n]), []);
  }

  lemma {:induction false} BodiesAreLastPut(s: System, steps: seq<Step>, url: string)
    ensures BodyOf(Run(s, steps).caches, url) == LastPut(steps, url, BodyOf(s.caches, url))
  {
    if steps != [] {
      RunSnoc(s, steps);
      BodiesAreLastPut(s, steps[..|steps| - 1], url);
    }
  }

  lemma {:induction false} OthersKeepTouch(s: System, steps: seq<Step>, id: nat)
    requires OthersOnly(steps, id) && id in s.touches
    ensures id in Run(s, steps).touches && Run(s, steps).touches[id] == s.touches[id]
  {
    if steps != [] {
      RunSnoc(s, steps);
      OthersKeepTouch(s, steps[..|steps| - 1], id);
    }
  }

  lemma {:induction false} LastPutAppend(a: seq<Step>, b: seq<Step>, url: string, start: Option<nat>)
    ensures LastPut(a + b, url, start) == LastPut(b, url, LastPut(a, url, start))
    decreases |b|
  {
    if b == [] {
      assert a + b == a;
    } else {
      assert (a + b)[..|a + b| - 1] == a + b[..|b| - 1];
      LastPutAppend(a, b[..|b| - 1], url, start);
    }
  }

  /** LATE TOUCHES. A touch that is served a body, finds its size after some calls of others and writes it back
      after more, leaves the address truthful exactly when the body is gone by then, or the body last put in all
      that time has the size it found. */
  lemma TouchKeepsTruthExactlyWhen(s: System, id: nat, url: string, before: seq<Step>, after: seq<Step>, now: int)
    requires url in s.caches.bodies && OthersOnly(before, id) && OthersOnly(after, id)
    ensures
      var served := Next(s, Serving(id, url));
      var found := SizeToWrite(Run(served, before).caches, Served(url, s.caches.bodies[url]));
      var last := LastPut(before + after, url, Some(s.caches.bodies[url]));
      var end := Next(Run(Next(Run(served, before), Measuring(id)), after), WritingBack(id, now));
      TruthfulAt(end.caches, url) <==> last == None || last == Some(found)
  {
    var served := Next(s, Serving(id, url));
    var s2 := Run(served, before);
    OthersKeepTouch(served, before, id);
    BodiesAreLastPut(served, before, url);
    var s3 := Next(s2, Measuring(id));
    var s4 := Run(s3, after);
    OthersKeepTouch(s3, after, id);
    BodiesAreLastPut(s3, after, url);
    LastPutAppend(before, after, url, Some(s.caches.bodies[url]));
    hide Run, LastPut;
    assert s3.touches[id] == Measured(url, SizeToWrite(s2.caches, Served(url, s.caches.bodies[url])));
    var end := Next(s4, WritingBack(id, now));
    assert end.caches.bodies == s4.caches.bodies && end.caches.metas[url].bytes == s3.touches[id].size;
  }

  lemma PruneKeepsTruth(c: Caches, l: Limits)
    requires WellFormed(c) && Truthful(c)
    ensures WellFormed(Pruned(c, l)) && Truthful(Pruned(c, l))
  {
    PrunedWellFormed(c, l);
  }

  lemma PutAndTruth(c: Caches, url: string, size: nat, now: int)
    requires WellFormed(c) && Truthful(c)
    ensures Truthful(PutBody(c, url, size)) <==> (url in c.metas ==> c.metas[url].bytes == size)
    ensures Truthful(PutMeta(PutBody(c, url, size), url, Meta(size, now)))
    ensures WellFormed(PutMeta(PutBody(c, url, size), url, Meta(size, now)))
  {
    var d := PutBody(c, url, size);
    assert url in d.bodies && d.bodies[url] == size;
    PutWellFormed(c, url, size);
    PutMetaWellFormed(d, url, Meta(size, now));
  }

  /** A store goes wrong only by replacing a body of another size and then failing to write its metadata. */
  lemma StoreKeepsTruthExactlyWhen(c: Caches, url: string, size: nat, now: int, fate: Fate)
    requires WellFormed(c) && Truthful(c) && size <= LARGEST_ASSET
    ensures var before := if fate.first then c else Pruned(c, Limits(now, RETRY_ENTRIES, RETRY_BYTES));
      Truthful(Stored(c, url, size, now, fate).0) <==>
        ((fate.first || fate.second) && !fate.meta && url in before.metas ==> before.metas[url].bytes == size)
  {
    hide Pruned, Truthful, WellFormed, PutBody, PutMeta;
    var retry := Limits(now, RETRY_ENTRIES, RETRY_BYTES);
    PruneKeepsTruth(c, retry);
    var before := if fate.first then c else Pruned(c, retry);
    PutAndTruth(before, url, size, now);
    PruneKeepsTruth(PutMeta(PutBody(before, url, size), url, Meta(size, now)), Usual(now));
  }

  /** It happens: the body at an address is replaced by a longer one and the metadata is not written. */
  lemma StoreWithoutMetadataGoesWrong()
    ensures
      var url := "/icons/a.png";
      var c := Caches([url], map[url := 1], map[url := Meta(1, 50)]);
      WellFormed(c) && Truthful(c) && !Truthful(Stored(c, url, 2, 60, Fate(true, true, false)).0)
  {
    var url := "/icons/a.png";
    var c := Caches([url], map[url := 1], map[url := Meta(1, 50)]);
    assert WellFormed(c) && Truthful(c);
    StoreKeepsTruthExactlyWhen(c, url, 2, 60, Fate(true, true, false));
  }

  /** A store that completes keeps the body it puts, and its metadata. */
  lemma StoredBodyStays(c: Caches, url: string, size: nat, now: int)
    requires WellFormed(c) && size <= LARGEST_ASSET
    requires forall other :: other in c.metas ==> c.metas[other].lastUsed < now
    requires now > 0
    ensures var d := Stored(c, url, size, now, Fate(true, true, true)).0;
      url in d.bodies && d.bodies[url] == size
  {
    var e := PutMeta(PutBody(c, url, size), url, Meta(size, now));
    PutWellFormed(c, url, size);
    PutMetaWellFormed(PutBody(c, url, size), url, Meta(size, now));
    assert url in e.bodies && url in e.order;
    MostRecentSurvives(e, Usual(now), url);
    PruneLeavesStoresAlike(e, Usual(now));
  }

  /** A touch that finds its size before a store and writes it back after leaves the old size beside the new
      body, though every call succeeds and the stores were truthful up to its last one. */
  lemma TouchAcrossStoreGoesWrong()
    ensures
      var url := "/icons/a.png";
      var s := System(Caches([url], map[url := 1], map[url := Meta(1, 50)]), map[]);
      var touched := Next(Next(s, Serving(0, url)), Measuring(0));
      var stored := touched.(caches := Stored(touched.caches, url, 2, 60, Fate(true, true, true)).0);
      && WellFormed(s.caches) && Truthful(s.caches) && Truthful(stored.caches)
      && !TruthfulAt(Next(stored, WritingBack(0, 70)).caches, url)
  {
    hide Stored;
    var url := "/icons/a.png";
    var c := Caches([url], map[url := 1], map[url := Meta(1, 50)]);
    assert WellFormed(c) && Truthful(c);
    hide WellFormed, Truthful;
    var touched := Next(Next(System(c, map[]), Serving(0, url)), Measuring(0));
    assert touched == System(c, map[0 := Measured(url, 1)]);
    StoredBodyStays(c, url, 2, 60);
    StoreKeepsTruthExactlyWhen(c, url, 2, 60, Fate(true, true, true));
  }

  // ---- what a store promises ----

  function BodyBytes(c: Caches): int {
    Sum(c.order, url => if url in c.bodies then c.bodies[url] else 0)
  }

  /** A store that completes on truthful caches, whatever it replaces, leaves at most 160 bodies whose real sizes
      fit 80 MiB, each with its true metadata. */
  lemma StoreBoundsTheBodies(c: Caches, url: string, size: nat, now: int, fate: Fate)
    requires WellFormed(c) && Truthful(c) && size <= LARGEST_ASSET && now > MAX_ASSET_AGE
    requires Stored(c, url, size, now, fate).1
    ensures var d := Stored(c, url, size, now, fate).0;
      && |d.order| <= MAX_ASSET_ENTRIES && BodyBytes(d) <= MAX_ASSET_BYTES
      && d.metas.Keys == d.bodies.Keys && Truthful(d)
  {
    hide Pruned, PutBody, PutMeta, WellFormed, Truthful, BodyBytes, RecordsOf;
    var retry := Limits(now, RETRY_ENTRIES, RETRY_BYTES);
    PruneKeepsTruth(c, retry);
    var before := if fate.first then c else Pruned(c, retry);
    PutAndTruth(before, url, size, now);
    var e := PutMeta(PutBody(before, url, size), url, Meta(size, now));
    PruneKeepsTruth(e, Usual(now));
    PruneFits(e, Usual(now));
    PruneLeavesStoresAlike(e, Usual(now));
    RecordedIsReal(Pruned(e, Usual(now)));
  }

  lemma RecordedIsReal(d: Caches)
    requires WellFormed(d) && Truthful(d) && d.metas.Keys == d.bodies.Keys
    ensures BodyBytes(d) == Bytes(RecordsOf(d))
  {
    SumSelect(d.order, url => RecordOf(d, url), (r: Record) => r.bytes,
        url => if url in d.bodies then d.bodies[url] else 0);
  }
}
