/** Clearing account links and pruning old rows cannot be observed in what is attributed or in any report, and in
    answers only when a reference is converted again after its conversion was deleted. */
module PromotionPurge {
  import opened Options
  import opened Promotion
  import opened Rows
  import opened Text

  // ---- reports ----

  /** The columns a performance report reads. */
  datatype View = View(kind: Kind, tags: Tags, at: int, ctype: Option<ConversionType>, reversed: Option<(int, Reason)>)

  function ViewOf(e: Event): View {
    View(e.kind, e.tags, e.at, e.ctype, e.reversed)
  }

  /** An owner's rows of the last `days` days. */
  function Scoped(rows: map<nat, Event>, owner: Owner, days: nat, now: int): map<nat, View> {
    map i | i in rows && rows[i].owner == owner && rows[i].at >= now - days * DAY :: ViewOf(rows[i])
  }

  datatype Field = Shares | Visits | Conversions | Net

  predicate Counted(x: View, field: Field) {
    match field
    case Shares => x.kind == Share
    case Visits => x.kind == Visit
    case Conversions => x.kind == Conversion
    case Net => x.kind == Conversion && x.reversed == None
  }

  function Selected(v: map<nat, View>, q: View -> bool): set<nat> {
    set i | i in v && q(v[i])
  }

  function Count(v: map<nat, View>, q: View -> bool): nat {
    |Selected(v, q)|
  }

  function SelectedField(v: map<nat, View>, q: View -> bool, field: Field): set<nat> {
    set i | i in v && q(v[i]) && Counted(v[i], field)
  }

  function CountField(v: map<nat, View>, q: View -> bool, field: Field): nat {
    |SelectedField(v, q, field)|
  }

  datatype Counts = Counts(shares: nat, visits: nat, conversions: nat, net: nat)

  function CountsWhere(v: map<nat, View>, q: View -> bool): Counts {
    Counts(CountField(v, q, Shares), CountField(v, q, Visits), CountField(v, q, Conversions), CountField(v, q, Net))
  }

  function CountsOfSource(v: map<nat, View>, s: string): Counts {
    CountsWhere(v, (x: View) => x.tags.source == s)
  }

  function Pick(c: Counts, field: Field): nat {
    match field
    case Shares => c.shares
    case Visits => c.visits
    case Conversions => c.conversions
    case Net => c.net
  }

  datatype Report = Report(
    totals: Counts, sources: map<string, Counts>, mediums: map<(string, Option<string>), Counts>,
    campaigns: map<string, Counts>, byType: map<ConversionType, nat>, cancelled: nat, refunded: nat)

  function Sources(v: map<nat, View>): set<string> {
    set x | x in v.Values :: x.tags.source
  }

  function Performance(v: map<nat, View>): Report {
    Report(
      CountsWhere(v, (x: View) => true),
      map s | s in Sources(v) :: CountsOfSource(v, s),
      map k | k in (set x | x in v.Values :: (x.tags.source, x.tags.medium)) ::
        CountsWhere(v, (x: View) => x.tags.source == k.0 && x.tags.medium == k.1),
      map c | c in (set x | x in v.Values && x.tags.campaign.Some? :: x.tags.campaign.value) ::
        CountsWhere(v, (x: View) => x.tags.campaign == Some(c)),
      map c | c in {Booking, Appointment, Order, Job} ::
        Count(v, (x: View) => x.kind == Conversion && x.ctype == Some(c)),
      Count(v, (x: View) => x.kind == Conversion && x.reversed.Some? && x.reversed.value.1 == Cancelled),
      Count(v, (x: View) => x.kind == Conversion && x.reversed.Some? && x.reversed.value.1 == Refunded))
  }

  /** The visible report of an owner. */
  function PromotionPerformance(rows: map<nat, Event>, owner: Owner, days: nat, now: int): Report {
    Performance(Scoped(rows, owner, days, now))
  }

  // ---- groups add up ----

  ghost function Picked<K(!new)>(v: map<nat, View>, g: View -> K, p: View -> bool, keys: set<K>): set<nat> {
    set i | i in v && g(v[i]) in keys && p(v[i])
  }

  /** Whatever the rows are grouped by, and whatever is counted, the groups add up to the total. */
  lemma {:induction false} CountsAddUp<K(!new)>(v: map<nat, View>, g: View -> K, p: View -> bool, keys: set<K>,
      f: K -> int)
    requires forall k :: k in keys ==> f(k) == |Picked(v, g, p, {k})|
    ensures SumOver(keys, f) == |Picked(v, g, p, keys)|
  {
    if keys == {} {
      assert Picked(v, g, p, keys) == {};
    } else {
      var k :| k in keys && SumOver(keys, f) == f(k) + SumOver(keys - {k}, f);
      CountsAddUp(v, g, p, keys - {k}, f);
      assert Picked(v, g, p, keys) == Picked(v, g, p, {k}) + Picked(v, g, p, keys - {k});
      assert Picked(v, g, p, {k}) !! Picked(v, g, p, keys - {k});
    }
  }

  function SourceFigure(r: Report, field: Field, source: string): nat {
    if source in r.sources then Pick(r.sources[source], field) else 0
  }

  ghost function CountedIn(v: map<nat, View>, field: Field): set<nat> {
    set i | i in v && Counted(v[i], field)
  }

  /** The sources of a report add up to its totals: shares, visits, conversions and net conversions alike. */
  lemma ReportAddsUp(v: map<nat, View>, field: Field)
    ensures var r := Performance(v);
      SumOver(r.sources.Keys, s => SourceFigure(r, field, s)) == Pick(r.totals, field)
  {
    var r := Performance(v);
    var f: string -> int := s => SourceFigure(r, field, s);
    assert r.sources.Keys == Sources(v);
    TotalCounts(v, field);
    forall s | s in Sources(v)
      ensures f(s) == |set i | i in v && v[i].tags.source == s && Counted(v[i], field)|
    {
      SourceFigureCounts(v, field, s);
    }
    hide Performance, SourceFigure, Pick;
    FieldAddsUp(v, field, f);
  }

  lemma FieldAddsUp(v: map<nat, View>, field: Field, f: string -> int)
    requires forall s :: s in Sources(v) ==> f(s) == |set i | i in v && v[i].tags.source == s && Counted(v[i], field)|
    ensures SumOver(Sources(v), f) == |CountedIn(v, field)|
  {
    hide Counted;
    var g := (x: View) => x.tags.source;
    var p := (x: View) => Counted(x, field);
    forall s | s in Sources(v)
      ensures f(s) == |Picked(v, g, p, {s})|
    {
      assert (set i | i in v && v[i].tags.source == s && Counted(v[i], field)) == Picked(v, g, p, {s});
    }
    CountsAddUp(v, g, p, Sources(v), f);
    assert Picked(v, g, p, Sources(v)) == CountedIn(v, field);
  }

  lemma SourceFigureCounts(v: map<nat, View>, field: Field, s: string)
    requires s in Sources(v)
    ensures SourceFigure(Performance(v), field, s) == |set i | i in v && v[i].tags.source == s && Counted(v[i], field)|
  {
    assert Performance(v).sources[s] == CountsOfSource(v, s);
    hide Performance;
    CountsOfSourceCount(v, field, s);
  }

  lemma CountsOfSourceCount(v: map<nat, View>, field: Field, s: string)
    ensures Pick(CountsOfSource(v, s), field) == |set i | i in v && v[i].tags.source == s && Counted(v[i], field)|
  {
    hide Counted;
    var q := (x: View) => x.tags.source == s;
    assert CountsOfSource(v, s) == CountsWhere(v, q);
    assert SelectedField(v, q, field) == (set i | i in v && v[i].tags.source == s && Counted(v[i], field));
  }

  lemma TotalCounts(v: map<nat, View>, field: Field)
    ensures Pick(Performance(v).totals, field) == |CountedIn(v, field)|
  {
    var q := (x: View) => true;
    assert Performance(v).totals == CountsWhere(v, q);
    assert SelectedField(v, q, field) == CountedIn(v, field);
  }

  // ---- what a reversal does to a report ----

  lemma OthersUnreversed(log: Log, r: Request, now: int, i: nat, j: nat)
    requires Consistent(log, now) && r.ReversalNotice?
    requires i in log.rows && log.rows[i].dedupe == Some(ConversionDedupe(r.ctype, r.ref))
    requires j in log.rows
    ensures var e := Reversed(log.rows, r.ctype, r.ref, r.reason, now)[j];
      && e == log.rows[j].(reversed := e.reversed)
      && (j != i ==> e == log.rows[j])
      && (j == i ==> e.kind == Conversion && e.reversed.Some?)
  {
    assert WellFormed(log.rows, log.rows[j]);
  }

  lemma SameCount(v: map<nat, View>, w: map<nat, View>, field: Field)
    requires v.Keys == w.Keys && field != Net
    requires forall j :: j in v ==> w[j] == v[j].(reversed := w[j].reversed)
    ensures CountedIn(v, field) == CountedIn(w, field)
  {
  }

  lemma OneNetLess(v: map<nat, View>, w: map<nat, View>, i: nat)
    requires v.Keys == w.Keys && forall j :: j in v && j != i ==> w[j] == v[j]
    requires i in v ==> w[i] == v[i].(reversed := w[i].reversed) && v[i].kind == Conversion && w[i].reversed.Some?
    ensures CountedIn(w, Net) == CountedIn(v, Net) - {i}
    ensures i in CountedIn(v, Net) <==> i in v && v[i].reversed == None
  {
  }

  lemma TotalsCount(v: map<nat, View>)
    ensures var p := Performance(v).totals;
      && p.shares == |CountedIn(v, Shares)|
      && p.visits == |CountedIn(v, Visits)|
      && p.conversions == |CountedIn(v, Conversions)|
      && p.net == |CountedIn(v, Net)|
  {
    hide Performance, Counted;
    TotalCounts(v, Shares);
    TotalCounts(v, Visits);
    TotalCounts(v, Conversions);
    TotalCounts(v, Net);
  }

  lemma OneReversedInView(v: map<nat, View>, w: map<nat, View>, i: nat)
    requires v.Keys == w.Keys && forall j :: j in v && j != i ==> w[j] == v[j]
    requires i in v ==> w[i] == v[i].(reversed := w[i].reversed) && v[i].kind == Conversion && w[i].reversed.Some?
    ensures var p, q := Performance(v).totals, Performance(w).totals;
      && q.shares == p.shares && q.visits == p.visits && q.conversions == p.conversions
      && q.net == p.net - (if i in v && v[i].reversed == None then 1 else 0)
  {
    hide Performance, CountedIn;
    TotalsCount(v);
    TotalsCount(w);
    SameCount(v, w, Shares);
    SameCount(v, w, Visits);
    SameCount(v, w, Conversions);
    OneNetLess(v, w, i);
  }

  /** A reversal notice takes one net conversion, its own, from the reports that show it, the first time it
      comes, and leaves shares, visits and gross conversions as they were. */
  lemma ReversalCountsOnce(log: Log, r: Request, owner: Owner, days: nat, now: int, i: nat)
    requires Consistent(log, now) && r.ReversalNotice?
    requires i in log.rows && log.rows[i].dedupe == Some(ConversionDedupe(r.ctype, r.ref))
    ensures
      var before := PromotionPerformance(log.rows, owner, days, now).totals;
      var after := PromotionPerformance(Handle(log, r, now).0.rows, owner, days, now).totals;
      && after.shares == before.shares && after.visits == before.visits && after.conversions == before.conversions
      && after.net
         == before.net - (if i in Scoped(log.rows, owner, days, now) && log.rows[i].reversed == None then 1 else 0)
  {
    var rows := Reversed(log.rows, r.ctype, r.ref, r.reason, now);
    forall j | j in log.rows {
      OthersUnreversed(log, r, now, i, j);
    }
    assert rows.Keys == log.rows.Keys;
    hide Performance, Reversed, WellFormed, Consistent;
    OneReversedInView(Scoped(log.rows, owner, days, now), Scoped(rows, owner, days, now), i);
  }

  // ---- a purged log beside the same log never purged ----

  /** The same row, except that its account link may be cleared once too old to match and its visit nulled. */
  ghost predicate SameButLinks(full: Event, kept: Event, now: int) {
    && kept == full.(account := kept.account, visit := kept.visit)
    && (kept.account == full.account || (kept.account == None && full.at < now - ATTRIBUTION))
    && (kept.visit == full.visit || kept.visit == None)
  }

  /** `kept` is `full` less some rows older than the longest report window, and less some old links. */
  ghost predicate Shadows(full: Log, kept: Log, now: int) {
    && full.next == kept.next
    && (forall i :: i in kept.rows ==> i in full.rows && SameButLinks(full.rows[i], kept.rows[i], now))
    && (forall i :: i in full.rows && full.rows[i].at >= now - LONGEST_WINDOW * DAY ==> i in kept.rows)
  }

  lemma ShadowsLater(full: Log, kept: Log, before: int, now: int)
    requires Shadows(full, kept, before) && before <= now
    ensures Shadows(full, kept, now)
  {
  }

  lemma MatchesAlike(full: Log, kept: Log, t: Touch, now: int, i: nat)
    requires Shadows(full, kept, now)
    ensures i in full.rows && Matches(full.rows[i], t, now) <==> i in kept.rows && Matches(kept.rows[i], t, now)
  {
  }

  /** Attribution picks the same visit with and without purging. */
  lemma LastTouchAlike(full: Log, kept: Log, t: Touch, now: int)
    requires Shadows(full, kept, now)
    ensures LastTouch(full.rows, t, now) == LastTouch(kept.rows, t, now)
  {
    forall id
      ensures IsLastTouch(full.rows, t, now, id) <==> IsLastTouch(kept.rows, t, now, id)
    {
      MatchesAlike(full, kept, t, now, id);
      forall j { MatchesAlike(full, kept, t, now, j); }
    }
    if id :| IsLastTouch(full.rows, t, now, id) {
      LastTouchUnique(full.rows, t, now, id, LastTouch(full.rows, t, now).value);
      LastTouchUnique(kept.rows, t, now, id, LastTouch(kept.rows, t, now).value);
    }
  }

  /** No report of at most 365 days can tell the two apart. */
  lemma ReportsAlike(full: Log, kept: Log, owner: Owner, days: nat, now: int)
    requires Shadows(full, kept, now) && days <= LONGEST_WINDOW
    ensures PromotionPerformance(full.rows, owner, days, now) == PromotionPerformance(kept.rows, owner, days, now)
  {
    var a, b := Scoped(full.rows, owner, days, now), Scoped(kept.rows, owner, days, now);
    assert days * DAY <= LONGEST_WINDOW * DAY;
    assert a.Keys == b.Keys;
    assert a == b;
  }

  // ---- step by step ----

  /** The service without its retention jobs. */
  ghost function HandleUnpurged(log: Log, r: Request, now: int): (Log, bool) {
    if r.ClearLinks? || r.Prune? then (log, true) else Handle(log, r, now)
  }

  // A purged log beside the unpurged one: exactly the rows from before `horizon` are deleted.
  ghost predicate ShadowsFrom(full: Log, kept: Log, horizon: int, now: int) {
    && Shadows(full, kept, now)
    && horizon <= now - LONGEST_WINDOW * DAY
    && forall i :: i in full.rows ==> (i in kept.rows <==> full.rows[i].at >= horizon)
  }

  /** The time before which every row is deleted, once a request was handled. */
  function HorizonAfter(horizon: int, r: Request, now: int): int {
    if r.Prune? && now - r.days * DAY > horizon then now - r.days * DAY else horizon
  }

  /** An attributable conversion of a reference that a deleted row already converted. */
  ghost predicate ReusesDeleted(full: Log, horizon: int, r: Request, now: int) {
    && r.ConversionRequest? && ConversionAccepted(r) && LastTouch(full.rows, TouchOf(r), now).Some?
    && exists i ::
         i in full.rows && full.rows[i].dedupe == Some(ConversionDedupe(r.ctype, r.ref)) && full.rows[i].at < horizon
  }

  lemma KeysAlike(full: Log, kept: Log, key: Option<Dedupe>, horizon: int, now: int)
    requires ShadowsFrom(full, kept, horizon, now) && Consistent(full, now)
    ensures key.Some? && HasKey(full.rows, key) && !HasKey(kept.rows, key) <==>
      exists i :: i in full.rows && full.rows[i].dedupe == key && key.Some? && full.rows[i].at < horizon
    ensures HasKey(kept.rows, key) ==> HasKey(full.rows, key)
  {
    if HasKey(kept.rows, key) {
      var i :| i in kept.rows && kept.rows[i].dedupe == key;
      assert full.rows[i].dedupe == key;
    }
    if key.Some? && HasKey(full.rows, key) {
      var i :| i in full.rows && full.rows[i].dedupe == key;
      if full.rows[i].at >= horizon {
        assert i in kept.rows && kept.rows[i].dedupe == key;
      }
    }
  }

  lemma InsertAlike(full: Log, kept: Log, e: Event, horizon: int, now: int)
    requires ShadowsFrom(full, kept, horizon, now) && HasKey(full.rows, e.dedupe) == HasKey(kept.rows, e.dedupe)
    requires e.at == now
    ensures ShadowsFrom(Inserted(full, e), Inserted(kept, e), horizon, now)
  {
  }

  lemma VisitAlike(full: Log, kept: Log, r: Request, horizon: int, now: int)
    requires ShadowsFrom(full, kept, horizon, now) && Consistent(full, now) && r.VisitRequest?
    ensures ShadowsFrom(Handle(full, r, now).0, Handle(kept, r, now).0, horizon, now)
    ensures Handle(full, r, now).1 == Handle(kept, r, now).1
  {
    var e := VisitEvent(r, now);
    KeysAlike(full, kept, e.dedupe, horizon, now);
    forall i | i in full.rows && full.rows[i].dedupe == e.dedupe
      ensures full.rows[i].at >= horizon
    {
      assert WellFormed(full.rows, full.rows[i]);
      assert full.rows[i].at / DAY == now / DAY;
    }
    if VisitAccepted(r) { InsertAlike(full, kept, e, horizon, now); }
  }

  lemma ConversionAlike(full: Log, kept: Log, r: Request, horizon: int, now: int)
    requires ShadowsFrom(full, kept, horizon, now) && Consistent(full, now) && r.ConversionRequest?
    ensures Handle(full, r, now).1 == Handle(kept, r, now).1 <==> !ReusesDeleted(full, horizon, r, now)
    ensures !ReusesDeleted(full, horizon, r, now) ==>
      ShadowsFrom(Handle(full, r, now).0, Handle(kept, r, now).0, horizon, now)
  {
    if ConversionAccepted(r) {
      var t := TouchOf(r);
      LastTouchAlike(full, kept, t, now);
      var id := LastTouch(full.rows, t, now);
      if id.Some? {
        MatchesAlike(full, kept, t, now, id.value);
        var e := ConversionEvent(r, full.rows[id.value], id.value, now);
        assert e == ConversionEvent(r, kept.rows[id.value], id.value, now);
        KeysAlike(full, kept, e.dedupe, horizon, now);
        if !ReusesDeleted(full, horizon, r, now) { InsertAlike(full, kept, e, horizon, now); }
      }
    }
  }

  lemma ReversalAlike(full: Log, kept: Log, r: Request, horizon: int, now: int)
    requires ShadowsFrom(full, kept, horizon, now) && r.ReversalNotice?
    ensures ShadowsFrom(Handle(full, r, now).0, Handle(kept, r, now).0, horizon, now)
  {
  }

  lemma PurgeAlike(full: Log, kept: Log, r: Request, horizon: int, now: int)
    requires ShadowsFrom(full, kept, horizon, now) && (r.ClearLinks? || (r.Prune? && r.days >= LONGEST_WINDOW))
    ensures ShadowsFrom(full, Handle(kept, r, now).0, HorizonAfter(horizon, r, now), now)
  {
    if r.Prune? {
      assert r.days * DAY >= LONGEST_WINDOW * DAY;
    }
  }

  /** One request, handled by the purged and the never purged service: the answers differ exactly when it reuses
      a deleted reference; otherwise the logs stay alike. */
  lemma StepAlike(full: Log, kept: Log, r: Request, horizon: int, now: int)
    requires ShadowsFrom(full, kept, horizon, now) && Consistent(full, now) && (r.Prune? ==> r.days >= LONGEST_WINDOW)
    ensures HandleUnpurged(full, r, now).1 == Handle(kept, r, now).1 <==> !ReusesDeleted(full, horizon, r, now)
    ensures !ReusesDeleted(full, horizon, r, now) ==>
      ShadowsFrom(HandleUnpurged(full, r, now).0, Handle(kept, r, now).0, HorizonAfter(horizon, r, now), now)
  {
    hide ShadowsFrom, Consistent;
    match r
    case ShareRequest(owner, tags) =>
      InsertAlike(full, kept, Event(owner, Share, tags, now, None, None, None, None, None, None), horizon, now);
    case VisitRequest(_, _, _, _, _, _, _) => VisitAlike(full, kept, r, horizon, now);
    case ConversionRequest(_, _, _, _, _, _) => ConversionAlike(full, kept, r, horizon, now);
    case ReversalNotice(_, _, _) => ReversalAlike(full, kept, r, horizon, now);
    case ClearLinks => PurgeAlike(full, kept, r, horizon, now);
    case Prune(_) => PurgeAlike(full, kept, r, horizon, now);
  }

  // ---- whole histories ----

  ghost function Answers(log: Log, h: History): seq<bool>
    decreases |h|
  {
    if h == [] then [] else [Handle(log, h[0].0, h[0].1).1] + Answers(Handle(log, h[0].0, h[0].1).0, h[1..])
  }

  ghost function ReplayUnpurged(log: Log, h: History): Log
    decreases |h|
  {
    if h == [] then log else ReplayUnpurged(HandleUnpurged(log, h[0].0, h[0].1).0, h[1..])
  }

  ghost function AnswersUnpurged(log: Log, h: History): seq<bool>
    decreases |h|
  {
    if h == [] then []
    else [HandleUnpurged(log, h[0].0, h[0].1).1] + AnswersUnpurged(HandleUnpurged(log, h[0].0, h[0].1).0, h[1..])
  }

  /** The retention job keeps rows for at least the longest report window. */
  ghost predicate LongRetention(h: History) {
    h == [] || ((h[0].0.Prune? ==> h[0].0.days >= LONGEST_WINDOW) && LongRetention(h[1..]))
  }

  /** No request of the history reuses a reference whose conversion is deleted by then. */
  ghost predicate NeverReuses(full: Log, horizon: int, h: History)
    decreases |h|
  {
    h == []
    || (!ReusesDeleted(full, horizon, h[0].0, h[0].1)
        && NeverReuses(HandleUnpurged(full, h[0].0, h[0].1).0, HorizonAfter(horizon, h[0].0, h[0].1), h[1..]))
  }

  lemma LaterAlike(full: Log, kept: Log, horizon: int, before: int, now: int)
    requires ShadowsFrom(full, kept, horizon, before) && Consistent(full, before) && before <= now
    ensures ShadowsFrom(full, kept, horizon, now) && Consistent(full, now)
  {
  }

  lemma {:induction false} HistoriesAlike(full: Log, kept: Log, h: History, horizon: int, from: int)
    requires ShadowsFrom(full, kept, horizon, from) && Consistent(full, from) && InOrder(h, from) && LongRetention(h)
    ensures AnswersUnpurged(full, h) == Answers(kept, h) <==> NeverReuses(full, horizon, h)
    ensures NeverReuses(full, horizon, h) ==> Shadows(ReplayUnpurged(full, h), Replay(kept, h), EndTime(h, from))
    decreases |h|
  {
    hide Shadows, ShadowsFrom, Consistent, Handle, ReusesDeleted;
    if h == [] {
      ShadowsHere(full, kept, horizon, from);
    } else {
      var r, now := h[0].0, h[0].1;
      LaterAlike(full, kept, horizon, from, now);
      StepAlike(full, kept, r, horizon, now);
      HandleKeepsConsistent(full, r, now, now);
      if !ReusesDeleted(full, horizon, r, now) {
        var full1, kept1 := HandleUnpurged(full, r, now).0, Handle(kept, r, now).0;
        HistoriesAlike(full1, kept1, h[1..], HorizonAfter(horizon, r, now), now);
        assert AnswersUnpurged(full, h)[1..] == AnswersUnpurged(full1, h[1..]);
        assert Answers(kept, h)[1..] == Answers(kept1, h[1..]);
      } else {
        assert AnswersUnpurged(full, h)[0] != Answers(kept, h)[0];
      }
    }
  }

  lemma ShadowsHere(full: Log, kept: Log, horizon: int, now: int)
    requires ShadowsFrom(full, kept, horizon, now)
    ensures Shadows(full, kept, now)
  {
  }

  /** UNOBSERVABLE. Over every history of visits, conversions, reversals and retention jobs that keep rows for at
      least a year, the service with its jobs gives every answer that it would give had it never cleared or
      deleted anything, if and only if no attributable conversion reuses a reference after its conversion was
      deleted; then no report of at most 365 days, at the end or later, can tell the two apart. */
  lemma PurgingIsUnobservable(h: History, from: int)
    requires InOrder(h, from) && LongRetention(h)
    ensures var empty, horizon := Log(map[], 0), from - LONGEST_WINDOW * DAY;
      && (Answers(empty, h) == AnswersUnpurged(empty, h) <==> NeverReuses(empty, horizon, h))
      && (NeverReuses(empty, horizon, h) ==>
            forall owner, days: nat, now {:trigger PromotionPerformance(Replay(empty, h).rows, owner, days, now)} ::
              days <= LONGEST_WINDOW && EndTime(h, from) <= now ==>
                PromotionPerformance(Replay(empty, h).rows, owner, days, now)
                == PromotionPerformance(ReplayUnpurged(empty, h).rows, owner, days, now))
  {
    hide Answers, AnswersUnpurged, Replay, ReplayUnpurged, PromotionPerformance, NeverReuses;
    var empty, horizon := Log(map[], 0), from - LONGEST_WINDOW * DAY;
    HistoriesAlike(empty, empty, h, horizon, from);
    if NeverReuses(empty, horizon, h) {
      forall owner, days: nat, now | days <= LONGEST_WINDOW && EndTime(h, from) <= now
        ensures PromotionPerformance(Replay(empty, h).rows, owner, days, now)
             == PromotionPerformance(ReplayUnpurged(empty, h).rows, owner, days, now)
      {
        ShadowsLater(ReplayUnpurged(empty, h), Replay(empty, h), EndTime(h, from), now);
        ReportsAlike(ReplayUnpurged(empty, h), Replay(empty, h), owner, days, now);
      }
    }
  }

  // ---- it does happen ----

  function Visiting(owner: Owner, visitor: string, tags: Tags): Request {
    VisitRequest(owner, visitor, None, No, Yes, false, tags)
  }

  function Converting(owner: Owner, visitor: string, ctype: ConversionType, ref: string): Request {
    ConversionRequest([Candidate(Some(owner), No)], visitor, None, ctype, ref, None)
  }

  /** A visitor converts; a year and a day later the rows are pruned, and the visitor comes again and converts the
      same reference. */
  function ReturningVisitor(owner: Owner, visitor: string, tags: Tags, ctype: ConversionType, ref: string): History {
    var visit, convert, later := Visiting(owner, visitor, tags), Converting(owner, visitor, ctype, ref), 366 * DAY;
    [(visit, 0), (convert, 0), (Prune(LONGEST_WINDOW), later), (visit, later), (convert, later)]
  }

  lemma ConvertingTouches(owner: Owner, visitor: string, ctype: ConversionType, ref: string)
    requires IsUuid(visitor) && ref != ""
    ensures var r := Converting(owner, visitor, ctype, ref);
      ConversionAccepted(r) && TouchOf(r) == Touch([owner], Some(visitor), None)
  {
    var c := [Candidate(Some(owner), No)];
    assert c[..0] == [] && Screened(c[..0]) == Some([]);
    assert Screened(c) == Some([] + [owner]);
  }

  /** What the first visit and its conversion leave, and what the second visit adds. */
  lemma FirstConversion(owner: Owner, visitor: string, tags: Tags, ctype: ConversionType, ref: string)
    requires IsUuid(visitor) && ref != ""
    ensures var visit, convert := Visiting(owner, visitor, tags), Converting(owner, visitor, ctype, ref);
      var log1 := Handle(Log(map[], 0), visit, 0).0;
      var v := VisitEvent(visit, 0);
      && log1 == Log(map[0 := v], 1)
      && Handle(log1, convert, 0).0 == Log(map[0 := v, 1 := ConversionEvent(convert, v, 0, 0)], 2)
  {
    var visit, convert := Visiting(owner, visitor, tags), Converting(owner, visitor, ctype, ref);
    var v := VisitEvent(visit, 0);
    var log1 := Handle(Log(map[], 0), visit, 0).0;
    assert log1 == Log(map[0 := v], 1);
    ConvertingTouches(owner, visitor, ctype, ref);
    LastTouchIs(log1.rows, TouchOf(convert), 0, 0);
  }

  lemma SecondConversionReuses(owner: Owner, visitor: string, tags: Tags, ctype: ConversionType, ref: string)
    requires IsUuid(visitor) && ref != ""
    ensures var visit, convert := Visiting(owner, visitor, tags), Converting(owner, visitor, ctype, ref);
      var v, later := VisitEvent(visit, 0), 366 * DAY;
      var log := Log(map[0 := v, 1 := ConversionEvent(convert, v, 0, 0)], 2);
      ReusesDeleted(Handle(log, visit, later).0, DAY, convert, later)
  {
    var visit, convert := Visiting(owner, visitor, tags), Converting(owner, visitor, ctype, ref);
    var v, later := VisitEvent(visit, 0), 366 * DAY;
    var again := VisitEvent(visit, later);
    var log := Log(map[0 := v, 1 := ConversionEvent(convert, v, 0, 0)], 2);
    assert again.dedupe.value.day == 366 && v.dedupe.value.day == 0;
    var rows := Handle(log, visit, later).0.rows;
    assert rows == log.rows[2 := again];
    ConvertingTouches(owner, visitor, ctype, ref);
    LastTouchIs(rows, TouchOf(convert), later, 2);
    assert rows[1].dedupe == Some(ConversionDedupe(ctype, ref)) && rows[1].at < DAY;
  }

  lemma ReturningInOrder(owner: Owner, visitor: string, tags: Tags, ctype: ConversionType, ref: string)
    ensures var h := ReturningVisitor(owner, visitor, tags, ctype, ref);
      InOrder(h, 0) && LongRetention(h)
  {
    var h := ReturningVisitor(owner, visitor, tags, ctype, ref);
    var later := 366 * DAY;
    assert InOrder(h[4..], later) && InOrder(h[3..], later) && InOrder(h[2..], 0) && InOrder(h[1..], 0);
    assert LongRetention(h[4..]) && LongRetention(h[3..]) && LongRetention(h[2..]) && LongRetention(h[1..]);
  }

  lemma ReusedFurtherOn(full: Log, horizon: int, h: History)
    requires h != []
    requires !NeverReuses(HandleUnpurged(full, h[0].0, h[0].1).0, HorizonAfter(horizon, h[0].0, h[0].1), h[1..])
    ensures !NeverReuses(full, horizon, h)
  {
  }

  lemma LastReuses(h: History, later: int, log1: Log, log2: Log, log3: Log, start: int)
    requires |h| == 5 && h[2] == (Prune(LONGEST_WINDOW), later)
    requires h[0].0.VisitRequest? && h[1].0.ConversionRequest? && h[3].0.VisitRequest?
    requires log1 == Handle(Log(map[], 0), h[0].0, h[0].1).0 && log2 == Handle(log1, h[1].0, h[1].1).0
    requires log3 == Handle(log2, h[3].0, h[3].1).0
    requires start <= later - LONGEST_WINDOW * DAY
    requires ReusesDeleted(log3, later - LONGEST_WINDOW * DAY, h[4].0, h[4].1)
    ensures !NeverReuses(Log(map[], 0), start, h)
  {
    hide Handle, ReusesDeleted;
    var horizon := later - LONGEST_WINDOW * DAY;
    assert !NeverReuses(log3, horizon, h[4..]);
    hide NeverReuses;
    ReusedFurtherOn(log2, horizon, h[3..]);
    ReusedFurtherOn(log2, start, h[2..]);
    ReusedFurtherOn(log1, start, h[1..]);
    ReusedFurtherOn(Log(map[], 0), start, h);
  }

  lemma ReturningReuses(owner: Owner, visitor: string, tags: Tags, ctype: ConversionType, ref: string)
    requires IsUuid(visitor) && ref != ""
    ensures !NeverReuses(Log(map[], 0), 0 - LONGEST_WINDOW * DAY, ReturningVisitor(owner, visitor, tags, ctype, ref))
  {
    var h := ReturningVisitor(owner, visitor, tags, ctype, ref);
    FirstConversion(owner, visitor, tags, ctype, ref);
    SecondConversionReuses(owner, visitor, tags, ctype, ref);
    hide Handle, ReusesDeleted, NeverReuses, VisitEvent, ConversionEvent;
    var log1 := Handle(Log(map[], 0), h[0].0, 0).0;
    var log2 := Handle(log1, h[1].0, 0).0;
    LastReuses(h, 366 * DAY, log1, log2, Handle(log2, h[3].0, 366 * DAY).0, 0 - LONGEST_WINDOW * DAY);
  }

  /** It happens, to any visitor, owner and reference: the second conversion is stored as new, where without the
      purge it would have been the duplicate it is. */
  lemma PurgingShows(owner: Owner, visitor: string, tags: Tags, ctype: ConversionType, ref: string)
    requires IsUuid(visitor) && ref != ""
    ensures var h := ReturningVisitor(owner, visitor, tags, ctype, ref);
      && InOrder(h, 0) && LongRetention(h)
      && Answers(Log(map[], 0), h) != AnswersUnpurged(Log(map[], 0), h)
  {
    ReturningInOrder(owner, visitor, tags, ctype, ref);
    ReturningReuses(owner, visitor, tags, ctype, ref);
    hide *;
    PurgingIsUnobservable(ReturningVisitor(owner, visitor, tags, ctype, ref), 0);
  }
}
