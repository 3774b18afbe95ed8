/** What each row of the promotion log adds to a report. */
module PromotionReports {
  import opened Options
  import opened Promotion
  import opened PromotionPurge

  function If(b: bool): nat {
    if b then 1 else 0
  }

  lemma CountOneMore(v: map<nat, View>, i: nat, x: View, q: View -> bool)
    requires i !in v
    ensures Selected(v[i := x], q) == if q(x) then Selected(v, q) + {i} else Selected(v, q)
    ensures i !in Selected(v, q) && Count(v[i := x], q) == Count(v, q) + If(q(x))
  {
  }

  lemma FieldRowsOneMore(v: map<nat, View>, i: nat, x: View, q: View -> bool, field: Field, j: nat)
    requires i !in v
    ensures j in SelectedField(v[i := x], q, field) <==>
      (j == i && q(x) && Counted(x, field)) || j in SelectedField(v, q, field)
    ensures i !in SelectedField(v, q, field)
  {
    hide Counted;
  }

  lemma FieldOneMore(v: map<nat, View>, i: nat, x: View, q: View -> bool, field: Field)
    requires i !in v
    ensures CountField(v[i := x], q, field) == CountField(v, q, field) + If(q(x) && Counted(x, field))
  {
    hide Counted, SelectedField;
    forall j: nat {
      FieldRowsOneMore(v, i, x, q, field, j);
    }
    var before, after := SelectedField(v, q, field), SelectedField(v[i := x], q, field);
    assert after == if q(x) && Counted(x, field) then before + {i} else before;
  }

  /** The counts of a group, with one row more. */
  predicate AddsRow(before: Counts, after: Counts, x: View, belongs: bool) {
    && after.shares == before.shares + If(belongs && x.kind == Share)
    && after.visits == before.visits + If(belongs && x.kind == Visit)
    && after.conversions == before.conversions + If(belongs && x.kind == Conversion)
    && after.net == before.net + If(belongs && x.kind == Conversion && x.reversed == None)
  }

  lemma CountsOneMore(v: map<nat, View>, i: nat, x: View, q: View -> bool)
    requires i !in v
    ensures AddsRow(CountsWhere(v, q), CountsWhere(v[i := x], q), x, q(x))
  {
    FieldOneMore(v, i, x, q, Shares);
    FieldOneMore(v, i, x, q, Visits);
    FieldOneMore(v, i, x, q, Conversions);
    FieldOneMore(v, i, x, q, Net);
  }

  const NOTHING := Counts(0, 0, 0, 0)

  function SourceCounts(r: Report, s: string): Counts {
    if s in r.sources then r.sources[s] else NOTHING
  }

  function MediumCounts(r: Report, s: string, m: Option<string>): Counts {
    if (s, m) in r.mediums then r.mediums[(s, m)] else NOTHING
  }

  function CampaignCounts(r: Report, c: string): Counts {
    if c in r.campaigns then r.campaigns[c] else NOTHING
  }

  lemma NoneCounted(v: map<nat, View>, q: View -> bool)
    requires forall j :: j in v ==> !q(v[j])
    ensures CountsWhere(v, q) == NOTHING
  {
    forall field
      ensures CountField(v, q, field) == 0
    {
      assert SelectedField(v, q, field) == {};
    }
  }

  lemma SourceIs(v: map<nat, View>, s: string)
    ensures SourceCounts(Performance(v), s) == CountsWhere(v, (x: View) => x.tags.source == s)
  {
    if s !in Sources(v) {
      forall j | j in v
        ensures v[j].tags.source != s
      {
        assert v[j] in v.Values;
      }
      NoneCounted(v, (x: View) => x.tags.source == s);
    }
  }

  lemma MediumIs(v: map<nat, View>, s: string, m: Option<string>)
    ensures MediumCounts(Performance(v), s, m)
         == CountsWhere(v, (x: View) => x.tags.source == s && x.tags.medium == m)
  {
    var q := (x: View) => x.tags.source == s && x.tags.medium == m;
    var k := (s, m);
    var mediums := set x | x in v.Values :: (x.tags.source, x.tags.medium);
    if k in mediums {
      assert Performance(v).mediums[k] == CountsWhere(v, (x: View) => x.tags.source == k.0 && x.tags.medium == k.1);
      SameCounts(v, (x: View) => x.tags.source == k.0 && x.tags.medium == k.1, q);
    } else {
      forall j | j in v
        ensures !q(v[j])
      {
        assert v[j] in v.Values;
      }
      NoneCounted(v, q);
    }
  }

  lemma SameCounts(v: map<nat, View>, p: View -> bool, q: View -> bool)
    requires forall x :: p(x) == q(x)
    ensures CountsWhere(v, p) == CountsWhere(v, q)
  {
    forall field
      ensures CountField(v, p, field) == CountField(v, q, field)
    {
      assert SelectedField(v, p, field) == SelectedField(v, q, field);
    }
  }

  lemma CampaignIs(v: map<nat, View>, c: string)
    ensures CampaignCounts(Performance(v), c) == CountsWhere(v, (x: View) => x.tags.campaign == Some(c))
  {
    var q := (x: View) => x.tags.campaign == Some(c);
    if c !in (set x | x in v.Values && x.tags.campaign.Some? :: x.tags.campaign.value) {
      forall j | j in v
        ensures !q(v[j])
      {
        assert v[j] in v.Values;
      }
      NoneCounted(v, q);
    }
  }

  lemma GroupsOneMore(v: map<nat, View>, i: nat, x: View, s: string, m: Option<string>, c: string)
    requires i !in v
    ensures var p, r := Performance(v), Performance(v[i := x]);
      && AddsRow(SourceCounts(p, s), SourceCounts(r, s), x, x.tags.source == s)
      && AddsRow(MediumCounts(p, s, m), MediumCounts(r, s, m), x, x.tags.source == s && x.tags.medium == m)
      && AddsRow(CampaignCounts(p, c), CampaignCounts(r, c), x, x.tags.campaign == Some(c))
  {
    hide Performance, CountsWhere, AddsRow, SourceCounts, MediumCounts, CampaignCounts;
    var w := v[i := x];
    SourceIs(v, s);
    SourceIs(w, s);
    CountsOneMore(v, i, x, (x: View) => x.tags.source == s);
    MediumIs(v, s, m);
    MediumIs(w, s, m);
    CountsOneMore(v, i, x, (x: View) => x.tags.source == s && x.tags.medium == m);
    CampaignIs(v, c);
    CampaignIs(w, c);
    CountsOneMore(v, i, x, (x: View) => x.tags.campaign == Some(c));
  }

  /** What one more row adds to the totals: to shares, visits or conversions by its kind, to the net conversions unless
      reversed and otherwise to the reason it was reversed for, and to the conversions of its type. */
  lemma TotalsOneMore(v: map<nat, View>, i: nat, x: View, t: ConversionType)
    requires i !in v
    ensures var p, r := Performance(v), Performance(v[i := x]);
      && AddsRow(p.totals, r.totals, x, true)
      && r.byType[t] == p.byType[t] + If(x.kind == Conversion && x.ctype == Some(t))
      && r.cancelled == p.cancelled + If(x.kind == Conversion && x.reversed.Some? && x.reversed.value.1 == Cancelled)
      && r.refunded == p.refunded + If(x.kind == Conversion && x.reversed.Some? && x.reversed.value.1 == Refunded)
  {
    CountsOneMore(v, i, x, (x: View) => true);
    CountOneMore(v, i, x, (x: View) => x.kind == Conversion && x.ctype == Some(t));
    CountOneMore(v, i, x, (x: View) => x.kind == Conversion && x.reversed.Some? && x.reversed.value.1 == Cancelled);
    CountOneMore(v, i, x, (x: View) => x.kind == Conversion && x.reversed.Some? && x.reversed.value.1 == Refunded);
    hide CountsWhere, Count, AddsRow;
  }

  lemma NoneOf(q: View -> bool)
    ensures Count(map[], q) == 0
  {
    assert Selected(map[], q) == {};
  }

  /** The report of an empty log. */
  lemma NothingReported(t: ConversionType)
    ensures var r := Performance(map[]);
      && r.totals == NOTHING && r.sources == map[] && r.mediums == map[] && r.campaigns == map[]
      && r.cancelled == 0 == r.refunded && r.byType[t] == 0
  {
    var none: map<nat, View> := map[];
    NoneCounted(none, (x: View) => true);
    NoneOf((x: View) => x.kind == Conversion && x.ctype == Some(t));
    NoneOf((x: View) => x.kind == Conversion && x.reversed.Some? && x.reversed.value.1 == Cancelled);
    NoneOf((x: View) => x.kind == Conversion && x.reversed.Some? && x.reversed.value.1 == Refunded);
    hide CountsWhere, Count;
    assert none.Values == {};
    assert Performance(none).sources == map[] && Performance(none).mediums == map[];
    assert Performance(none).campaigns == map[];
  }

  // ---- what one more event does to an owner's report ----

  lemma ScopedOneMore(rows: map<nat, Event>, i: nat, e: Event, owner: Owner, days: nat, now: int)
    requires i !in rows
    ensures i !in Scoped(rows, owner, days, now)
    ensures Scoped(rows[i := e], owner, days, now)
         == if e.owner == owner && e.at >= now - days * 86400 then Scoped(rows, owner, days, now)[i := ViewOf(e)]
            else Scoped(rows, owner, days, now)
  {
    hide ViewOf;
  }

  /** One more event shows in its own owner's report if it is recent enough, by its kind, type and reversal, and in no
      other report. */
  lemma EventShows(rows: map<nat, Event>, i: nat, e: Event, owner: Owner, days: nat, now: int, t: ConversionType)
    requires i !in rows
    ensures var p := PromotionPerformance(rows, owner, days, now);
      var r := PromotionPerformance(rows[i := e], owner, days, now);
      if e.owner == owner && e.at >= now - days * 86400 then
        && r.totals.shares == p.totals.shares + If(e.kind == Share)
        && r.totals.visits == p.totals.visits + If(e.kind == Visit)
        && r.totals.conversions == p.totals.conversions + If(e.kind == Conversion)
        && r.totals.net == p.totals.net + If(e.kind == Conversion && e.reversed == None)
        && r.byType[t] == p.byType[t] + If(e.kind == Conversion && e.ctype == Some(t))
        && r.cancelled == p.cancelled + If(e.kind == Conversion && e.reversed.Some? && e.reversed.value.1 == Cancelled)
        && r.refunded == p.refunded + If(e.kind == Conversion && e.reversed.Some? && e.reversed.value.1 == Refunded)
      else r == p
  {
    ScopedOneMore(rows, i, e, owner, days, now);
    TotalsOneMore(Scoped(rows, owner, days, now), i, ViewOf(e), t);
    hide Performance, Scoped;
  }
}
