/** Which visits a conversion can be attributed to: by the device, or by the account of a viewer who did not consent to
    analytics. */
module PromotionLinks {
  import opened Options
  import opened Promotion
  import opened Text

  // ---- which owners a conversion may go to ----

  /** The check of candidate `i` fails before its owner is accepted. */
  predicate FailsAt(candidates: seq<Candidate>, i: nat) {
    && i < |candidates| && candidates[i].owner.Some? && candidates[i].own == Fails
    && forall j :: 0 <= j < i && candidates[j].owner == candidates[i].owner ==> candidates[j].own != No
  }

  predicate IsEligible(candidates: seq<Candidate>, owner: Owner) {
    exists i :: 0 <= i < |candidates| && candidates[i].owner == Some(owner) && candidates[i].own == No
  }

  lemma {:induction false} ScreenedMeans(candidates: seq<Candidate>)
    ensures Screened(candidates) == None <==> exists i: nat :: FailsAt(candidates, i)
    ensures Screened(candidates).Some? ==>
      forall owner :: owner in Screened(candidates).value <==> IsEligible(candidates, owner)
  {
    if candidates != [] {
      var n := |candidates| - 1;
      var before := candidates[..n];
      ScreenedMeans(before);
      if Screened(before) == None {
        var i: nat :| FailsAt(before, i);
        assert FailsAt(candidates, i);
      } else {
        assert forall i: nat :: i < n ==> (FailsAt(candidates, i) <==> FailsAt(before, i));
        assert candidates[n].owner.Some? && candidates[n].own == Fails ==>
          (FailsAt(candidates, n) <==> !IsEligible(before, candidates[n].owner.value));
        forall owner
          ensures IsEligible(candidates, owner) <==>
            IsEligible(before, owner) || (candidates[n].owner == Some(owner) && candidates[n].own == No)
        {
          if IsEligible(before, owner) {
            var i :| 0 <= i < n && before[i].owner == Some(owner) && before[i].own == No;
            assert candidates[i] == before[i];
          }
        }
      }
    }
  }

  // ---- when a conversion is stored ----

  /** A visit of the last seven days to an eligible owner, by this device or by this account. */
  predicate IsOwnVisit(e: Event, r: Request, now: int)
    requires r.ConversionRequest?
  {
    && e.kind == Visit && now - 7 * 86400 <= e.at <= now && IsEligible(r.candidates, e.owner)
    && ((IsUuid(r.visitor) && e.actor == Some(VisitorKey(e.owner, r.visitor)))
        || (r.account.Some? && IsUuid(r.account.value) && e.account == Some(AccountKey(e.owner, r.account.value))))
  }

  lemma OwnVisitsMatch(r: Request, e: Event, now: int)
    requires r.ConversionRequest? && ConversionAccepted(r)
    ensures IsOwnVisit(e, r, now) <==> Matches(e, TouchOf(r), now)
  {
    ScreenedMeans(r.candidates);
  }

  lemma {:induction false} SomeVisitIsLast(rows: map<nat, Event>, t: Touch, now: int, ids: set<nat>) returns (last: nat)
    requires ids <= rows.Keys && exists i :: i in ids && Matches(rows[i], t, now)
    ensures last in ids && Matches(rows[last], t, now)
    ensures forall i :: i in ids && i != last && Matches(rows[i], t, now) ==> Later(rows, last, i)
    decreases |ids|
  {
    last :| last in ids && Matches(rows[last], t, now);
    var rest := ids - {last};
    if exists i :: i in rest && Matches(rows[i], t, now) {
      var other := SomeVisitIsLast(rows, t, now, rest);
      if Later(rows, other, last) { last := other; }
    }
  }

  lemma LastTouchExists(rows: map<nat, Event>, t: Touch, now: int)
    ensures LastTouch(rows, t, now).Some? <==> exists i :: i in rows && Matches(rows[i], t, now)
  {
    if exists i :: i in rows && Matches(rows[i], t, now) {
      var last := SomeVisitIsLast(rows, t, now, rows.Keys);
      assert IsLastTouch(rows, t, now, last);
    }
  }

  /** EXACT. A conversion is stored if and only if it has a reference, no owner's check fails, one of the eligible
      owners was visited in the last seven days by the device or the account, and the reference is new. */
  lemma ConversionStoredExactlyWhen(log: Log, r: Request, now: int)
    requires r.ConversionRequest?
    ensures Handle(log, r, now).1 <==>
      && r.ref != "" && (forall i: nat :: !FailsAt(r.candidates, i))
      && (exists i :: i in log.rows && IsOwnVisit(log.rows[i], r, now))
      && (forall i :: i in log.rows ==> log.rows[i].dedupe != Some(ConversionDedupe(r.ctype, r.ref)))
  {
    ScreenedMeans(r.candidates);
    hide Screened, FailsAt, IsEligible;
    if ConversionAccepted(r) {
      LastTouchExists(log.rows, TouchOf(r), now);
      forall i | i in log.rows {
        OwnVisitsMatch(r, log.rows[i], now);
      }
    }
  }

  /** A share is always stored, as it is, without any visitor. */
  lemma SharesAreStored(log: Log, owner: Owner, tags: Tags, now: int)
    ensures var (after, stored) := Handle(log, ShareRequest(owner, tags), now);
      && stored && log.next in after.rows && after.rows == log.rows[log.next := after.rows[log.next]]
      && var e := after.rows[log.next];
      e.kind == Share && e.owner == owner && e.tags == tags && e.at == now && e.actor == None && e.account == None
  {
  }

  // ---- where account links come from ----

  /** Row `i` was stored by request `k`, a visit without consent of the account it is linked to. */
  ghost predicate LinkedBy(h: History, k: nat, i: nat, e: Event) {
    && k < |h| && h[k].0.VisitRequest? && !h[k].0.consent && i == Replay(Log(map[], 0), h[..k]).next
    && h[k].0.viewer.Some? && IsUuid(h[k].0.viewer.value) && h[k].0.owner == e.owner && h[k].1 == e.at
    && e.account == Some(AccountKey(e.owner, h[k].0.viewer.value))
  }

  lemma AccountsAfter(log: Log, r: Request, now: int, i: nat)
    requires Consistent(log, now)
    requires var rows := Handle(log, r, now).0.rows; i in rows && rows[i].account.Some?
    ensures var rows := Handle(log, r, now).0.rows;
      || (i in log.rows && rows[i].account == log.rows[i].account && rows[i].owner == log.rows[i].owner
          && rows[i].at == log.rows[i].at)
      || (i == log.next && r.VisitRequest? && !r.consent && r.viewer.Some? && IsUuid(r.viewer.value)
          && rows[i].owner == r.owner && rows[i].at == now
          && rows[i].account == Some(AccountKey(r.owner, r.viewer.value)))
  {
  }

  /** NO LINK WITH CONSENT. In every log the service can reach, a row with an account link was stored by a visit without
      consent of that very account to that owner. */
  lemma {:induction false} LinksAreWithoutConsent(h: History, from: int, i: nat)
    requires InOrder(h, from)
    requires var rows := Replay(Log(map[], 0), h).rows; i in rows && rows[i].account.Some?
    ensures exists k: nat :: LinkedBy(h, k, i, Replay(Log(map[], 0), h).rows[i])
    decreases |h|
  {
    hide Handle, Consistent;
    if h != [] {
      var n := |h| - 1;
      var g := h[..n];
      var before, log := Replay(Log(map[], 0), g), Replay(Log(map[], 0), h);
      ReplayLast(Log(map[], 0), h);
      EndTimeLast(h, from);
      EmptyConsistent(from);
      ReplayKeepsConsistent(Log(map[], 0), g, from);
      ConsistentStays(before, EndTime(g, from), h[n].1);
      AccountsAfter(before, h[n].0, h[n].1, i);
      if i in before.rows && before.rows[i].account == log.rows[i].account {
        LinksAreWithoutConsent(g, from, i);
        var k: nat :| LinkedBy(g, k, i, before.rows[i]);
        assert g[..k] == h[..k];
        assert LinkedBy(h, k, i, log.rows[i]);
      } else {
        assert LinkedBy(h, n, i, log.rows[i]);
      }
    }
  }

  // ---- from one device to another ----

  function VisitBy(owner: Owner, visitor: string, account: string, consent: bool, tags: Tags): Request {
    VisitRequest(owner, visitor, Some(account), No, Yes, consent, tags)
  }

  function ConvertFrom(owner: Owner, device: string, account: string, ctype: ConversionType, ref: string): Request {
    ConversionRequest([Candidate(Some(owner), No)], device, Some(account), ctype, ref, None)
  }

  lemma OneOwnerScreened(owner: Owner)
    ensures Screened([Candidate(Some(owner), No)]) == Some([owner])
  {
    var c := [Candidate(Some(owner), No)];
    assert c[..0] == [] && Screened(c[..0]) == Some([]);
    assert Screened(c) == Some([] + [owner]);
    assert [] + [owner] == [owner];
  }

  /** ACROSS DEVICES. A visit stored without consent is the last touch of a conversion by the same account within the
      next seven days, from whatever device, and the stored conversion names it. */
  lemma AccountCarriesOver(log: Log, owner: Owner, visitor: string, device: string, account: string, tags: Tags,
                           ctype: ConversionType, ref: string, now: int, later: int)
    requires Consistent(log, now) && now <= later <= now + 7 * 86400
    requires Handle(log, VisitBy(owner, visitor, account, false, tags), now).1 && IsUuid(account)
    requires ref != "" && !HasKey(log.rows, Some(ConversionDedupe(ctype, ref)))
    ensures var visited := Handle(log, VisitBy(owner, visitor, account, false, tags), now).0;
      var (after, stored) := Handle(visited, ConvertFrom(owner, device, account, ctype, ref), later);
      && stored && visited.next in after.rows && after.rows[visited.next].kind == Conversion
      && after.rows[visited.next].visit == Some(log.next) && after.rows[visited.next].tags == tags
  {
    var visit := VisitBy(owner, visitor, account, false, tags);
    var convert := ConvertFrom(owner, device, account, ctype, ref);
    var visited := Handle(log, visit, now).0;
    OneOwnerScreened(owner);
    assert visited.rows[log.next] == VisitEvent(visit, now);
    assert Matches(visited.rows[log.next], TouchOf(convert), later);
    forall j | j in visited.rows && j != log.next
      ensures Later(visited.rows, log.next, j)
    {
      assert j in log.rows;
    }
    LastTouchIs(visited.rows, TouchOf(convert), later, log.next);
    assert !HasKey(visited.rows, Some(ConversionDedupe(ctype, ref)));
  }

  /** EXACT. On an empty log, a visit and then a conversion by the same account from another device: the conversion is
      attributed if and only if the visitor did not consent. */
  lemma AttributedAcrossDevicesExactlyWhenNoConsent(
    owner: Owner, visitor: string, device: string, account: string, consent: bool, tags: Tags, ctype: ConversionType,
    ref: string, now: int)
    requires IsUuid(visitor) && IsUuid(account) && ref != "" && device != visitor
    ensures var visited := Handle(Log(map[], 0), VisitBy(owner, visitor, account, consent, tags), now).0;
      Handle(visited, ConvertFrom(owner, device, account, ctype, ref), now).1 <==> !consent
  {
    var visit := VisitBy(owner, visitor, account, consent, tags);
    var convert := ConvertFrom(owner, device, account, ctype, ref);
    var visited := Handle(Log(map[], 0), visit, now).0;
    assert visited.rows == map[0 := VisitEvent(visit, now)];
    ConversionStoredExactlyWhen(visited, convert, now);
    assert IsEligible(convert.candidates, owner) by { assert convert.candidates[0].own == No; }
    assert IsOwnVisit(visited.rows[0], convert, now) <==> !consent;
    hide Handle;
  }
}
