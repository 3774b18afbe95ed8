/** The promotion event log: visits and conversions with deduplication, last-touch attribution, and the jobs
    that clear account links and prune old rows. Times are in seconds. SHA-256 is taken to be injective. */
module Promotion {
  import opened Options
  import opened Text

  const DAY: int := 86400
  const ATTRIBUTION: int := 7 * DAY
  const LONGEST_WINDOW: int := 365

  datatype Owner = Helper(user: string) | Business(id: nat)
  datatype Key = VisitorKey(owner: Owner, visitor: string) | AccountKey(owner: Owner, user: string)
  datatype ConversionType = Booking | Appointment | Order | Job
  datatype Reason = Cancelled | Refunded
  datatype Kind = Share | Visit | Conversion
  datatype Tags = Tags(source: string, medium: Option<string>, campaign: Option<string>, content: Option<string>)
  datatype Dedupe =
    | VisitDedupe(actor: Key, source: string, campaign: Option<string>, day: int)
    | ConversionDedupe(ctype: ConversionType, ref: string)

  datatype Event = Event(
    owner: Owner, kind: Kind, tags: Tags, at: int,
    actor: Option<Key>, account: Option<Key>, dedupe: Option<Dedupe>,
    ctype: Option<ConversionType>, visit: Option<nat>, reversed: Option<(int, Reason)>)

  /** The table and its id sequence, which advances on a conflicting insert too. */
  datatype Log = Log(rows: map<nat, Event>, next: nat)

  // ---- requests ----

  /** A check against other tables: it can say yes or no, or fail. */
  datatype Check = Yes | No | Fails

  /** One candidate owner of a conversion, if the input names one, and whether the converter belongs to it. */
  datatype Candidate = Candidate(owner: Option<Owner>, own: Check)

  datatype Request =
    | ShareRequest(owner: Owner, tags: Tags)
    | VisitRequest(owner: Owner, visitor: string, viewer: Option<string>, own: Check, exists_: Check, consent: bool,
        tags: Tags)
    | ConversionRequest(candidates: seq<Candidate>, visitor: string, account: Option<string>, ctype: ConversionType,
        ref: string, reversal: Option<Reason>)
    | ReversalNotice(ctype: ConversionType, ref: string, reason: Reason)
    | ClearLinks
    | Prune(days: nat)

  function UuidOr(s: string): Option<string> {
    if IsUuid(s) then Some(s) else None
  }

  function AccountOr(s: Option<string>): Option<string> {
    if s.Some? then UuidOr(s.value) else None
  }

  // ---- insertion ----

  ghost predicate HasKey(rows: map<nat, Event>, key: Option<Dedupe>) {
    key.Some? && exists i :: i in rows && rows[i].dedupe == key
  }

  /** INSERT ... ON CONFLICT (dedupe_key) DO NOTHING. */
  ghost function Inserted(log: Log, e: Event): Log {
    Log(if HasKey(log.rows, e.dedupe) then log.rows else log.rows[log.next := e], log.next + 1)
  }

  function VisitEvent(r: Request, now: int): Event
    requires r.VisitRequest?
  {
    var actor := VisitorKey(r.owner, r.visitor);
    Event(r.owner, Visit, r.tags, now, Some(actor),
          if AccountOr(r.viewer).Some? && !r.consent then Some(AccountKey(r.owner, r.viewer.value)) else None,
          Some(VisitDedupe(actor, r.tags.source, r.tags.campaign, now / DAY)), None, None, None)
  }

  predicate VisitAccepted(r: Request)
    requires r.VisitRequest?
  {
    IsUuid(r.visitor) && (r.viewer.Some? ==> r.own == No) && r.exists_ == Yes
  }

  // ---- attribution ----

  /** The owners a conversion may go to, or None when a membership check fails, which abandons it: inputs that
      name no owner and repeated owners are passed over, owners of the converter's own are left out. */
  function Screened(candidates: seq<Candidate>): Option<seq<Owner>> {
    if candidates == [] then Some([])
    else
      var before := Screened(candidates[..|candidates| - 1]);
      var last := candidates[|candidates| - 1];
      if before == None || last.owner == None || last.owner.value in before.value then before
      else match last.own
        case Fails => None
        case Yes => before
        case No => Some(before.value + [last.owner.value])
  }

  lemma {:induction false} FailureStays(candidates: seq<Candidate>, n: nat)
    requires n <= |candidates| && Screened(candidates[..n]) == None
    ensures Screened(candidates) == None
  {
    if n == |candidates| {
      assert candidates[..n] == candidates;
    } else {
      assert candidates[..|candidates| - 1][..n] == candidates[..n];
      FailureStays(candidates[..|candidates| - 1], n);
    }
  }

  datatype Touch = Touch(owners: seq<Owner>, device: Option<string>, account: Option<string>)

  predicate Matches(e: Event, t: Touch, now: int) {
    && e.kind == Visit && e.owner in t.owners
    && ((t.device.Some? && e.actor == Some(VisitorKey(e.owner, t.device.value)))
        || (t.account.Some? && e.account == Some(AccountKey(e.owner, t.account.value))))
    && now - ATTRIBUTION <= e.at <= now
  }

  /** ORDER BY occurred_at DESC, id DESC. */
  predicate Later(rows: map<nat, Event>, i: nat, j: nat)
    requires i in rows && j in rows
  {
    rows[i].at > rows[j].at || (rows[i].at == rows[j].at && i > j)
  }

  ghost predicate IsLastTouch(rows: map<nat, Event>, t: Touch, now: int, id: nat) {
    && id in rows && Matches(rows[id], t, now)
    && forall j :: j in rows && j != id && Matches(rows[j], t, now) ==> Later(rows, id, j)
  }

  ghost function LastTouch(rows: map<nat, Event>, t: Touch, now: int): Option<nat> {
    if exists id :: IsLastTouch(rows, t, now, id) then
      var id :| IsLastTouch(rows, t, now, id);
      Some(id)
    else None
  }

  lemma LastTouchUnique(rows: map<nat, Event>, t: Touch, now: int, a: nat, b: nat)
    requires IsLastTouch(rows, t, now, a) && IsLastTouch(rows, t, now, b)
    ensures a == b
  {
  }

  lemma LastTouchIs(rows: map<nat, Event>, t: Touch, now: int, id: nat)
    requires IsLastTouch(rows, t, now, id)
    ensures LastTouch(rows, t, now) == Some(id)
  {
    LastTouchUnique(rows, t, now, id, LastTouch(rows, t, now).value);
  }

  /** Last touch, computed as the query does: the latest matching visit, or none. */
  method FindLastTouch(rows: map<nat, Event>, t: Touch, now: int) returns (best: Option<nat>)
    ensures best == LastTouch(rows, t, now)
    ensures best == None <==> forall j :: j in rows ==> !Matches(rows[j], t, now)
    ensures best.Some? ==> IsLastTouch(rows, t, now, best.value)
  {
    best := None;
    var left := rows.Keys;
    while left != {}
      invariant left <= rows.Keys
      invariant best == None ==> forall j :: j in rows && j !in left ==> !Matches(rows[j], t, now)
      invariant best.Some? ==> best.value in rows && best.value !in left && Matches(rows[best.value], t, now)
      invariant best.Some? ==>
        forall j :: j in rows && j !in left && j != best.value && Matches(rows[j], t, now) ==>
            Later(rows, best.value, j)
      decreases |left|
    {
      var id :| id in left;
      left := left - {id};
      if Matches(rows[id], t, now) && (best == None || Later(rows, id, best.value)) { best := Some(id); }
    }
    if best.Some? {
      assert IsLastTouch(rows, t, now, best.value);
      LastTouchUnique(rows, t, now, best.value, LastTouch(rows, t, now).value);
    }
  }

  function ConversionEvent(r: Request, v: Event, id: nat, now: int): Event
    requires r.ConversionRequest?
  {
    Event(v.owner, Conversion, v.tags, now, v.actor, None, Some(ConversionDedupe(r.ctype, r.ref)), Some(r.ctype),
          Some(id), if r.reversal.Some? then Some((now, r.reversal.value)) else None)
  }

  predicate ConversionAccepted(r: Request)
    requires r.ConversionRequest?
  {
    r.ref != "" && (UuidOr(r.visitor).Some? || AccountOr(r.account).Some?)
    && Screened(r.candidates).Some? && Screened(r.candidates).value != []
  }

  function TouchOf(r: Request): Touch
    requires r.ConversionRequest? && ConversionAccepted(r)
  {
    Touch(Screened(r.candidates).value, UuidOr(r.visitor), AccountOr(r.account))
  }

  // ---- maintenance ----

  /** Account links of visits older than the attribution window are cleared. */
  function Cleared(rows: map<nat, Event>, now: int): map<nat, Event> {
    map i | i in rows :: if rows[i].at < now - ATTRIBUTION then rows[i].(account := None) else rows[i]
  }

  /** Old rows are deleted, and references to a deleted visit become NULL. */
  function Pruned(rows: map<nat, Event>, days: nat, now: int): map<nat, Event> {
    var kept := map i | i in rows && rows[i].at >= now - days * DAY :: rows[i];
    map i | i in kept ::
      if kept[i].visit.Some? && kept[i].visit.value !in kept then kept[i].(visit := None) else kept[i]
  }

  function Reversed(rows: map<nat, Event>, ctype: ConversionType, ref: string, reason: Reason, now: int)
    : map<nat, Event>
  {
    map i | i in rows ::
      if rows[i].dedupe == Some(ConversionDedupe(ctype, ref)) && rows[i].kind == Conversion && rows[i].reversed == None
      then rows[i].(reversed := Some((now, reason))) else rows[i]
  }

  // ---- one request ----

  /** The log and the answer after a request at time `now`. */
  ghost function Handle(log: Log, r: Request, now: int): (Log, bool) {
    match r
    case ShareRequest(owner, tags) =>
      (Inserted(log, Event(owner, Share, tags, now, None, None, None, None, None, None)), true)
    case VisitRequest(_, _, _, _, _, _, _) =>
      if !VisitAccepted(r) then (log, false)
      else (Inserted(log, VisitEvent(r, now)), !HasKey(log.rows, VisitEvent(r, now).dedupe))
    case ConversionRequest(_, _, _, ctype, ref, _) =>
      if !ConversionAccepted(r) then (log, false)
      else var id := LastTouch(log.rows, TouchOf(r), now);
        if id == None || id.value !in log.rows then (log, false)
        else (Inserted(log, ConversionEvent(r, log.rows[id.value], id.value, now)),
              !HasKey(log.rows, Some(ConversionDedupe(ctype, ref))))
    case ReversalNotice(ctype, ref, reason) => (log.(rows := Reversed(log.rows, ctype, ref, reason, now)), true)
    case ClearLinks => (log.(rows := Cleared(log.rows, now)), true)
    case Prune(days) => (log.(rows := Pruned(Cleared(log.rows, now), days, now)), true)
  }

  // ---- the log as the service updates it ----

  class PromotionLog {
    var rows: map<nat, Event>
    var next: nat

    ghost function Contents(): Log
      reads this
    {
      Log(rows, next)
    }

    constructor ()
      ensures Contents() == Log(map[], 0)
    {
      rows, next := map[], 0;
    }

    method InsertEvent(e: Event) returns (stored: bool)
      modifies this
      ensures Contents() == Inserted(old(Contents()), e)
      ensures stored == !HasKey(old(rows), e.dedupe)
    {
      var taken := false;
      if e.dedupe.Some? {
        var left := rows.Keys;
        while left != {} && !taken
          invariant left <= rows.Keys
          invariant taken ==> HasKey(rows, e.dedupe)
          invariant !taken ==> forall i :: i in rows && i !in left ==> rows[i].dedupe != e.dedupe
          decreases |left|
        {
          var i :| i in left;
          left := left - {i};
          if rows[i].dedupe == e.dedupe { taken := true; }
        }
      }
      if !taken { rows := rows[next := e]; }
      next := next + 1;
      stored := !taken;
    }

    /** A visit is stored unless the visitor is unknown, the viewer belongs to the owner or cannot be checked, the owner
        does not exist, or the visitor has been there that day. It is linked to the account of a signed-in viewer only
        without consent to analytics. */
    method RecordVisit(r: Request, now: int) returns (stored: bool)
      requires r.VisitRequest?
      modifies this
      ensures (Contents(), stored) == Handle(old(Contents()), r, now)
      ensures var today := VisitDedupe(VisitorKey(r.owner, r.visitor), r.tags.source, r.tags.campaign, now / DAY);
        stored <==> IsUuid(r.visitor) && (r.viewer == None || r.own == No) && r.exists_ == Yes
                    && forall i :: i in old(rows) ==> old(rows)[i].dedupe != Some(today)
      ensures !stored ==> rows == old(rows)
      ensures stored ==>
        && old(next) in rows && rows == old(rows)[old(next) := rows[old(next)]]
        && var e := rows[old(next)];
        && e.owner == r.owner && e.kind == Visit && e.tags == r.tags && e.at == now
        && e.actor == Some(VisitorKey(r.owner, r.visitor))
        && (e.account.Some? <==> !r.consent && r.viewer.Some? && IsUuid(r.viewer.value))
        && (e.account.Some? ==> e.account == Some(AccountKey(r.owner, r.viewer.value)))
    {
      if !IsUuid(r.visitor) { return false; }
      if r.viewer.Some? && r.own != No { return false; }
      if r.exists_ != Yes { return false; }
      stored := InsertEvent(VisitEvent(r, now));
    }

    method RecordConversion(r: Request, now: int) returns (stored: bool)
      requires r.ConversionRequest?
      modifies this
      ensures (Contents(), stored) == Handle(old(Contents()), r, now)
      ensures !stored ==> rows == old(rows)
      ensures stored ==>
        && old(next) in rows && rows == old(rows)[old(next) := rows[old(next)]]
        && var e := rows[old(next)];
        && e.kind == Conversion && e.at == now && e.ctype == Some(r.ctype) && e.account == None
        && e.reversed == if r.reversal == None then None else Some((now, r.reversal.value))
    {
      if r.ref == "" { return false; }
      var device, account := UuidOr(r.visitor), AccountOr(r.account);
      if device == None && account == None { return false; }
      var owners: seq<Owner> := [];
      for i := 0 to |r.candidates|
        invariant Screened(r.candidates[..i]) == Some(owners)
      {
        assert r.candidates[..i + 1][..i] == r.candidates[..i];
        var c := r.candidates[i];
        if c.owner == None || c.owner.value in owners { continue; }
        if c.own == Fails {
          FailureStays(r.candidates, i + 1);
          return false;
        }
        if c.own == Yes { continue; }
        owners := owners + [c.owner.value];
      }
      assert r.candidates[..|r.candidates|] == r.candidates;
      if owners == [] { return false; }
      var id := FindLastTouch(rows, Touch(owners, device, account), now);
      if id == None { return false; }
      stored := InsertEvent(ConversionEvent(r, rows[id.value], id.value, now));
    }

    /** The notice of a cancellation or refund: afterwards every conversion of that reference is reversed, those
        reversed before as they were, and nothing else has changed. */
    method ReverseConversion(r: Request, now: int)
      requires r.ReversalNotice?
      modifies this
      ensures Contents() == Handle(old(Contents()), r, now).0
      ensures rows.Keys == old(rows).Keys && next == old(next)
      ensures forall i | i in rows ::
        rows[i].kind == Conversion && rows[i].dedupe == Some(ConversionDedupe(r.ctype, r.ref)) ==>
            rows[i].reversed.Some?
      ensures forall i | i in rows ::
        || rows[i] == old(rows)[i]
        || (old(rows)[i].reversed == None && rows[i] == old(rows)[i].(reversed := Some((now, r.reason))))
    {
      rows := Reversed(rows, r.ctype, r.ref, r.reason, now);
    }

    /** After it runs, no account link is older than the attribution window. */
    method ClearExpiredAccountLinks(now: int)
      modifies this
      ensures Contents() == Handle(old(Contents()), ClearLinks, now).0
      ensures forall i :: i in rows && rows[i].account.Some? ==> rows[i].at >= now - ATTRIBUTION
    {
      rows := Cleared(rows, now);
    }

    method PrunePromotionLinkEvents(days: nat, now: int)
      modifies this
      ensures Contents() == Handle(old(Contents()), Prune(days), now).0
      ensures forall i :: i in rows ==> rows[i].at >= now - days * DAY
      ensures forall i :: i in rows && rows[i].account.Some? ==> rows[i].at >= now - ATTRIBUTION
    {
      ClearExpiredAccountLinks(now);
      rows := Pruned(rows, days, now);
    }
  }

  // ---- what every reachable log satisfies ----

  /** A conversion's visit: same owner and tags, same actor, at most seven days earlier. */
  ghost predicate Attributed(rows: map<nat, Event>, c: Event) {
    c.visit.Some? ==>
      && c.visit.value in rows
      && var v := rows[c.visit.value];
      && v.kind == Visit && v.owner == c.owner && v.tags == c.tags && v.actor == c.actor
      && c.at - ATTRIBUTION <= v.at <= c.at
  }

  /** What an inserted row must look like. */
  ghost predicate WellFormed(rows: map<nat, Event>, e: Event) {
    match e.kind
    case Visit => e.visit == None && e.dedupe.Some? && e.dedupe.value.VisitDedupe? && e.dedupe.value.day == e.at / DAY
    case Share => e.visit == None && e.dedupe == None
    case Conversion =>
      e.account == None && e.ctype.Some? && e.dedupe.Some? && e.dedupe.value.ConversionDedupe?
      && e.dedupe.value.ctype == e.ctype.value && Attributed(rows, e)
  }

  ghost predicate Consistent(log: Log, now: int) {
    && (forall i :: i in log.rows ==> i < log.next && log.rows[i].at <= now && WellFormed(log.rows, log.rows[i]))
    && (forall i, j :: i in log.rows && j in log.rows && i != j && log.rows[i].dedupe.Some? ==>
          log.rows[i].dedupe != log.rows[j].dedupe)
  }

  lemma InsertKeepsConsistent(log: Log, e: Event, now: int)
    requires Consistent(log, now) && e.at <= now && WellFormed(log.rows, e)
    ensures Consistent(Inserted(log, e), now)
  {
    if !HasKey(log.rows, e.dedupe) {
      var rows := log.rows[log.next := e];
      forall i | i in rows
        ensures WellFormed(rows, rows[i])
      {
        assert i != log.next ==> WellFormed(log.rows, log.rows[i]);
      }
    }
  }

  lemma ClearKeepsConsistent(log: Log, now: int)
    requires Consistent(log, now)
    ensures Consistent(log.(rows := Cleared(log.rows, now)), now)
  {
    var rows := Cleared(log.rows, now);
    forall i | i in rows
      ensures WellFormed(rows, rows[i])
    {
      assert WellFormed(log.rows, log.rows[i]);
    }
  }

  lemma PruneKeepsConsistent(log: Log, days: nat, now: int)
    requires Consistent(log, now)
    ensures Consistent(log.(rows := Pruned(log.rows, days, now)), now)
  {
    var rows := Pruned(log.rows, days, now);
    forall i | i in rows
      ensures WellFormed(rows, rows[i])
    {
      assert WellFormed(log.rows, log.rows[i]);
    }
  }

  lemma ReverseKeepsConsistent(log: Log, ctype: ConversionType, ref: string, reason: Reason, now: int)
    requires Consistent(log, now)
    ensures Consistent(log.(rows := Reversed(log.rows, ctype, ref, reason, now)), now)
  {
    var rows := Reversed(log.rows, ctype, ref, reason, now);
    forall i | i in rows
      ensures WellFormed(rows, rows[i])
    {
      assert WellFormed(log.rows, log.rows[i]);
    }
  }

  /** Every request keeps the log consistent, at its own time and at any later one. */
  lemma HandleKeepsConsistent(log: Log, r: Request, before: int, now: int)
    requires Consistent(log, before) && before <= now
    ensures Consistent(Handle(log, r, now).0, now)
  {
    hide WellFormed;
    assert Consistent(log, now);
    match r
    case ShareRequest(owner, tags) => ShareKeepsConsistent(log, r, now);
    case VisitRequest(_, _, _, _, _, _, _) => VisitKeepsConsistent(log, r, now);
    case ConversionRequest(_, _, _, _, _, _) => ConversionKeepsConsistent(log, r, now);
    case ReversalNotice(ctype, ref, reason) => ReverseKeepsConsistent(log, ctype, ref, reason, now);
    case ClearLinks => ClearKeepsConsistent(log, now);
    case Prune(days) =>
      ClearKeepsConsistent(log, now);
      PruneKeepsConsistent(log.(rows := Cleared(log.rows, now)), days, now);
  }

  lemma ShareKeepsConsistent(log: Log, r: Request, now: int)
    requires Consistent(log, now) && r.ShareRequest?
    ensures Consistent(Handle(log, r, now).0, now)
  {
    InsertKeepsConsistent(log, Event(r.owner, Share, r.tags, now, None, None, None, None, None, None), now);
  }

  lemma VisitKeepsConsistent(log: Log, r: Request, now: int)
    requires Consistent(log, now) && r.VisitRequest?
    ensures Consistent(Handle(log, r, now).0, now)
  {
    InsertKeepsConsistent(log, VisitEvent(r, now), now);
  }

  lemma ConversionKeepsConsistent(log: Log, r: Request, now: int)
    requires Consistent(log, now) && r.ConversionRequest?
    ensures Consistent(Handle(log, r, now).0, now)
  {
    if ConversionAccepted(r) {
      var id := LastTouch(log.rows, TouchOf(r), now);
      if id.Some? && id.value in log.rows {
        assert Matches(log.rows[id.value], TouchOf(r), now);
        InsertKeepsConsistent(log, ConversionEvent(r, log.rows[id.value], id.value, now), now);
      }
    }
  }

  // ---- whole histories ----

  /** Requests with the times they are handled at, earliest first. */
  type History = seq<(Request, int)>

  ghost predicate InOrder(h: History, from: int) {
    h == [] || (from <= h[0].1 && InOrder(h[1..], h[0].1))
  }

  ghost function Replay(log: Log, h: History): Log
    decreases |h|
  {
    if h == [] then log else Replay(Handle(log, h[0].0, h[0].1).0, h[1..])
  }

  function EndTime(h: History, from: int): int {
    if h == [] then from else EndTime(h[1..], h[0].1)
  }

  lemma {:induction false} ReplayKeepsConsistent(log: Log, h: History, from: int)
    requires Consistent(log, from) && InOrder(h, from)
    ensures Consistent(Replay(log, h), EndTime(h, from))
    decreases |h|
  {
    hide Consistent, Handle;
    if h != [] {
      HandleKeepsConsistent(log, h[0].0, from, h[0].1);
      ReplayKeepsConsistent(Handle(log, h[0].0, h[0].1).0, h[1..], h[0].1);
    }
  }

  // ---- where a conversion comes from ----

  /** What every request leaves of a conversion: its owner, tags, time, actor and reference. */
  predicate SameConversion(before: Event, after: Event) {
    after == before.(account := after.account, visit := after.visit, reversed := after.reversed)
  }

  /** A conversion names its visit exactly as long as the visit's row exists. */
  predicate NamesIfThere(rows: map<nat, Event>, c: Event, v: nat) {
    c.visit == if v in rows then Some(v) else None
  }

  ghost predicate StoredNow(log: Log, r: Request, now: int, v: nat, c: Event) {
    && r.ConversionRequest? && ConversionAccepted(r) && IsLastTouch(log.rows, TouchOf(r), now, v)
    && c.kind == Conversion && c.at == now && c.dedupe == Some(ConversionDedupe(r.ctype, r.ref))
    && c.owner == log.rows[v].owner && c.tags == log.rows[v].tags && c.actor == log.rows[v].actor
  }

  /** A conversion in the log after a request was in it before, or is stored by this request and is last touch. */
  lemma ConversionsAfter(log: Log, r: Request, now: int, i: nat)
    requires Consistent(log, now)
    requires var rows := Handle(log, r, now).0.rows; i in rows && rows[i].kind == Conversion
    ensures var rows := Handle(log, r, now).0.rows;
      (i in log.rows && SameConversion(log.rows[i], rows[i])
       && forall v: nat :: v < log.next && NamesIfThere(log.rows, log.rows[i], v) ==> NamesIfThere(rows, rows[i], v))
      || (i == log.next && exists v: nat ::
            v < log.next && StoredNow(log, r, now, v, rows[i]) && NamesIfThere(rows, rows[i], v))
  {
    hide Consistent;
    match r
    case ConversionRequest(_, _, _, _, _, _) =>
      if ConversionAccepted(r) { ConversionsAfterConversion(log, r, now, i); }
    case _ =>
      assert forall v: nat :: v < log.next ==> (v in Handle(log, r, now).0.rows ==> v in log.rows);
  }

  lemma ConversionsAfterConversion(log: Log, r: Request, now: int, i: nat)
    requires Consistent(log, now) && r.ConversionRequest? && ConversionAccepted(r)
    requires var rows := Handle(log, r, now).0.rows; i in rows && rows[i].kind == Conversion
    ensures var rows := Handle(log, r, now).0.rows;
      (i in log.rows && SameConversion(log.rows[i], rows[i])
       && forall v: nat :: v < log.next && NamesIfThere(log.rows, log.rows[i], v) ==> NamesIfThere(rows, rows[i], v))
      || (i == log.next && exists v: nat ::
            v < log.next && StoredNow(log, r, now, v, rows[i]) && NamesIfThere(rows, rows[i], v))
  {
    hide Matches, WellFormed;
    var rows := Handle(log, r, now).0.rows;
    if rows != log.rows {
      var v := LastTouch(log.rows, TouchOf(r), now).value;
      assert IsLastTouch(log.rows, TouchOf(r), now, v) && v < log.next;
      if i == log.next { assert StoredNow(log, r, now, v, rows[i]) && NamesIfThere(rows, rows[i], v); }
    }
  }

  /** The conversion in row `i` was stored by the history's request `k`, as last touch of the visit in row `v`. */
  ghost predicate StoredBy(h: History, k: nat, v: nat, i: nat, c: Event) {
    k < |h| && var log := Replay(Log(map[], 0), h[..k]);
      i == log.next && v < log.next && StoredNow(log, h[k].0, h[k].1, v, c)
  }

  lemma {:induction false} ReplayLast(log: Log, h: History)
    requires h != []
    ensures var before := Replay(log, h[..|h| - 1]);
      Replay(log, h) == Handle(before, h[|h| - 1].0, h[|h| - 1].1).0
    decreases |h|
  {
    hide Handle;
    if |h| > 1 {
      assert h[1..][..|h| - 2] == h[..|h| - 1][1..];
      ReplayLast(Handle(log, h[0].0, h[0].1).0, h[1..]);
    }
  }

  lemma {:induction false} EndTimeLast(h: History, from: int)
    requires h != [] && InOrder(h, from)
    ensures EndTime(h, from) == h[|h| - 1].1
    ensures InOrder(h[..|h| - 1], from) && EndTime(h[..|h| - 1], from) <= h[|h| - 1].1
  {
    if |h| > 1 {
      assert h[1..][..|h| - 2] == h[..|h| - 1][1..];
      EndTimeLast(h[1..], h[0].1);
    }
  }

  lemma NextGrows(log: Log, r: Request, now: int)
    ensures log.next <= Handle(log, r, now).0.next
  {
  }

  lemma {:induction false} ConversionsAreLastTouch(h: History, from: int, i: nat)
    requires InOrder(h, from)
    requires var rows := Replay(Log(map[], 0), h).rows; i in rows && rows[i].kind == Conversion
    ensures var log := Replay(Log(map[], 0), h);
      exists k: nat, v: nat ::
        StoredBy(h, k, v, i, log.rows[i]) && v < log.next && NamesIfThere(log.rows, log.rows[i], v)
    decreases |h|
  {
    hide Handle, IsLastTouch, Consistent;
    if h != [] {
      var n := |h| - 1;
      var g, r, now := h[..n], h[n].0, h[n].1;
      var before, log := Replay(Log(map[], 0), g), Replay(Log(map[], 0), h);
      ReplayLast(Log(map[], 0), h);
      EndTimeLast(h, from);
      EmptyConsistent(from);
      ReplayKeepsConsistent(Log(map[], 0), g, from);
      HandleKeepsConsistent(before, ClearLinks, EndTime(g, from), now);
      ConsistentStays(before, EndTime(g, from), now);
      ConversionsAfter(before, r, now, i);
      NextGrows(before, r, now);
      if i in before.rows && SameConversion(before.rows[i], log.rows[i]) {
        ConversionsAreLastTouch(g, from, i);
        var k: nat, v: nat :| StoredBy(g, k, v, i, before.rows[i]) && v < before.next
            && NamesIfThere(before.rows, before.rows[i], v);
        assert g[..k] == h[..k];
        assert StoredBy(h, k, v, i, log.rows[i]);
      } else {
        var v: nat :| v < before.next && StoredNow(before, r, now, v, log.rows[i])
            && NamesIfThere(log.rows, log.rows[i], v);
        assert StoredBy(h, n, v, i, log.rows[i]);
      }
    }
  }

  lemma EmptyConsistent(now: int)
    ensures Consistent(Log(map[], 0), now)
  {
  }

  lemma ConsistentStays(log: Log, before: int, now: int)
    requires Consistent(log, before) && before <= now
    ensures Consistent(log, now)
  {
  }

  ghost predicate Retains(h: History, days: nat) {
    forall k :: 0 <= k < |h| && h[k].0.Prune? ==> h[k].0.days >= days
  }

  ghost predicate RecentVisitsNamed(log: Log, days: nat, now: int) {
    forall i :: i in log.rows && log.rows[i].kind == Conversion && log.rows[i].at >= now - days * DAY + ATTRIBUTION ==>
      log.rows[i].visit.Some?
  }

  lemma PruneKeepsRecentNamed(log: Log, days: nat, r: Request, before: int, now: int)
    requires Consistent(log, now) && RecentVisitsNamed(log, days, before) && before <= now
    requires r.Prune? && r.days >= days
    ensures RecentVisitsNamed(Handle(log, r, now).0, days, now)
  {
    assert r.days * DAY >= days * DAY;
    var rows := Handle(log, r, now).0.rows;
    forall i | i in rows && rows[i].kind == Conversion && rows[i].at >= now - days * DAY + ATTRIBUTION
      ensures rows[i].visit.Some?
    {
      assert i in log.rows && log.rows[i].visit.Some?;
      assert Attributed(log.rows, log.rows[i]) by { assert WellFormed(log.rows, log.rows[i]); }
    }
  }

  lemma HandleKeepsRecentNamed(log: Log, days: nat, r: Request, before: int, now: int)
    requires Consistent(log, now) && RecentVisitsNamed(log, days, before) && before <= now
    requires r.Prune? ==> r.days >= days
    ensures RecentVisitsNamed(Handle(log, r, now).0, days, now)
  {
    match r
    case Prune(_) => PruneKeepsRecentNamed(log, days, r, before, now);
    case ConversionRequest(_, _, _, _, _, _) =>
    case _ =>
  }

  lemma {:induction false} RecentConversionsNameTheirVisit(log: Log, h: History, days: nat, from: int)
    requires Consistent(log, from) && RecentVisitsNamed(log, days, from) && InOrder(h, from) && Retains(h, days)
    ensures RecentVisitsNamed(Replay(log, h), days, EndTime(h, from))
    decreases |h|
  {
    hide Consistent, Handle, RecentVisitsNamed;
    if h != [] {
      var r, now := h[0].0, h[0].1;
      ConsistentStays(log, from, now);
      HandleKeepsRecentNamed(log, days, r, from, now);
      HandleKeepsConsistent(log, r, from, now);
      assert forall k :: 0 <= k < |h[1..]| ==> h[1..][k] == h[k + 1];
      RecentConversionsNameTheirVisit(Handle(log, r, now).0, h[1..], days, now);
    }
  }

  /** ATTRIBUTION. In every log the service can reach, whatever was pruned: each conversion was stored by one of
      the requests when the visit in some row `v` was the last touch, so that no matching visit of any candidate
      owner was later, and it names `v` exactly as long as that row exists, which then has the same owner, tags
      and actor and is at most seven days older. No two rows share a dedupe key, so a reference has at most one
      conversion per type and a visitor at most one visit per owner, source, campaign and day. */
  lemma ReachableLogsAreAttributed(h: History, from: int, c: nat, d: nat)
    requires InOrder(h, from)
    ensures var rows := Replay(Log(map[], 0), h).rows;
      && (c in rows && rows[c].kind == Conversion ==>
            Attributed(rows, rows[c])
            && exists k: nat, v: nat :: StoredBy(h, k, v, c, rows[c]) && NamesIfThere(rows, rows[c], v))
      && (c in rows && d in rows && rows[c].dedupe.Some? && rows[c].dedupe == rows[d].dedupe ==> c == d)
  {
    hide Replay, StoredBy;
    ReplayKeepsConsistent(Log(map[], 0), h, from);
    var rows := Replay(Log(map[], 0), h).rows;
    if c in rows && rows[c].kind == Conversion {
      assert WellFormed(rows, rows[c]);
      ConversionsAreLastTouch(h, from, c);
    }
  }

  /** RETENTION. If rows are never pruned before `days` days, every conversion from the last `days` less seven
      days still names its visit. */
  lemma RecentConversionsAreAttributed(h: History, from: int, days: nat, c: nat)
    requires InOrder(h, from) && Retains(h, days)
    ensures var rows := Replay(Log(map[], 0), h).rows;
      c in rows && rows[c].kind == Conversion && rows[c].at >= EndTime(h, from) - days * DAY + ATTRIBUTION ==>
        rows[c].visit.Some? && Attributed(rows, rows[c])
  {
    hide Replay;
    ReplayKeepsConsistent(Log(map[], 0), h, from);
    RecentConversionsNameTheirVisit(Log(map[], 0), h, days, from);
    var rows := Replay(Log(map[], 0), h).rows;
    if c in rows && rows[c].kind == Conversion { assert WellFormed(rows, rows[c]); }
  }

  // ---- reversal ----

  lemma IdsAreBelowNext(log: Log, now: int, i: nat)
    requires Consistent(log, now) && i in log.rows
    ensures i < log.next
  {
  }

  /** A reversed conversion keeps the time and reason of its first reversal through every later request. */
  lemma {:induction false} ReversalIsFinal(log: Log, h: History, from: int, i: nat)
    requires Consistent(log, from) && InOrder(h, from)
    requires i in log.rows && log.rows[i].reversed.Some? && i in Replay(log, h).rows
    ensures Replay(log, h).rows[i].reversed == log.rows[i].reversed
    decreases |h|
  {
    hide Consistent, Handle;
    if h != [] {
      var r, now := h[0].0, h[0].1;
      var next := Handle(log, r, now).0;
      ConsistentStays(log, from, now);
      HandleKeepsConsistent(log, r, from, now);
      IdsAreBelowNext(log, from, i);
      NextGrows(log, r, now);
      RowsStayGone(next, h[1..], now, i);
      RowAfter(log, r, now, i);
      ReversalIsFinal(next, h[1..], now, i);
    }
  }

  lemma RowAfter(log: Log, r: Request, now: int, i: nat)
    requires Consistent(log, now) && i < log.next
    ensures var rows := Handle(log, r, now).0.rows;
      i in rows ==> i in log.rows && (log.rows[i].reversed.Some? ==> rows[i].reversed == log.rows[i].reversed)
  {
  }

  /** A deleted row's id is never used again. */
  lemma {:induction false} RowsStayGone(log: Log, h: History, from: int, i: nat)
    requires Consistent(log, from) && InOrder(h, from) && i < log.next && i in Replay(log, h).rows
    ensures i in log.rows
    decreases |h|
  {
    hide Consistent, Handle;
    if h != [] {
      var r, now := h[0].0, h[0].1;
      ConsistentStays(log, from, now);
      HandleKeepsConsistent(log, r, from, now);
      NextGrows(log, r, now);
      RowsStayGone(Handle(log, r, now).0, h[1..], now, i);
      RowAfter(log, r, now, i);
    }
  }
}
