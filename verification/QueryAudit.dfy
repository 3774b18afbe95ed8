/** The query builder's audit ledger, and the pages in which the evidence beneath a figure is read. */
module QueryAudit {
  import opened Calls
  import opened Options

  const PAGE: nat := 100
  const ROW_CAP: nat := 10000
  const MAX_OFFSET: nat := 1000000

  // ---- one page ----

  datatype Page<T> = Page(rows: seq<T>, truncated: bool)

  /** What LIMIT and OFFSET return of an ordered result. */
  function Slice<T>(all: seq<T>, limit: nat, offset: nat): seq<T> {
    if offset >= |all| then [] else if offset + limit <= |all| then all[offset..offset + limit] else all[offset..]
  }

  /** runCappedQuery reads one row more than it returns, to know whether there are more. */
  function Capped<T>(all: seq<T>, cap: nat, offset: nat): Page<T> {
    var rows := Slice(all, cap + 1, offset);
    if |rows| > cap then Page(rows[..cap], true) else Page(rows, false)
  }

  lemma CappedIsThePage<T>(all: seq<T>, cap: nat, offset: nat)
    requires offset <= |all|
    ensures var p := Capped(all, cap, offset);
      && p.truncated == (offset + cap < |all|)
      && p.rows == if p.truncated then all[offset..offset + cap] else all[offset..]
  {
    if offset + cap < |all| {
      assert all[offset..offset + cap + 1][..cap] == all[offset..offset + cap];
    }
  }

  // ---- one attempt ----

  /** How far an attempt gets: refused on its shape, refused or failed later, or answered. */
  datatype Attempt<T> =
    | Invalid(code: string)
    | Forbidden(code: string)
    | Failing(code: string)
    | Answerable(all: seq<T>)

  datatype AuditRow = AuditRow(success: bool, code: string, rowCount: nat)

  /** A figure, a page of the records beneath it, or an export of them. */
  datatype Kind = Figure | EvidencePage | Export

  function CapOf(kind: Kind): nat {
    if kind.EvidencePage? then PAGE else ROW_CAP
  }

  /** Figures are read from the first row whatever offset is asked for. */
  function OffsetOf(kind: Kind, offset: int): int {
    if kind.Figure? then 0 else offset
  }

  datatype Response<T> = Returned(rows: seq<T>, truncated: bool, hasMore: bool) | Refused(code: string)

  /** A page is never called truncated; only evidence says whether there is more. */
  function Answer<T>(kind: Kind, p: Page<T>): Response<T> {
    Returned(p.rows, p.truncated && !kind.EvidencePage?, p.truncated && !kind.Figure?)
  }

  const UNAVAILABLE := "analytics_audit_unavailable"

  /** What an insert leaves in the ledger. */
  function Kept(row: AuditRow, fate: Fate): seq<AuditRow> {
    if fate == FailsBefore then [] else [row]
  }

  /** The error an attempt ends in before its success is audited, if any; pages beyond the last offset are refused
      once the caller's access is established. */
  function ErrorOf<T>(a: Attempt<T>, offset: int): Option<string> {
    match a
    case Invalid(code) => Some(code)
    case Forbidden(code) => Some(code)
    case Failing(code) => if 0 <= offset <= MAX_OFFSET then Some(code) else Some("invalid_param")
    case Answerable(_) => if 0 <= offset <= MAX_OFFSET then None else Some("invalid_param")
  }

  /** The rows an attempt leaves in the ledger, by the fates of its inserts: answers are audited before they are given,
      and an answer whose row cannot be confirmed is audited as an error. */
  function NewRows<T>(kind: Kind, a: Attempt<T>, offset: int, first: Fate, second: Fate): seq<AuditRow> {
    var at := OffsetOf(kind, offset);
    match ErrorOf(a, at)
    case Some(code) => Kept(AuditRow(false, code, 0), first)
    case None =>
      Kept(AuditRow(true, "", |Capped(a.all, CapOf(kind), at).rows|), first)
      + if first == Done then [] else Kept(AuditRow(false, UNAVAILABLE, 0), second)
  }

  class Builder<T> {
    var log: seq<AuditRow>

    constructor (log: seq<AuditRow>)
      ensures this.log == log
    {
      this.log := log;
    }

    /** auditAttempt; false is the 503 error. */
    method AuditAttempt(row: AuditRow, fate: Fate) returns (ok: bool)
      modifies this
      ensures log == old(log) + Kept(row, fate) && ok == (fate == Done)
    {
      if fate != FailsBefore {
        log := log + [row];
      }
      ok := fate == Done;
    }

    /** executeBuilderQuery: rows are disclosed only once their success row is durable. */
    method Execute(kind: Kind, a: Attempt<T>, offset: int, first: Fate, second: Fate) returns (r: Response<T>)
      modifies this
      ensures var at := OffsetOf(kind, offset);
        && (r.Returned? <==> ErrorOf(a, at) == None && first == Done)
        && (r.Returned? ==>
              && a.Answerable? && at >= 0 && r == Answer(kind, Capped(a.all, CapOf(kind), at))
              && r.truncated == (kind != EvidencePage && |a.all| - at > CapOf(kind))
              && r.hasMore == (kind != Figure && |a.all| - at > CapOf(kind))
              && log == old(log) + [AuditRow(true, "", |r.rows|)])
        && (r.Refused? && ErrorOf(a, at) == None ==> r.code == UNAVAILABLE)
        && (r.Refused? && ErrorOf(a, at).Some? ==>
              r.code == if first != Done then UNAVAILABLE
                        else if (a.Failing? || a.Answerable?) && (at < 0 || at > 1000000) then "invalid_param"
                        else a.code)
        && (ErrorOf(a, at) == None <==> a.Answerable? && (kind == Figure || 0 <= offset <= 1000000))
        && log == old(log) + NewRows(kind, a, offset, first, second)
        && (ErrorOf(a, at).Some? ==>
              log == old(log) + if first == FailsBefore then [] else [AuditRow(false, ErrorOf(a, at).value, 0)])
        && (ErrorOf(a, at) == None && first != Done ==>
              log == old(log)
                + (if first == FailsAfter then [AuditRow(true, "", |Capped(a.all, CapOf(kind), at).rows|)] else [])
                + if second == FailsBefore then [] else [AuditRow(false, UNAVAILABLE, 0)])
        && forall i :: |old(log)| <= i < |log| && log[i].success ==>
             i == |old(log)| && ErrorOf(a, at) == None && first != FailsBefore
    {
      var at := OffsetOf(kind, offset);
      var error := ErrorOf(a, at);
      if error == None {
        var page := Capped(a.all, CapOf(kind), at);
        var ok := AuditAttempt(AuditRow(true, "", |page.rows|), first);
        if ok {
          return Answer(kind, page);
        }
        var _ := AuditAttempt(AuditRow(false, UNAVAILABLE, 0), second);
        return Refused(UNAVAILABLE);
      }
      var ok := AuditAttempt(AuditRow(false, error.value, 0), first);
      return Refused(if ok then error.value else UNAVAILABLE);
    }

    /** Reading every page: from offset 0 in steps of a page, while there is more; `first` and `second` are the fates
        of the inserts for each page. */
    method WalkEvidence(all: seq<T>, first: nat -> Fate, second: nat -> Fate)
      returns (rows: seq<T>, complete: bool)
      modifies this
      ensures complete <==>
        |all| <= MAX_OFFSET + PAGE && forall k: nat :: k < PagesOf(|all|) ==> first(k) == Done
      ensures complete ==> rows == all
      ensures !complete ==>
        && rows <= all && |rows| % PAGE == 0 && (forall k: nat :: k < |rows| / PAGE ==> first(k) == Done)
        && (|rows| == MAX_OFFSET + PAGE || first(|rows| / PAGE) != Done)
      ensures old(log) <= log
    {
      rows := [];
      var offset: nat := 0;
      while true
        invariant offset % PAGE == 0 && offset <= |all| && offset <= MAX_OFFSET + PAGE
        invariant offset == 0 || offset < |all|
        invariant rows == all[..offset]
        invariant forall k: nat :: k < offset / PAGE ==> first(k) == Done
        invariant old(log) <= log
        decreases |all| - offset
      {
        if offset <= MAX_OFFSET {
          CappedIsThePage(all, PAGE, offset);
        }
        assert offset / PAGE < PagesOf(|all|);
        var r := Execute(EvidencePage, Answerable(all), offset, first(offset / PAGE), second(offset / PAGE));
        if r.Refused? {
          return rows, false;
        }
        rows := rows + r.rows;
        if !r.hasMore {
          return rows, true;
        }
        offset := offset + PAGE;
      }
    }
  }

  /** The pages of a result; an empty one has an empty first page. */
  function PagesOf(n: nat): nat {
    if n == 0 then 1 else (n + PAGE - 1) / PAGE
  }

  /** The fate of the last insert an attempt makes. */
  function LastInsert(answered: bool, first: Fate, second: Fate): Fate {
    if answered && first != Done then second else first
  }

  /** When its last insert succeeds, an attempt leaves exactly one row unless the success row was kept but reported
      as failed: then a success row and a failure row are on record for rows that nobody was shown. */
  lemma OneRowExactlyWhen<T>(kind: Kind, a: Attempt<T>, offset: int, first: Fate, second: Fate)
    requires LastInsert(ErrorOf(a, OffsetOf(kind, offset)) == None, first, second) == Done
    ensures var answered := ErrorOf(a, OffsetOf(kind, offset)) == None;
      var left := NewRows(kind, a, offset, first, second);
      && (|left| == 1 <==> !(answered && first == FailsAfter))
      && (|left| != 1 ==> |left| == 2 && left[0].success && left[1] == AuditRow(false, UNAVAILABLE, 0))
  {
  }

  /** It happens whenever the reply to the insert of an answered figure's row is lost. */
  lemma LostReplyLeavesTwoRows<T>(rows: seq<T>)
    requires |rows| <= ROW_CAP
    ensures NewRows(Figure, Answerable(rows), 0, FailsAfter, Done)
         == [AuditRow(true, "", |rows|), AuditRow(false, UNAVAILABLE, 0)]
  {
    CappedIsThePage(rows, ROW_CAP, 0);
  }

  /** Without lost replies an attempt leaves at most one row, and exactly one if its last insert succeeds. */
  lemma AtMostOneRowWithoutLostReplies<T>(kind: Kind, a: Attempt<T>, offset: int, first: Fate, second: Fate)
    requires first != FailsAfter
    ensures var left := NewRows(kind, a, offset, first, second);
      && |left| <= 1
      && (LastInsert(ErrorOf(a, OffsetOf(kind, offset)) == None, first, second) != FailsBefore <==> |left| == 1)
  {
  }
}
