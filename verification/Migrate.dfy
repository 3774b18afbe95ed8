/** The migration runner: any number of runner processes, one advisory lock, a ledger of markers, and crashes
    and lost connections at any point. */
module Migrate {
  import opened Options
  import opened Sequences

  datatype Status = Applying | Applied | Failed | Unrecognized(text: string)
  datatype Row = Row(status: Status, checksum: Option<string>)
  type Ledger = map<string, Row>

  datatype Plan = Skip | Abort | Retry | Apply

  /** What to do with a file, given its recorded row. */
  function ResolvePlan(row: Option<Row>): (plan: Plan)
    ensures plan == Skip <==> row.Some? && row.value.status == Applied
    ensures plan == Abort <==> row.Some? && row.value.status == Applying
    ensures plan == Retry <==> row.Some? && row.value.status == Failed
  {
    match row
    case None => Apply
    case Some(r) =>
      match r.status
      case Applied => Skip
      case Applying => Abort
      case Failed => Retry
      case Unrecognized(_) => Apply
  }

  function RowOf(ledger: Ledger, file: string): Option<Row> {
    if file in ledger then Some(ledger[file]) else None
  }

  predicate Has(ledger: Ledger, file: string, status: Status) {
    file in ledger && ledger[file].status == status
  }

  // ---- one runner ----

  datatype Phase =
    | Waiting             // asking for the advisory lock
    | Locked              // lock held, ledger not read yet
    | Looping(i: nat)     // about to treat file i
    | Marked(i: nat)      // intent for file i persisted, its SQL not started
    | Ran(i: nat)         // SQL of file i succeeded, "applied" not written
    | Failing(i: nat)     // in the catch block of file i
    | Ended(ok: bool)

  datatype Runner = Runner(phase: Phase, files: seq<string>, sums: map<string, string>, snapshot: Ledger,
      connected: bool)

  ghost predicate Listing(files: seq<string>, sums: map<string, string>) {
    Distinct(files) && forall f :: f in files ==> f in sums
  }

  predicate Holding(phase: Phase) {
    phase.Locked? || phase.Looping? || InFlight(phase)
  }

  predicate InFlight(phase: Phase) {
    phase.Marked? || phase.Ran? || phase.Failing?
  }

  // ---- the world ----

  /** An execution of a file's SQL, with the ledger it started on and the files listed before it; or the
      recording of a failed marker. */
  datatype Event =
    | Executed(file: string, succeeded: bool, ledger: Ledger, earlier: seq<string>)
    | MarkedFailed(file: string)

  datatype World = World(ledger: Ledger, lock: Option<int>, runners: map<int, Runner>, trace: seq<Event>)

  /** How a ledger statement can end for its caller: done, refused with no effect, or done on the server with
      the connection (and so the session lock) lost before the answer came back. */
  datatype Outcome = Done | Refused | DoneThenLost

  datatype Step =
    | Start(p: int, files: seq<string>, sums: map<string, string>)
    | Acquire(p: int)
    | Read(p: int)
    | SkipFile(p: int, out: Outcome)
    | AbortFile(p: int)
    | MarkIntent(p: int, out: Outcome)
    | NoClient(p: int)
    | Execute(p: int, succeeds: bool)
    | MarkApplied(p: int, out: Outcome)
    | MarkFailed(p: int, out: Outcome)
    | Complete(p: int)
    | Release(p: int)
    | Disconnect(p: int)
    | Crash(p: int)

  function CurrentFile(r: Runner): string
    requires (r.phase.Looping? || InFlight(r.phase)) && r.phase.i < |r.files|
  {
    r.files[r.phase.i]
  }

  predicate AtFile(w: World, p: int) {
    p in w.runners && (w.runners[p].phase.Looping? || InFlight(w.runners[p].phase))
    && w.runners[p].phase.i < |w.runners[p].files|
    && CurrentFile(w.runners[p]) in w.runners[p].sums
  }

  function PlanFor(r: Runner): Plan
    requires (r.phase.Looping? || InFlight(r.phase)) && r.phase.i < |r.files|
  {
    ResolvePlan(RowOf(r.snapshot, CurrentFile(r)))
  }

  /** A statement on the lock connection has an effect only while the connection lives. */
  predicate CanEnd(r: Runner, out: Outcome) {
    out != Refused ==> r.connected
  }

  ghost predicate Enabled(w: World, s: Step) {
    match s
    case Start(p, files, sums) => p !in w.runners && Listing(files, sums)
    case Acquire(p) => p in w.runners && w.runners[p].phase.Waiting? && w.runners[p].connected && w.lock == None
    case Read(p) => p in w.runners && w.runners[p].phase.Locked? && w.runners[p].connected
    case SkipFile(p, out) =>
      AtFile(w, p) && w.runners[p].phase.Looping? && PlanFor(w.runners[p]) == Skip && CanEnd(w.runners[p], out)
    case AbortFile(p) => AtFile(w, p) && w.runners[p].phase.Looping? && PlanFor(w.runners[p]) == Abort
    case MarkIntent(p, out) =>
      AtFile(w, p) && w.runners[p].phase.Looping? && PlanFor(w.runners[p]) in {Retry, Apply}
      && CanEnd(w.runners[p], out)
    case NoClient(p) => AtFile(w, p) && w.runners[p].phase.Marked?
    case Execute(p, _) => AtFile(w, p) && w.runners[p].phase.Marked?
    case MarkApplied(p, out) => AtFile(w, p) && w.runners[p].phase.Ran? && CanEnd(w.runners[p], out)
    case MarkFailed(p, out) => AtFile(w, p) && w.runners[p].phase.Failing? && CanEnd(w.runners[p], out)
    case Complete(p) =>
      p in w.runners && w.runners[p].phase.Looping? && w.runners[p].phase.i == |w.runners[p].files|
    case Release(p) => p in w.runners && w.runners[p].phase.Ended? && w.lock == Some(p)
    case Disconnect(p) => p in w.runners && w.runners[p].connected
    case Crash(p) => p in w.runners
  }

  function Moved(w: World, p: int, phase: Phase): World
    requires p in w.runners
  {
    w.(runners := w.runners[p := w.runners[p].(phase := phase)])
  }

  function Unlocked(w: World, p: int): World {
    if w.lock == Some(p) then w.(lock := None) else w
  }

  function Cut(w: World, p: int): World
    requires p in w.runners
  {
    Unlocked(w.(runners := w.runners[p := w.runners[p].(connected := false)]), p)
  }

  /** Runner `p` writes `row` for `file` and moves on; with the connection lost it moves to where an error leads. */
  function Written(w: World, p: int, file: string, row: Row, out: Outcome, next: Phase, onError: Phase): World
    requires p in w.runners
  {
    match out
    case Done => Moved(w.(ledger := w.ledger[file := row]), p, next)
    case Refused => Moved(w, p, onError)
    case DoneThenLost => Cut(Moved(w.(ledger := w.ledger[file := row]), p, onError), p)
  }

  function Perform(w: World, s: Step): World
    requires Enabled(w, s)
  {
    match s
    case Start(p, files, sums) => w.(runners := w.runners[p := Runner(Waiting, files, sums, map[], true)])
    case Acquire(p) => Moved(w.(lock := Some(p)), p, Locked)
    case Read(p) =>
      w.(runners := w.runners[p := w.runners[p].(phase := Looping(0), snapshot := w.ledger)])
    case SkipFile(p, out) =>
      var r := w.runners[p];
      var file := CurrentFile(r);
      var seen := r.snapshot[file].checksum;
      if seen == Some(r.sums[file]) then Moved(w, p, Looping(r.phase.i + 1))
      else if seen.Some? then Moved(w, p, Ended(false))
      else if file in w.ledger && w.ledger[file].checksum == None
      then Written(w, p, file, w.ledger[file].(checksum := Some(r.sums[file])), out, Looping(r.phase.i + 1),
          Ended(false))
      else Moved(w, p, if out == Done then Looping(r.phase.i + 1) else Ended(false))
    case AbortFile(p) => Moved(w, p, Ended(false))
    case MarkIntent(p, out) =>
      var r := w.runners[p];
      var file := CurrentFile(r);
      Written(w, p, file, Row(Applying, Some(r.sums[file])), out, Marked(r.phase.i), Ended(false))
    case NoClient(p) => Moved(w, p, Ended(false))
    case Execute(p, succeeds) =>
      var r := w.runners[p];
      var w1 := w.(trace := w.trace + [Executed(CurrentFile(r), succeeds, w.ledger, r.files[..r.phase.i])]);
      Moved(w1, p, if succeeds then Ran(r.phase.i) else Failing(r.phase.i))
    case MarkApplied(p, out) =>
      var r := w.runners[p];
      var file := CurrentFile(r);
      if file in w.ledger
      then Written(w, p, file, Row(Applied, Some(r.sums[file])), out, Looping(r.phase.i + 1), Failing(r.phase.i))
      else Moved(w, p, if out == Done then Looping(r.phase.i + 1) else Failing(r.phase.i))
    case MarkFailed(p, out) =>
      var r := w.runners[p];
      var file := CurrentFile(r);
      if out != Refused && file in w.ledger
      then Written(w.(trace := w.trace + [MarkedFailed(file)]), p, file, w.ledger[file].(status := Failed), out,
                   Ended(false), Ended(false))
      else Moved(w, p, Ended(false))
    case Complete(p) => Moved(w, p, Ended(true))
    case Release(p) => Unlocked(w, p)
    case Disconnect(p) => Cut(w, p)
    case Crash(p) => Cut(Moved(w, p, Ended(false)), p)
  }

  // ---- what every step keeps ----

  ghost predicate AllApplied(ledger: Ledger, files: seq<string>) {
    forall k :: 0 <= k < |files| ==> Has(ledger, files[k], Applied)
  }

  ghost predicate RunnerOk(ledger: Ledger, lock: Option<int>, p: int, r: Runner) {
    && Listing(r.files, r.sums)
    && (Holding(r.phase) && r.connected ==> lock == Some(p))
    && (r.phase.Looping? ==>
          && r.phase.i <= |r.files|
          && AllApplied(ledger, r.files[..r.phase.i])
          && (forall f :: Has(r.snapshot, f, Applied) ==> Has(ledger, f, Applied))
          && (r.connected ==> forall k :: r.phase.i <= k < |r.files| ==>
              RowOf(r.snapshot, r.files[k]) == RowOf(ledger, r.files[k])))
    && (InFlight(r.phase) ==>
          && r.phase.i < |r.files|
          && AllApplied(ledger, r.files[..r.phase.i])
          && (forall f :: Has(r.snapshot, f, Applied) ==> Has(ledger, f, Applied))
          && (r.connected ==> forall k :: r.phase.i < k < |r.files| ==>
              RowOf(r.snapshot, r.files[k]) == RowOf(ledger, r.files[k]))
          && (Has(ledger, r.files[r.phase.i], Applying)
              || (r.phase.Failing? && !r.connected && Has(ledger, r.files[r.phase.i], Applied)
                  && ledger[r.files[r.phase.i]].checksum.Some?)))
  }

  ghost predicate OnFile(r: Runner, file: string) {
    InFlight(r.phase) && r.phase.i < |r.files| && r.files[r.phase.i] == file
  }

  /** Has the file been executed since its last failed marker? */
  predicate Open(trace: seq<Event>, file: string) {
    if trace == [] then false
    else var last := trace[|trace| - 1];
      if last == MarkedFailed(file) then false
      else if last.Executed? && last.file == file then true
      else Open(trace[..|trace| - 1], file)
  }

  /** No file is executed while open, and each execution finds every earlier listed file applied. */
  ghost predicate Orderly(trace: seq<Event>) {
    trace == [] ||
    var last, before := trace[|trace| - 1], trace[..|trace| - 1];
    Orderly(before) && (last.Executed? ==> !Open(before, last.file) && AllApplied(last.ledger, last.earlier))
  }

  ghost predicate LockOk(w: World) {
    w.lock.Some? ==> w.lock.value in w.runners && w.runners[w.lock.value].connected
  }

  ghost predicate RunnersOk(w: World) {
    forall p :: p in w.runners ==> RunnerOk(w.ledger, w.lock, p, w.runners[p])
  }

  ghost predicate Exclusive(w: World) {
    forall p, q, f :: p in w.runners && q in w.runners && OnFile(w.runners[p], f) && OnFile(w.runners[q], f) ==> p == q
  }

  ghost predicate TraceOk(w: World) {
    && Orderly(w.trace)
    && (forall f :: Open(w.trace, f) ==> Has(w.ledger, f, Applying) || Has(w.ledger, f, Applied))
    && (forall p, f :: p in w.runners && OnFile(w.runners[p], f) && w.runners[p].phase.Marked? ==> !Open(w.trace, f))
  }

  ghost predicate Inv(w: World) {
    LockOk(w) && RunnersOk(w) && Exclusive(w) && TraceOk(w)
  }

  /** Nobody but runner `p` is at work on the file. */
  ghost predicate Alone(w: World, p: int, file: string) {
    forall q :: q in w.runners && q != p ==> !OnFile(w.runners[q], file)
  }

  lemma AtWorkAlone(w: World, p: int, file: string)
    requires Inv(w) && p in w.runners
    requires OnFile(w.runners[p], file) || (!Has(w.ledger, file, Applying) && !Has(w.ledger, file, Applied))
      || (Has(w.ledger, file, Applied) && w.ledger[file].checksum == None)
    ensures Alone(w, p, file)
  {
    hide TraceOk, AllApplied, Listing;
    forall q | q in w.runners && q != p
      ensures !OnFile(w.runners[q], file)
    {
      assert RunnerOk(w.ledger, w.lock, q, w.runners[q]);
    }
  }

  /** Runner `p` moves, and nobody else does; it takes no file it was not at, unless it is alone on it. */
  ghost predicate OnlyMoves(w: World, w1: World, p: int) {
    && p in w1.runners
    && (forall q :: q != p ==> (q in w1.runners <==> q in w.runners))
    && (forall q :: q in w.runners && q != p ==> w1.runners[q] == w.runners[q])
    && (w1.lock == w.lock || w1.lock == None || (w.lock == None && w1.lock == Some(p)))
    && (w1.lock == Some(p) ==> w1.runners[p].connected)
    && (w.lock.Some? && w1.lock == None ==> w.lock == Some(p))
    && RunnerOk(w1.ledger, w1.lock, p, w1.runners[p])
    && (forall f :: OnFile(w1.runners[p], f) ==> Alone(w, p, f))
  }

  lemma QuietRunners(w: World, w1: World, p: int)
    requires Inv(w) && OnlyMoves(w, w1, p) && w1.ledger == w.ledger
    ensures LockOk(w1) && RunnersOk(w1) && Exclusive(w1)
  {
    hide TraceOk, AllApplied, Listing;
    if w1.lock.Some? && w1.lock.value != p {
      assert w.lock == w1.lock && w1.runners[w1.lock.value] == w.runners[w.lock.value];
    }
    forall q | q in w1.runners && q != p
      ensures RunnerOk(w1.ledger, w1.lock, q, w1.runners[q])
    {
      assert RunnerOk(w.ledger, w.lock, q, w.runners[q]);
    }
    hide RunnerOk;
    forall a, b, f | a in w1.runners && b in w1.runners && OnFile(w1.runners[a], f) && OnFile(w1.runners[b], f)
      ensures a == b
    {
      if a != p && b != p { assert OnFile(w.runners[a], f) && OnFile(w.runners[b], f); }
    }
  }

  /** A step that writes nothing keeps the invariant if its runner ends up consistent. */
  lemma QuietStep(w: World, w1: World, p: int)
    requires Inv(w) && OnlyMoves(w, w1, p)
    requires w1.ledger == w.ledger && w1.trace == w.trace
    requires w1.runners[p].phase.Marked? ==>
               p in w.runners && w1.runners[p].phase == w.runners[p].phase && w1.runners[p].files == w.runners[p].files
    ensures Inv(w1)
  {
    hide RunnerOk, Orderly;
    QuietRunners(w, w1, p);
    assert Orderly(w1.trace);
    forall q, f | q in w1.runners && OnFile(w1.runners[q], f) && w1.runners[q].phase.Marked?
      ensures !Open(w1.trace, f)
    {
      assert OnFile(w.runners[q], f);
    }
  }

  lemma OtherUndisturbed(w: World, p: int, file: string, row: Row, lock: Option<int>, q: int)
    requires Inv(w) && w.lock == Some(p) && (lock == Some(p) || lock == None)
    requires Has(w.ledger, file, Applied) ==> row.status == Applied
    requires q in w.runners && q != p && !OnFile(w.runners[q], file)
    ensures RunnerOk(w.ledger[file := row], lock, q, w.runners[q])
  {
    hide TraceOk, Exclusive, LockOk, Listing;
    var r := w.runners[q];
    assert RunnerOk(w.ledger, w.lock, q, r);
    if InFlight(r.phase) {
      assert OnFile(r, r.files[r.phase.i]);
    }
  }

  /** A write by the lock holder, alone on the file and never undoing "applied", keeps everybody consistent. */
  lemma WritingRunners(w: World, w1: World, p: int, file: string, row: Row)
    requires Inv(w) && OnlyMoves(w, w1, p) && w.lock == Some(p) && Alone(w, p, file)
    requires Has(w.ledger, file, Applied) ==> row.status == Applied
    requires w1.ledger == w.ledger[file := row]
    ensures LockOk(w1) && RunnersOk(w1) && Exclusive(w1)
  {
    hide TraceOk, AllApplied, Listing;
    forall q | q in w1.runners && q != p
      ensures RunnerOk(w1.ledger, w1.lock, q, w1.runners[q])
    {
      OtherUndisturbed(w, p, file, row, w1.lock, q);
    }
    hide RunnerOk;
    forall a, b, f | a in w1.runners && b in w1.runners && OnFile(w1.runners[a], f) && OnFile(w1.runners[b], f)
      ensures a == b
    {
      if a != p && b != p { assert OnFile(w.runners[a], f) && OnFile(w.runners[b], f); }
    }
  }

  lemma WritingStep(w: World, w1: World, p: int, file: string, row: Row)
    requires Inv(w) && OnlyMoves(w, w1, p) && w.lock == Some(p) && Alone(w, p, file)
    requires Has(w.ledger, file, Applied) ==> row.status == Applied
    requires w1.ledger == w.ledger[file := row]
    requires forall f :: OnFile(w1.runners[p], f) ==> f == file
    requires Orderly(w1.trace)
    requires forall f :: Open(w1.trace, f) ==> Open(w.trace, f)
    requires Open(w1.trace, file) ==> row.status == Applying || row.status == Applied
    requires w1.runners[p].phase.Marked? ==> !Open(w1.trace, file)
    ensures Inv(w1)
  {
    hide Open, Orderly, RunnerOk;
    WritingRunners(w, w1, p, file, row);
    hide RunnersOk, Exclusive, LockOk, Alone;
  }

  lemma RunnerIsOk(w: World, p: int)
    requires Inv(w) && p in w.runners
    ensures RunnerOk(w.ledger, w.lock, p, w.runners[p])
    ensures w.lock == Some(p) ==> w.runners[p].connected
  {
  }

  lemma BaselineKeepsInv(w: World, p: int, out: Outcome)
    requires Inv(w) && Enabled(w, SkipFile(p, out)) && out != Refused
    requires w.runners[p].snapshot[CurrentFile(w.runners[p])].checksum == None
    ensures Inv(Perform(w, SkipFile(p, out)))
  {
    hide Open, Orderly, Inv, ResolvePlan;
    var r := w.runners[p];
    var file := CurrentFile(r);
    RunnerIsOk(w, p);
    assert r.files[..r.phase.i + 1] == r.files[..r.phase.i] + [file];
    assert RowOf(r.snapshot, file) == RowOf(w.ledger, file);
    AtWorkAlone(w, p, file);
    OpenIsMarked(w, file);
    WritingStep(w, Perform(w, SkipFile(p, out)), p, file, Row(Applied, Some(r.sums[file])));
  }

  /** A runner may stop at any time. */
  lemma StoppingKeepsInv(w: World, p: int)
    requires Inv(w) && p in w.runners
    ensures Inv(Moved(w, p, Ended(false)))
  {
    hide Inv, Listing, AllApplied;
    RunnerIsOk(w, p);
    QuietStep(w, Moved(w, p, Ended(false)), p);
  }

  /** A runner may pass over a file its snapshot has as applied. */
  lemma PassingKeepsInv(w: World, p: int)
    requires Inv(w) && p in w.runners && w.runners[p].phase.Looping? && w.runners[p].phase.i < |w.runners[p].files|
    requires Has(w.runners[p].snapshot, CurrentFile(w.runners[p]), Applied)
    ensures Inv(Moved(w, p, Looping(w.runners[p].phase.i + 1)))
  {
    hide Inv, Listing;
    var r := w.runners[p];
    RunnerIsOk(w, p);
    assert r.files[..r.phase.i + 1] == r.files[..r.phase.i] + [CurrentFile(r)];
    QuietStep(w, Moved(w, p, Looping(r.phase.i + 1)), p);
  }

  lemma SkipKeepsInv(w: World, p: int, out: Outcome)
    requires Inv(w) && Enabled(w, SkipFile(p, out))
    ensures Inv(Perform(w, SkipFile(p, out)))
  {
    hide Inv;
    var r := w.runners[p];
    if r.snapshot[CurrentFile(r)].checksum == None && out != Refused {
      BaselineKeepsInv(w, p, out);
    } else {
      assert Has(r.snapshot, CurrentFile(r), Applied);
      PassingKeepsInv(w, p);
      StoppingKeepsInv(w, p);
    }
  }

  lemma OpenIsMarked(w: World, file: string)
    requires Inv(w)
    ensures Open(w.trace, file) ==> Has(w.ledger, file, Applying) || Has(w.ledger, file, Applied)
    ensures Orderly(w.trace)
  {
  }

  /** What marking the intent changes. */
  lemma IntentMoves(w: World, p: int, out: Outcome)
    requires Inv(w) && Enabled(w, MarkIntent(p, out)) && out != Refused
    ensures var w1, r := Perform(w, MarkIntent(p, out)), w.runners[p];
      && OnlyMoves(w, w1, p) && w.lock == Some(p) && w1.trace == w.trace
      && w1.ledger == w.ledger[CurrentFile(r) := Row(Applying, Some(r.sums[CurrentFile(r)]))]
      && (forall f :: OnFile(w1.runners[p], f) ==> f == CurrentFile(r))
      && RowOf(r.snapshot, CurrentFile(r)) == RowOf(w.ledger, CurrentFile(r))
  {
    RunnerIsOk(w, p);
    hide Inv;
  }

  lemma IntentKeepsInv(w: World, p: int, out: Outcome)
    requires Inv(w) && Enabled(w, MarkIntent(p, out))
    ensures Inv(Perform(w, MarkIntent(p, out)))
  {
    hide Open, Orderly, Inv;
    var r := w.runners[p];
    var w1 := Perform(w, MarkIntent(p, out));
    if out == Refused {
      RunnerIsOk(w, p);
      QuietStep(w, w1, p);
    } else {
      var file := CurrentFile(r);
      IntentMoves(w, p, out);
      AtWorkAlone(w, p, file);
      OpenIsMarked(w, file);
      hide Perform, OnlyMoves, OnFile;
      WritingStep(w, w1, p, file, Row(Applying, Some(r.sums[file])));
    }
  }

  lemma ExecuteKeepsTrace(w: World, p: int, succeeds: bool)
    requires Inv(w) && Enabled(w, Execute(p, succeeds))
    ensures TraceOk(Perform(w, Execute(p, succeeds)))
  {
    var r := w.runners[p];
    var file := CurrentFile(r);
    var w1 := Perform(w, Execute(p, succeeds));
    RunnerIsOk(w, p);
    assert OnFile(r, file);
    assert w1.trace[..|w1.trace| - 1] == w.trace;
    forall q, f | q in w1.runners && OnFile(w1.runners[q], f) && w1.runners[q].phase.Marked?
      ensures !Open(w1.trace, f)
    {
      assert OnFile(w.runners[q], f);
      assert q != p && f != file;
    }
  }

  lemma ExecuteKeepsInv(w: World, p: int, succeeds: bool)
    requires Inv(w) && Enabled(w, Execute(p, succeeds))
    ensures Inv(Perform(w, Execute(p, succeeds)))
  {
    hide Open, Orderly;
    ExecuteKeepsTrace(w, p, succeeds);
    RunnerIsOk(w, p);
    AtWorkAlone(w, p, CurrentFile(w.runners[p]));
    QuietRunners(w, Perform(w, Execute(p, succeeds)), p);
    hide TraceOk, RunnersOk, LockOk, Exclusive;
  }

  lemma AppliedKeepsInv(w: World, p: int, out: Outcome)
    requires Inv(w) && Enabled(w, MarkApplied(p, out))
    ensures Inv(Perform(w, MarkApplied(p, out)))
  {
    hide Open, Orderly, Inv;
    var r := w.runners[p];
    var file := CurrentFile(r);
    var w1 := Perform(w, MarkApplied(p, out));
    RunnerIsOk(w, p);
    AtWorkAlone(w, p, file);
    if out == Refused {
      QuietStep(w, w1, p);
    } else {
      assert r.files[..r.phase.i + 1] == r.files[..r.phase.i] + [file];
      OpenIsMarked(w, file);
      WritingStep(w, w1, p, file, Row(Applied, Some(r.sums[file])));
    }
  }

  lemma FailedTrace(trace: seq<Event>, file: string)
    requires Orderly(trace)
    ensures var trace1 := trace + [Event.MarkedFailed(file)];
      Orderly(trace1) && !Open(trace1, file) && forall f :: Open(trace1, f) ==> Open(trace, f)
  {
    assert (trace + [Event.MarkedFailed(file)])[..|trace|] == trace;
  }

  lemma FailedKeepsInv(w: World, p: int, out: Outcome)
    requires Inv(w) && Enabled(w, MarkFailed(p, out))
    ensures Inv(Perform(w, MarkFailed(p, out)))
  {
    hide Open, Orderly, Inv;
    var r := w.runners[p];
    var file := CurrentFile(r);
    var w1 := Perform(w, MarkFailed(p, out));
    RunnerIsOk(w, p);
    AtWorkAlone(w, p, file);
    if out == Refused {
      QuietStep(w, w1, p);
    } else {
      OpenIsMarked(w, file);
      FailedTrace(w.trace, file);
      WritingStep(w, w1, p, file, w.ledger[file].(status := Failed));
    }
  }

  lemma StartKeepsInv(w: World, p: int, files: seq<string>, sums: map<string, string>)
    requires Inv(w) && Enabled(w, Start(p, files, sums))
    ensures Inv(Perform(w, Start(p, files, sums)))
  {
    hide Open, Orderly, Exclusive, TraceOk;
    QuietStep(w, Perform(w, Start(p, files, sums)), p);
  }

  lemma LossKeepsInv(w: World, s: Step)
    requires Inv(w) && Enabled(w, s)
    requires s.Release? || s.Disconnect? || s.Crash?
    ensures Inv(Perform(w, s))
  {
    hide Open, Orderly, Exclusive, TraceOk, Listing, AllApplied;
    RunnerIsOk(w, s.p);
    var r := w.runners[s.p];
    if InFlight(r.phase) && r.phase.i < |r.files| {
      AtWorkAlone(w, s.p, r.files[r.phase.i]);
    }
    hide Inv;
    QuietStep(w, Perform(w, s), s.p);
  }

  lemma OtherStepKeepsInv(w: World, s: Step)
    requires Inv(w) && Enabled(w, s)
    requires s.Acquire? || s.Read? || s.AbortFile? || s.NoClient? || s.Complete?
    ensures Inv(Perform(w, s))
  {
    hide Open, Orderly, Exclusive, TraceOk, Listing;
    RunnerIsOk(w, s.p);
    hide Inv;
    QuietStep(w, Perform(w, s), s.p);
  }

  /** Every step of every runner, crashes and lost connections included, keeps the invariant. */
  lemma StepKeepsInv(w: World, s: Step)
    requires Inv(w) && Enabled(w, s)
    ensures Inv(Perform(w, s))
  {
    hide Inv, Perform;
    match s
    case SkipFile(p, out) => SkipKeepsInv(w, p, out);
    case MarkIntent(p, out) => IntentKeepsInv(w, p, out);
    case Execute(p, succeeds) => ExecuteKeepsInv(w, p, succeeds);
    case MarkApplied(p, out) => AppliedKeepsInv(w, p, out);
    case MarkFailed(p, out) => FailedKeepsInv(w, p, out);
    case Start(p, files, sums) => StartKeepsInv(w, p, files, sums);
    case Release(_) => LossKeepsInv(w, s);
    case Disconnect(_) => LossKeepsInv(w, s);
    case Crash(_) => LossKeepsInv(w, s);
    case _ => OtherStepKeepsInv(w, s);
  }

  // ---- whole runs ----

  ghost predicate IsRun(w: World, steps: seq<Step>)
    decreases |steps|
  {
    steps == [] || (Enabled(w, steps[0]) && IsRun(Perform(w, steps[0]), steps[1..]))
  }

  ghost function After(w: World, steps: seq<Step>): World
    requires IsRun(w, steps)
    decreases |steps|
  {
    if steps == [] then w else After(Perform(w, steps[0]), steps[1..])
  }

  /** Any ledger a database may hold, with nobody running yet. */
  function Boot(ledger: Ledger): World {
    World(ledger, None, map[], [])
  }

  lemma {:induction false} RunKeepsInv(w: World, steps: seq<Step>)
    requires Inv(w) && IsRun(w, steps)
    ensures Inv(After(w, steps))
    decreases |steps|
  {
    if steps != [] {
      StepKeepsInv(w, steps[0]);
      RunKeepsInv(Perform(w, steps[0]), steps[1..]);
    }
  }

  ghost predicate FailedBetween(trace: seq<Event>, i: int, j: int, file: string) {
    exists k :: i < k < j < |trace| && 0 <= k && trace[k] == MarkedFailed(file)
  }

  /** Each execution started with every earlier listed file applied, and two executions of one file always have
      a recorded failed marker between them. */
  ghost predicate ExecutionsAllowed(trace: seq<Event>) {
    && (forall i :: 0 <= i < |trace| && trace[i].Executed? ==> AllApplied(trace[i].ledger, trace[i].earlier))
    && (forall i, j | 0 <= i < j < |trace| && trace[i].Executed? && trace[j].Executed? && trace[i].file == trace[j].file
          :: FailedBetween(trace, i, j, trace[j].file))
  }

  lemma {:induction false} OrderlyMeans(trace: seq<Event>)
    requires Orderly(trace)
    ensures ExecutionsAllowed(trace)
  {
    if trace != [] {
      var n := |trace| - 1;
      OrderlyMeans(trace[..n]);
      forall i, j | 0 <= i < j < |trace| && trace[i].Executed? && trace[j].Executed? && trace[i].file == trace[j].file
        ensures FailedBetween(trace, i, j, trace[j].file)
      {
        if j == n {
          ClosedSince(trace[..n], trace[n].file, i);
          var k :| i < k < n && trace[..n][k] == MarkedFailed(trace[n].file);
          assert trace[k] == MarkedFailed(trace[j].file);
        } else {
          assert trace[..n][i] == trace[i] && trace[..n][j] == trace[j];
          assert FailedBetween(trace[..n], i, j, trace[j].file);
          var k :| i < k < j && 0 <= k && trace[..n][k] == MarkedFailed(trace[j].file);
          assert trace[k] == MarkedFailed(trace[j].file);
        }
      }
    }
  }

  lemma {:induction false} ClosedSince(trace: seq<Event>, file: string, i: int)
    requires 0 <= i < |trace| && trace[i].Executed? && trace[i].file == file && !Open(trace, file)
    ensures exists k :: i < k < |trace| && trace[k] == MarkedFailed(file)
  {
    var n := |trace| - 1;
    if trace[n] != MarkedFailed(file) {
      ClosedSince(trace[..n], file, i);
      var k :| i < k < n && trace[..n][k] == MarkedFailed(file);
      assert trace[k] == MarkedFailed(file);
    }
  }

  /** SAFETY. From any ledger, over every run of any number of runners with crashes and lost connections
      anywhere: a file's SQL starts only when every file listed before it is applied, and two executions of
      one file are separated by a recorded failed marker. */
  lemma RunsAreOrderly(ledger: Ledger, steps: seq<Step>)
    requires IsRun(Boot(ledger), steps)
    ensures ExecutionsAllowed(After(Boot(ledger), steps).trace)
  {
    RunKeepsInv(Boot(ledger), steps);
    OrderlyMeans(After(Boot(ledger), steps).trace);
  }

  /** Mutual exclusion: no two runners are ever at work on one file, even when one of them has lost its lock. */
  lemma OneRunnerPerFile(ledger: Ledger, steps: seq<Step>, p: int, q: int, file: string)
    requires IsRun(Boot(ledger), steps)
    ensures var w := After(Boot(ledger), steps);
      p in w.runners && q in w.runners && OnFile(w.runners[p], file) && OnFile(w.runners[q], file) ==> p == q
  {
    RunKeepsInv(Boot(ledger), steps);
  }

  /** A file left "applying" by a runner that is gone. */
  ghost predicate Stranded(w: World, file: string) {
    Has(w.ledger, file, Applying) && forall p :: p in w.runners ==> !OnFile(w.runners[p], file)
  }

  predicate ExecutedAfter(trace: seq<Event>, from: nat, file: string) {
    exists i :: from <= i < |trace| && trace[i].Executed? && trace[i].file == file
  }

  /** A step by a runner not at work on a file marked "applying" leaves the file's row alone. */
  lemma StepKeepsOtherRows(w: World, s: Step, file: string)
    requires Inv(w) && Enabled(w, s) && Has(w.ledger, file, Applying)
    requires !s.Start? ==> !OnFile(w.runners[s.p], file)
    ensures RowOf(Perform(w, s).ledger, file) == RowOf(w.ledger, file)
  {
    hide Open, Orderly;
    if !s.Start? {
      assert RunnerOk(w.ledger, w.lock, s.p, w.runners[s.p]);
    }
  }

  /** An intent is marked for a file that is not "applying". */
  lemma IntentIsForAnother(w: World, p: int, out: Outcome, file: string)
    requires Inv(w) && Enabled(w, MarkIntent(p, out)) && out == Done && Has(w.ledger, file, Applying)
    ensures CurrentFile(w.runners[p]) != file
  {
    RunnerIsOk(w, p);
    hide Inv, Listing, AllApplied;
    assert w.runners[p].connected;
    assert RowOf(w.runners[p].snapshot, CurrentFile(w.runners[p])) == RowOf(w.ledger, CurrentFile(w.runners[p]));
  }

  /** Any other step leaves its runner at the file it was at, if at any. */
  lemma OtherStepsTakeUpNothing(w: World, s: Step, file: string)
    requires Enabled(w, s) && !s.Start? && !(s.MarkIntent? && s.out == Done)
    ensures s.p in w.runners && s.p in Perform(w, s).runners
    ensures OnFile(Perform(w, s).runners[s.p], file) ==> OnFile(w.runners[s.p], file)
  {
    hide Listing, ResolvePlan, RowOf, Has;
  }

  /** Nor does such a step put the file in flight. */
  lemma StepTakesUpNothing(w: World, s: Step, file: string)
    requires Inv(w) && Enabled(w, s) && Has(w.ledger, file, Applying)
    requires !s.Start? ==> !OnFile(w.runners[s.p], file)
    ensures s.p in Perform(w, s).runners && !OnFile(Perform(w, s).runners[s.p], file)
  {
    hide Inv;
    if s.MarkIntent? && s.out == Done {
      IntentIsForAnother(w, s.p, s.out, file);
    } else if !s.Start? {
      hide Perform, Enabled;
      OtherStepsTakeUpNothing(w, s, file);
    }
  }

  /** And it does not execute it. */
  lemma StepStartsNothing(w: World, s: Step, file: string)
    requires Inv(w) && Enabled(w, s)
    requires !s.Start? ==> !OnFile(w.runners[s.p], file)
    ensures w.trace <= Perform(w, s).trace
    ensures forall i :: |w.trace| <= i < |Perform(w, s).trace| && Perform(w, s).trace[i].Executed? ==>
      Perform(w, s).trace[i].file != file
  {
    hide Inv, Listing, ResolvePlan;
  }

  lemma StepKeepsOthers(w: World, s: Step)
    requires Enabled(w, s)
    ensures forall q :: q != s.p ==> (q in Perform(w, s).runners <==> q in w.runners)
    ensures !s.Start? ==> s.p in w.runners
  {
  }

  lemma StepMovesOnlyActor(w: World, s: Step)
    requires Enabled(w, s)
    ensures forall q :: q in w.runners && q != s.p ==>
      q in Perform(w, s).runners && Perform(w, s).runners[q] == w.runners[q]
  {
  }

  lemma StrandedStep(w: World, s: Step, file: string)
    requires Inv(w) && Stranded(w, file) && Enabled(w, s)
    ensures Stranded(Perform(w, s), file)
    ensures w.trace <= Perform(w, s).trace && !ExecutedAfter(Perform(w, s).trace, |w.trace|, file)
  {
    hide Inv, Perform, OnFile, Enabled;
    StepKeepsOthers(w, s);
    StepMovesOnlyActor(w, s);
    StepKeepsOtherRows(w, s, file);
    StepTakesUpNothing(w, s, file);
    StepStartsNothing(w, s, file);
  }

  /** STRANDED. Once stranded, a file is never executed again by any runner, and stays "applying". */
  lemma {:induction false} StrandedForever(w: World, steps: seq<Step>, file: string)
    requires Inv(w) && Stranded(w, file) && IsRun(w, steps)
    ensures Stranded(After(w, steps), file)
    ensures w.trace <= After(w, steps).trace && !ExecutedAfter(After(w, steps).trace, |w.trace|, file)
    decreases |steps|
  {
    if steps != [] {
      var w1 := Perform(w, steps[0]);
      StrandedStep(w, steps[0], file);
      StepKeepsInv(w, steps[0]);
      StrandedForever(w1, steps[1..], file);
      var trace := After(w, steps).trace;
      forall i | |w.trace| <= i < |trace|
        ensures !(trace[i].Executed? && trace[i].file == file)
      {
        if i < |w1.trace| { assert trace[i] == w1.trace[i]; }
      }
    }
  }

  /** SETTLED. An applied row with a checksum is never changed again. */
  lemma {:induction false} SettledForever(w: World, steps: seq<Step>, file: string)
    requires Inv(w) && IsRun(w, steps)
    requires Has(w.ledger, file, Applied) && w.ledger[file].checksum.Some?
    ensures RowOf(After(w, steps).ledger, file) == RowOf(w.ledger, file)
    decreases |steps|
  {
    if steps != [] {
      var s := steps[0];
      if !s.Start? {
        assert RunnerOk(w.ledger, w.lock, s.p, w.runners[s.p]);
      }
      assert RowOf(Perform(w, s).ledger, file) == RowOf(w.ledger, file);
      StepKeepsInv(w, s);
      SettledForever(Perform(w, s), steps[1..], file);
    }
  }

  // ---- reruns ----

  lemma {:induction false} RunsJoin(w: World, a: seq<Step>, b: seq<Step>)
    requires IsRun(w, a) && IsRun(After(w, a), b)
    ensures IsRun(w, a + b) && After(w, a + b) == After(After(w, a), b)
    decreases |a|
  {
    if a == [] {
      assert a + b == b;
    } else {
      RunsJoin(Perform(w, a[0]), a[1..], b);
      assert (a + b)[1..] == a[1..] + b;
    }
  }

  lemma Prepend(w: World, s: Step, rest: seq<Step>)
    requires Enabled(w, s) && IsRun(Perform(w, s), rest)
    ensures IsRun(w, [s] + rest) && After(w, [s] + rest) == After(Perform(w, s), rest)
  {
    assert ([s] + rest)[1..] == rest;
  }

  /** One runner with one file, as far as the end of its SQL. */
  function Attempt(p: int, file: string, sum: string): seq<Step> {
    [Start(p, [file], map[file := sum])]
    + ([Acquire(p)] + ([Read(p)] + ([MarkIntent(p, Done)] + ([Execute(p, true)] + []))))
  }

  function OneFile(phase: Phase, file: string, sum: string, snapshot: Ledger): Runner {
    Runner(phase, [file], map[file := sum], snapshot, true)
  }

  lemma AttemptRuns(w: World, p: int, file: string, sum: string)
    requires w.lock == None && p !in w.runners && !Has(w.ledger, file, Applied) && !Has(w.ledger, file, Applying)
    ensures IsRun(w, Attempt(p, file, sum))
    ensures var ledger := w.ledger[file := Row(Applying, Some(sum))];
      After(w, Attempt(p, file, sum))
        == World(ledger, Some(p), w.runners[p := OneFile(Ran(0), file, sum, w.ledger)],
            w.trace + [Executed(file, true, ledger, [])])
  {
    hide IsRun, After;
    var w1 := World(w.ledger, None, w.runners[p := OneFile(Waiting, file, sum, map[])], w.trace);
    var w2 := World(w.ledger, Some(p), w.runners[p := OneFile(Locked, file, sum, map[])], w.trace);
    var w3 := World(w.ledger, Some(p), w.runners[p := OneFile(Looping(0), file, sum, w.ledger)], w.trace);
    var ledger := w.ledger[file := Row(Applying, Some(sum))];
    var w4 := World(ledger, Some(p), w.runners[p := OneFile(Marked(0), file, sum, w.ledger)], w.trace);
    AttemptRunsFrom(w3, w4, p, file, sum);
    var rest := [MarkIntent(p, Done)] + ([Execute(p, true)] + []);
    assert Perform(w2, Read(p)) == w3;
    Prepend(w2, Read(p), rest);
    assert Perform(w1, Acquire(p)) == w2;
    Prepend(w1, Acquire(p), [Read(p)] + rest);
    assert Enabled(w, Start(p, [file], map[file := sum])) && Perform(w, Start(p, [file], map[file := sum])) == w1;
    Prepend(w, Start(p, [file], map[file := sum]), [Acquire(p)] + ([Read(p)] + rest));
  }

  lemma AttemptRunsFrom(w3: World, w4: World, p: int, file: string, sum: string)
    requires p in w3.runners && w3.lock == Some(p)
    requires !Has(w3.ledger, file, Applied) && !Has(w3.ledger, file, Applying)
    requires w3.runners[p] == OneFile(Looping(0), file, sum, w3.ledger)
    requires w4 == World(w3.ledger[file := Row(Applying, Some(sum))], Some(p),
                         w3.runners[p := OneFile(Marked(0), file, sum, w3.ledger)], w3.trace)
    ensures var rest := [MarkIntent(p, Done)] + ([Execute(p, true)] + []);
      IsRun(w3, rest)
      && After(w3, rest) == World(w4.ledger, Some(p), w3.runners[p := OneFile(Ran(0), file, sum, w3.ledger)],
                                                  w3.trace + [Executed(file, true, w4.ledger, [])])
  {
    hide IsRun, After;
    assert CurrentFile(w3.runners[p]) == file;
    assert Perform(w3, MarkIntent(p, Done)) == w4;
    var w5 := Perform(w4, Execute(p, true));
    assert w5.runners == w3.runners[p := OneFile(Ran(0), file, sum, w3.ledger)];
    assert w4.runners[p].files[..0] == [];
    EmptyRun(w5);
    Prepend(w4, Execute(p, true), []);
    Prepend(w3, MarkIntent(p, Done), [Execute(p, true)] + []);
  }

  function CatchAfterSuccess(p: int): seq<Step> {
    [MarkApplied(p, Refused)] + ([MarkFailed(p, Done)] + ([Release(p)] + []))
  }

  lemma CatchRuns(w: World, p: int, file: string, sum: string, snapshot: Ledger)
    requires p in w.runners && w.lock == Some(p) && file in w.ledger
    requires w.runners[p] == OneFile(Ran(0), file, sum, snapshot)
    ensures IsRun(w, CatchAfterSuccess(p))
    ensures var w1 := After(w, CatchAfterSuccess(p));
      && w1.lock == None && w1.runners.Keys == w.runners.Keys && Has(w1.ledger, file, Failed)
      && w1.trace == w.trace + [Event.MarkedFailed(file)]
  {
    hide IsRun, After;
    var w2 := w.(runners := w.runners[p := OneFile(Failing(0), file, sum, snapshot)]);
    assert Perform(w, MarkApplied(p, Refused)) == w2;
    var w3 := World(w.ledger[file := w.ledger[file].(status := Failed)], Some(p),
                    w.runners[p := OneFile(Ended(false), file, sum, snapshot)], w.trace + [Event.MarkedFailed(file)]);
    assert Perform(w2, MarkFailed(p, Done)) == w3 by {
      assert CurrentFile(w2.runners[p]) == file;
    }
    var w4 := w3.(lock := None);
    EmptyRun(w4);
    Prepend(w3, Release(p), []);
    Prepend(w2, MarkFailed(p, Done), [Release(p)] + []);
    Prepend(w, MarkApplied(p, Refused), [MarkFailed(p, Done)] + ([Release(p)] + []));
  }

  lemma EmptyRun(w: World)
    ensures IsRun(w, []) && After(w, []) == w
  {
  }

  /** Not at-most-once: when writing "applied" fails after the SQL succeeded, the catch block records "failed",
      and the next runner executes the migration that had already succeeded. */
  lemma SucceededMigrationCanRerun(file: string, sum: string)
    ensures exists steps :: IsRun(Boot(map[]), steps) && ExecutedTwiceThoughSucceeded(After(Boot(map[]), steps).trace)
  {
    hide IsRun, After;
    var w := Boot(map[]);
    var again := CatchAfterSuccess(0) + Attempt(1, file, sum);
    AttemptRuns(w, 0, file, sum);
    var w1 := After(w, Attempt(0, file, sum));
    CatchRuns(w1, 0, file, sum, map[]);
    var w2 := After(w1, CatchAfterSuccess(0));
    AttemptRuns(w2, 1, file, sum);
    RunsJoin(w1, CatchAfterSuccess(0), Attempt(1, file, sum));
    RunsJoin(w, Attempt(0, file, sum), again);
    var trace := After(w, Attempt(0, file, sum) + again).trace;
    assert trace[0].Executed? && trace[0].file == file && trace[2].Executed? && trace[2].file == file;
    assert IsRun(w, Attempt(0, file, sum) + again);
  }

  ghost predicate ExecutedTwiceThoughSucceeded(trace: seq<Event>) {
    exists i, j :: 0 <= i < j < |trace| && trace[i].Executed? && trace[j].Executed? && trace[i].succeeded
      && trace[i].file == trace[j].file
  }
}
