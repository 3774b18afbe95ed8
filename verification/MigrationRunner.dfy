/** The runner's loop over the listed files, as one process executes it, writing its markers in place. Every
    statement it makes is a step of the machine in module Migrate. */
module MigrationRunner {
  import opened Options
  import opened Migrate

  /** How the statements of one file end: the baseline or intent write, the second connection, the SQL, the
      "applied" write and the "failed" write. */
  datatype Fate = Fate(intent: Outcome, client: bool, sql: bool, applied: Outcome, failed: Outcome)

  lemma {:induction false} Extend(w: World, steps: seq<Step>, s: Step)
    requires IsRun(w, steps) && Enabled(After(w, steps), s)
    ensures IsRun(w, steps + [s]) && After(w, steps + [s]) == Perform(After(w, steps), s)
  {
    var w1 := After(w, steps);
    assert [s][1..] == [];
    assert IsRun(Perform(w1, s), []);
    RunsJoin(w, steps, [s]);
  }

  /** The files of a listing that the ledger does not show as applied, in order. */
  function Pending(ledger: Ledger, files: seq<string>): seq<string> {
    if files == [] then []
    else Pending(ledger, files[..|files| - 1])
         + (if Has(ledger, files[|files| - 1], Applied) then [] else [files[|files| - 1]])
  }

  lemma PendingNext(ledger: Ledger, files: seq<string>, i: nat)
    requires i < |files|
    ensures files[..i + 1] == files[..i] + [files[i]]
    ensures Pending(ledger, files[..i + 1])
         == Pending(ledger, files[..i]) + (if Has(ledger, files[i], Applied) then [] else [files[i]])
  {
    assert files[..i + 1][..i] == files[..i];
  }

  lemma NothingPending(ledger: Ledger, files: seq<string>)
    ensures Pending(ledger, files[..0]) == []
  {
  }

  /** The files whose SQL was run, in order, as the machine records them. */
  function Executions(trace: seq<Event>): seq<string> {
    if trace == [] then []
    else Executions(trace[..|trace| - 1]) + match trace[|trace| - 1]
      case Executed(file, _, _, _) => [file]
      case MarkedFailed(_) => []
  }

  lemma OneMoreEvent(trace: seq<Event>, e: Event)
    ensures Executions(trace + [e]) == Executions(trace) + if e.Executed? then [e.file] else []
  {
    assert (trace + [e])[..|trace|] == trace;
  }

  /** Applied, under the checksum of the file at hand. */
  predicate Verified(ledger: Ledger, file: string, sums: map<string, string>) {
    file in sums && RowOf(ledger, file) == Some(Row(Applied, Some(sums[file])))
  }

  /** Does the run get past a file, given its row when the run began and how its statements end? */
  predicate Passes(row: Option<Row>, sum: string, fate: Fate) {
    match row
    case Some(Row(Applied, seen)) => seen == Some(sum) || (seen == None && fate.intent == Done)
    case Some(Row(Applying, _)) => false
    case _ => fate.intent == Done && fate.client && fate.sql && fate.applied == Done
  }

  /** Is its SQL run? */
  predicate Runs(row: Option<Row>, fate: Fate) {
    (row == None || row.value.status !in {Applied, Applying}) && fate.intent == Done && fate.client
  }

  /** The row it is left with. */
  function LeftWith(row: Option<Row>, sum: string, fate: Fate): Option<Row> {
    match row
    case Some(Row(Applied, seen)) =>
      if seen == None && fate.intent != Refused then Some(Row(Applied, Some(sum))) else row
    case Some(Row(Applying, _)) => row
    case _ =>
      if fate.intent == Refused then row
      else if fate.intent == DoneThenLost || !fate.client then Some(Row(Applying, Some(sum)))
      else if fate.sql && fate.applied != Refused then Some(Row(Applied, Some(sum)))
      else Some(Row(if fate.failed == Refused then Applying else Failed, Some(sum)))
  }

  /** The first `n` files were passed, and each has the row its statements leave it with. */
  ghost predicate PassedUpTo(before: Ledger, after: Ledger, files: seq<string>, sums: map<string, string>,
                             fates: seq<Fate>, n: nat)
    requires n <= |files| == |fates| && Listing(files, sums)
  {
    forall k :: 0 <= k < n ==>
      && Passes(RowOf(before, files[k]), sums[files[k]], fates[k])
      && RowOf(after, files[k]) == LeftWith(RowOf(before, files[k]), sums[files[k]], fates[k])
      && Verified(after, files[k], sums)
  }

  lemma StillPassed(before: Ledger, mid: Ledger, after: Ledger, files: seq<string>, sums: map<string, string>,
                    fates: seq<Fate>, n: nat)
    requires n < |files| == |fates| && Listing(files, sums) && PassedUpTo(before, mid, files, sums, fates, n)
    requires forall f :: f != files[n] ==> RowOf(after, f) == RowOf(mid, f)
    ensures PassedUpTo(before, after, files, sums, fates, n)
  {
    hide Passes, LeftWith, RowOf;
    forall k | 0 <= k < n
      ensures RowOf(after, files[k]) == RowOf(mid, files[k])
    {
      assert files[k] != files[n];
    }
  }

  lemma PassedNext(before: Ledger, after: Ledger, files: seq<string>, sums: map<string, string>, fates: seq<Fate>,
                   n: nat)
    requires n < |files| == |fates| && Listing(files, sums) && PassedUpTo(before, after, files, sums, fates, n)
    requires Passes(RowOf(before, files[n]), sums[files[n]], fates[n]) && Verified(after, files[n], sums)
    requires RowOf(after, files[n]) == LeftWith(RowOf(before, files[n]), sums[files[n]], fates[n])
    ensures PassedUpTo(before, after, files, sums, fates, n + 1)
  {
    hide Passes, LeftWith, RowOf, Verified;
  }

  ghost predicate AllPass(before: Ledger, files: seq<string>, sums: map<string, string>, fates: seq<Fate>)
    requires |files| == |fates| && Listing(files, sums)
  {
    forall k :: 0 <= k < |files| ==> Passes(RowOf(before, files[k]), sums[files[k]], fates[k])
  }

  lemma AllPassed(before: Ledger, after: Ledger, files: seq<string>, sums: map<string, string>, fates: seq<Fate>)
    requires |files| == |fates| && Listing(files, sums) && PassedUpTo(before, after, files, sums, fates, |files|)
    ensures AllPass(before, files, sums, fates)
  {
    hide Passes, RowOf, Verified, LeftWith;
  }

  lemma OneFails(before: Ledger, files: seq<string>, sums: map<string, string>, fates: seq<Fate>, k: nat)
    requires k < |files| == |fates| && Listing(files, sums)
    requires !Passes(RowOf(before, files[k]), sums[files[k]], fates[k])
    ensures !AllPass(before, files, sums, fates)
  {
    hide Passes, RowOf;
  }

  lemma NonePassed(ledger: Ledger, files: seq<string>, sums: map<string, string>, fates: seq<Fate>)
    requires |files| == |fates| && Listing(files, sums)
    ensures PassedUpTo(ledger, ledger, files, sums, fates, 0)
  {
  }

  lemma PassedRuns(ledger: Ledger, file: string, sum: string, fate: Fate)
    requires Passes(RowOf(ledger, file), sum, fate)
    ensures Runs(RowOf(ledger, file), fate) <==> !Has(ledger, file, Applied)
  {
  }

  class Database {
    var rows: Ledger
    ghost var origin: World
    ghost var steps: seq<Step>
    ghost var world: World

    /** The rows are those of a world that the machine reaches from where this database started. */
    ghost predicate Valid()
      reads this
    {
      && Inv(origin) && IsRun(origin, steps) && world == After(origin, steps) && Inv(world)
      && rows == world.ledger
    }

    constructor (ledger: Ledger)
      ensures Valid() && rows == ledger && world == Boot(ledger)
    {
      rows := ledger;
      origin, world, steps := Boot(ledger), Boot(ledger), [];
    }

    ghost method Take(s: Step)
      requires Inv(origin) && IsRun(origin, steps) && world == After(origin, steps) && Inv(world)
      requires Enabled(world, s)
      modifies `world, `steps
      ensures IsRun(origin, steps) && world == After(origin, steps) && Inv(world)
      ensures world == Perform(old(world), s)
      ensures steps == old(steps) + [s]
    {
      Extend(origin, steps, s);
      StepKeepsInv(world, s);
      steps := steps + [s];
      world := Perform(world, s);
    }

    /** Runner `p` holds the lock and stands before file `i`. */
    ghost predicate Before(p: int, files: seq<string>, sums: map<string, string>, snapshot: Ledger, i: nat)
      reads this
    {
      Valid() && world.lock == Some(p) && p in world.runners
      && world.runners[p] == Runner(Looping(i), files, sums, snapshot, true)
    }

    /** Runner `p` has ended, in success or by throwing; it may still hold the lock. */
    ghost predicate Stopped(p: int, ok: bool)
      reads this
    {
      p in world.runners && world.runners[p].phase == Ended(ok) && (world.lock.Some? ==> world.lock == Some(p))
    }

    /** An applied file: its checksum is verified, or recorded as a baseline. */
    method SkipOne(p: int, files: seq<string>, sums: map<string, string>, snapshot: Ledger, i: nat, out: Outcome)
      returns (ok: bool)
      requires Before(p, files, sums, snapshot, i) && i < |files| && Listing(files, sums)
      requires files[i] in snapshot && snapshot[files[i]].status == Applied
        && RowOf(snapshot, files[i]) == RowOf(rows, files[i])
      modifies this
      ensures Valid() && old(steps) < steps && origin == old(origin)
      ensures ok ==> Before(p, files, sums, snapshot, i + 1) && Verified(rows, files[i], sums)
      ensures ok || rows == old(rows) || out == DoneThenLost
      ensures forall fate: Fate :: fate.intent == out ==>
        && ok == Passes(RowOf(old(rows), files[i]), sums[files[i]], fate)
        && RowOf(rows, files[i]) == LeftWith(RowOf(old(rows), files[i]), sums[files[i]], fate)
      ensures forall f :: f != files[i] ==> RowOf(rows, f) == RowOf(old(rows), f)
      ensures Has(rows, files[i], Applied)
      ensures !ok ==> Stopped(p, false)
      ensures world.trace == old(world).trace
    {
      hide Inv, IsRun, After, Listing;
      var file := files[i];
      RunnerListing(p);
      var seen := snapshot[file].checksum;
      if seen.Some? && seen != Some(sums[file]) {
        Take(SkipFile(p, out));
        return false;
      }
      if seen == None {
        if out != Refused { rows := rows[file := rows[file].(checksum := Some(sums[file]))]; }
        Take(SkipFile(p, out));
        return out == Done;
      }
      Take(SkipFile(p, out));
      return true;
    }

    /** Runner `p` holds the lock with file `i` marked "applying". */
    ghost predicate At(p: int, files: seq<string>, sums: map<string, string>, snapshot: Ledger, phase: Phase)
      reads this
      requires InFlight(phase)
    {
      Valid() && p in world.runners && phase.i < |files| && Listing(files, sums)
      && world.runners[p].phase == phase && world.runners[p].files == files && world.runners[p].sums == sums
      && world.runners[p].snapshot == snapshot
      && (world.runners[p].connected ==> world.lock == Some(p)) && (world.lock.Some? ==> world.lock == Some(p))
      && (Has(rows, files[phase.i], Applying)
          || (phase.Failing? && !world.runners[p].connected && Verified(rows, files[phase.i], sums)))
    }

    method PersistIntent(p: int, files: seq<string>, sums: map<string, string>, snapshot: Ledger, i: nat, out: Outcome)
      requires Before(p, files, sums, snapshot, i) && i < |files| && Listing(files, sums)
      requires !Has(snapshot, files[i], Applied) && !Has(snapshot, files[i], Applying)
      modifies this
      ensures Valid() && old(steps) < steps && origin == old(origin) && world.trace == old(world).trace
      ensures forall f :: f != files[i] ==> RowOf(rows, f) == RowOf(old(rows), f)
      ensures out == Done ==> At(p, files, sums, snapshot, Marked(i)) && world.runners[p].connected
      ensures out != Done ==> Stopped(p, false) && (rows == old(rows) || Has(rows, files[i], Applying))
      ensures rows == if out == Refused then old(rows) else old(rows)[files[i] := Row(Applying, Some(sums[files[i]]))]
    {
      hide Inv, IsRun, After, Listing;
      RunnerListing(p);
      if out != Refused { rows := rows[files[i] := Row(Applying, Some(sums[files[i]]))]; }
      Take(MarkIntent(p, out));
    }

    /** The SQL and, when it succeeds, the "applied" write. */
    method RunSql(p: int, files: seq<string>, sums: map<string, string>, snapshot: Ledger, i: nat, fate: Fate)
      returns (ok: bool)
      requires At(p, files, sums, snapshot, Marked(i)) && world.runners[p].connected
      modifies this
      ensures Valid() && old(steps) < steps && origin == old(origin)
      ensures world.trace == old(world).trace + [Executed(files[i], fate.sql, old(rows), files[..i])]
      ensures forall f :: f != files[i] ==> RowOf(rows, f) == RowOf(old(rows), f)
      ensures ok <==> fate.sql && fate.applied == Done
      ensures rows
           == if fate.sql && fate.applied != Refused then old(rows)[files[i] := Row(Applied, Some(sums[files[i]]))]
              else old(rows)
      ensures ok ==> Before(p, files, sums, snapshot, i + 1) && Verified(rows, files[i], sums)
      ensures !ok ==> At(p, files, sums, snapshot, Failing(i)) && (Verified(rows, files[i], sums) ==> fate.sql)
      ensures !ok ==> world.runners[p].connected == !(fate.sql && fate.applied == DoneThenLost)
    {
      hide Inv, IsRun, After, Listing;
      RunnerListing(p);
      Take(Execute(p, fate.sql));
      if !fate.sql { return false; }
      if fate.applied != Refused { rows := rows[files[i] := Row(Applied, Some(sums[files[i]]))]; }
      Take(MarkApplied(p, fate.applied));
      return fate.applied == Done;
    }

    /** The catch block: "failed" is written if the lock connection still works. */
    method CatchBlock(p: int, files: seq<string>, sums: map<string, string>, snapshot: Ledger, i: nat, marker: Outcome)
      requires At(p, files, sums, snapshot, Failing(i)) && (marker != Refused ==> world.runners[p].connected)
      modifies this
      ensures Valid() && old(steps) < steps && origin == old(origin)
      ensures marker == Refused ==> world.trace == old(world).trace
      ensures marker != Refused ==> world.trace == old(world).trace + [Event.MarkedFailed(files[i])]
      ensures forall f :: f != files[i] ==> RowOf(rows, f) == RowOf(old(rows), f)
      ensures Stopped(p, false) && (if marker == Refused then rows == old(rows) else Has(rows, files[i], Failed))
      ensures marker != Refused ==> rows[files[i]].checksum == old(rows)[files[i]].checksum
    {
      hide Inv, IsRun, After, Listing;
      RunnerListing(p);
      if marker != Refused { rows := rows[files[i] := rows[files[i]].(status := Failed)]; }
      Take(Step.MarkFailed(p, marker));
    }

    /** A file to apply or retry: intent is persisted, the SQL runs, and the marker says how it ended. */
    method ApplyOne(p: int, files: seq<string>, sums: map<string, string>, snapshot: Ledger, i: nat, fate: Fate)
      returns (ok: bool, executed: bool)
      requires Before(p, files, sums, snapshot, i) && i < |files| && Listing(files, sums)
      requires !Has(snapshot, files[i], Applied) && !Has(snapshot, files[i], Applying)
      requires RowOf(snapshot, files[i]) == RowOf(rows, files[i])
      modifies this
      ensures Valid() && old(steps) < steps && origin == old(origin)
      ensures ok <==> fate.intent == Done && fate.client && fate.sql && fate.applied == Done
      ensures executed <==> fate.intent == Done && fate.client
      ensures RowOf(rows, files[i]) == LeftWith(RowOf(old(rows), files[i]), sums[files[i]], fate)
      ensures ok ==> executed && Before(p, files, sums, snapshot, i + 1) && Verified(rows, files[i], sums)
      ensures forall f :: f != files[i] ==> RowOf(rows, f) == RowOf(old(rows), f)
      ensures !ok ==> Stopped(p, false)
      ensures !ok && !executed ==> rows == old(rows) || Has(rows, files[i], Applying)
      ensures !ok && executed ==>
                Has(rows, files[i], Failed) || Has(rows, files[i], Applying)
                || (Verified(rows, files[i], sums) && fate.sql)
      ensures old(world).trace <= world.trace
      ensures Executions(world.trace) == Executions(old(world).trace) + if executed then [files[i]] else []
    {
      hide Inv, IsRun, After, Listing, Executions;
      PersistIntent(p, files, sums, snapshot, i, fate.intent);
      if fate.intent != Done { return false, false; }
      if !fate.client {
        RunnerListing(p);
        Take(NoClient(p));
        return false, false;
      }
      ghost var before, ledger := world.trace, rows;
      ok := RunSql(p, files, sums, snapshot, i, fate);
      OneMoreEvent(before, Executed(files[i], fate.sql, ledger, files[..i]));
      if !ok {
        OneMoreEvent(world.trace, Event.MarkedFailed(files[i]));
        CatchBlock(p, files, sums, snapshot, i,
                   if fate.sql && fate.applied == DoneThenLost then Refused else fate.failed);
      }
      executed := true;
    }

    /** One pass of the loop: skip, refuse, or apply. */
    method TreatOne(p: int, files: seq<string>, sums: map<string, string>, snapshot: Ledger, i: nat, fate: Fate)
      returns (ok: bool, executed: bool)
      requires Before(p, files, sums, snapshot, i) && i < |files| && Listing(files, sums)
      requires RowOf(snapshot, files[i]) == RowOf(rows, files[i])
      modifies this
      ensures Valid() && old(steps) < steps && origin == old(origin)
      ensures ok ==> Before(p, files, sums, snapshot, i + 1) && Verified(rows, files[i], sums)
      ensures !ok ==> Stopped(p, false)
      ensures ok == Passes(RowOf(old(rows), files[i]), sums[files[i]], fate)
      ensures executed == Runs(RowOf(old(rows), files[i]), fate)
      ensures RowOf(rows, files[i]) == LeftWith(RowOf(old(rows), files[i]), sums[files[i]], fate)
      ensures forall f :: f != files[i] ==> RowOf(rows, f) == RowOf(old(rows), f)
      ensures old(world).trace <= world.trace
      ensures Executions(world.trace) == Executions(old(world).trace) + if executed then [files[i]] else []
    {
      hide Inv, IsRun, After, Listing, Executions;
      var plan := ResolvePlan(RowOf(snapshot, files[i]));
      if plan == Skip {
        executed := false;
        ok := SkipOne(p, files, sums, snapshot, i, fate.intent);
      } else if plan == Abort {
        RunnerListing(p);
        Take(AbortFile(p));
        ok, executed := false, false;
      } else {
        ok, executed := ApplyOne(p, files, sums, snapshot, i, fate);
      }
    }

    method Begin(p: int, files: seq<string>, sums: map<string, string>) returns (snapshot: Ledger)
      requires Valid() && world.lock == Option.None && p !in world.runners && Listing(files, sums)
      modifies `world, `steps
      ensures Before(p, files, sums, snapshot, 0) && snapshot == rows && old(steps) < steps
      ensures rows == old(rows) && world.trace == old(world).trace
    {
      hide Inv, IsRun, After, Listing;
      Take(Start(p, files, sums));
      Take(Acquire(p));
      Take(Read(p));
      snapshot := rows;
    }

    /** The `finally` block. */
    method Finally(p: int, ghost ok: bool)
      requires Valid() && Stopped(p, ok)
      modifies `world, `steps
      ensures Valid() && Stopped(p, ok) && old(steps) <= steps && world.lock == Option.None
      ensures world.ledger == old(world).ledger && world.trace == old(world).trace
    {
      hide Inv, IsRun, After;
      if world.lock.Some? { Take(Release(p)); }
    }

    method Finish(p: int)
      requires Valid() && p in world.runners && world.lock == Some(p) && world.runners[p].phase.Looping?
      requires world.runners[p].phase.i == |world.runners[p].files|
      modifies `world, `steps
      ensures Valid() && Stopped(p, true) && old(steps) < steps
      ensures world.ledger == old(world).ledger && world.trace == old(world).trace
    {
      hide Inv, IsRun, After;
      Take(Complete(p));
    }

    /** One run of the runner over a listing, alone on the database. It succeeds exactly when every file passes by its
        row before the run and the fates of its statements, and otherwise stops at the first that does not. Whatever
        happens, files are treated strictly in order, a file already applied is not executed, each treated file has the
        row its statements leave it with, rows of later files are not touched, and the files it reports as executed are
        exactly those whose SQL the machine ran, in that order. */
    method Migrate(p: int, files: seq<string>, sums: map<string, string>, fates: seq<Fate>)
      returns (ok: bool, reached: nat, executed: seq<string>)
      requires Valid() && world.lock == Option.None && p !in world.runners
      requires Listing(files, sums) && |fates| == |files|
      modifies this
      ensures Valid() && origin == old(origin) && old(steps) <= steps && world.lock == Option.None
      ensures reached <= |files| && (ok <==> reached == |files|)
      ensures PassedUpTo(old(rows), rows, files, sums, fates, reached)
      ensures Stopped(p, ok)
      ensures ok <==> AllPass(old(rows), files, sums, fates)
      ensures !ok ==>
        var before, sum, fate := RowOf(old(rows), files[reached]), sums[files[reached]], fates[reached];
        !Passes(before, sum, fate) && RowOf(rows, files[reached]) == LeftWith(before, sum, fate)
      ensures forall f :: f !in files[..if ok then reached else reached + 1] ==> RowOf(rows, f) == RowOf(old(rows), f)
      ensures executed == Pending(old(rows), files[..reached])
        + if !ok && Runs(RowOf(old(rows), files[reached]), fates[reached]) then [files[reached]] else []
      ensures old(world).trace <= world.trace
      ensures Executions(world.trace) == Executions(old(world).trace) + executed
    {
      hide Inv, IsRun, After, Listing, Perform, Enabled, Pending, Has, RowOf, Executions, Passes, Runs, LeftWith,
          PassedUpTo, Verified, AllPass;
      NothingPending(rows, files);
      NonePassed(rows, files, sums, fates);
      var snapshot := Begin(p, files, sums);
      executed, reached := [], 0;
      while reached < |files|
        invariant reached <= |files| && Before(p, files, sums, snapshot, reached)
        invariant origin == old(origin) && old(steps) <= steps
        invariant PassedUpTo(snapshot, rows, files, sums, fates, reached)
        invariant forall f :: f !in files[..reached] ==> RowOf(rows, f) == RowOf(snapshot, f)
        invariant executed == Pending(snapshot, files[..reached])
        invariant old(world).trace <= world.trace
        invariant Executions(world.trace) == Executions(old(world).trace) + executed
      {
        var file := files[reached];
        ghost var mid := rows;
        DistinctFiles(files, sums, reached);
        PendingNext(snapshot, files, reached);
        var went, ran := TreatOne(p, files, sums, snapshot, reached, fates[reached]);
        if ran { executed := executed + [file]; }
        StillPassed(snapshot, mid, rows, files, sums, fates, reached);
        if !went {
          OneFails(snapshot, files, sums, fates, reached);
          Finally(p, false);
          return false, reached, executed;
        }
        PassedRuns(snapshot, file, sums[file], fates[reached]);
        PassedNext(snapshot, rows, files, sums, fates, reached);
        reached := reached + 1;
      }
      assert files[..reached] == files;
      AllPassed(snapshot, rows, files, sums, fates);
      Finish(p);
      Finally(p, true);
      return true, reached, executed;
    }

    lemma DistinctFiles(files: seq<string>, sums: map<string, string>, i: nat)
      requires Listing(files, sums) && i < |files|
      ensures files[i] in sums && files[i] !in files[..i] && forall k :: 0 <= k < i ==> files[k] != files[i]
    {
    }

    lemma RunnerListing(p: int)
      requires Inv(world) && p in world.runners
      ensures Listing(world.runners[p].files, world.runners[p].sums)
      ensures forall f :: f in world.runners[p].files ==> f in world.runners[p].sums
      ensures world.runners[p].phase.Looping? && world.runners[p].connected ==>
        forall k :: world.runners[p].phase.i <= k < |world.runners[p].files| ==>
          RowOf(world.runners[p].snapshot, world.runners[p].files[k]) == RowOf(world.ledger, world.runners[p].files[k])
    {
      RunnerIsOk(world, p);
    }
  }
}
