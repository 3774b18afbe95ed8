/** When a migration can still be executed, for the first time or again. */
module MigrationReruns {
  import opened Migrate
  import opened Numbers
  import opened Options

  /** The condition, to be read off the ledger and the runners: the file is not applied, and if it is marked
      "applying", some runner is about to execute it, or is past that and still able to mark it failed. */
  ghost predicate MayExecute(w: World, file: string) {
    && !Has(w.ledger, file, Applied)
    && (Has(w.ledger, file, Applying) ==> exists p :: CanFreeOrRun(w, p, file))
  }

  ghost predicate CanFreeOrRun(w: World, p: int, file: string) {
    p in w.runners && OnFile(w.runners[p], file) && (w.runners[p].phase.Marked? || w.runners[p].connected)
  }

  ghost predicate Executes(w: World, steps: seq<Step>, file: string) {
    IsRun(w, steps) && ExecutedAfter(After(w, steps).trace, |w.trace|, file)
  }

  /** Some way of going on executes the file. */
  ghost predicate CanExecute(w: World, file: string) {
    exists steps :: Executes(w, steps, file)
  }

  // ---- once it may not, it is never executed ----

  lemma AppliedStays(w: World, s: Step, file: string)
    requires Inv(w) && Enabled(w, s) && Has(w.ledger, file, Applied)
    ensures Has(Perform(w, s).ledger, file, Applied)
    ensures s.Execute? ==> CurrentFile(w.runners[s.p]) != file
  {
    hide Open, Orderly, Exclusive, TraceOk;
    if !s.Start? {
      assert RunnerOk(w.ledger, w.lock, s.p, w.runners[s.p]);
    }
  }

  lemma TraceGrows(w: World, s: Step, file: string)
    requires Enabled(w, s) && (s.Execute? ==> CurrentFile(w.runners[s.p]) != file)
    ensures w.trace <= Perform(w, s).trace && !ExecutedAfter(Perform(w, s).trace, |w.trace|, file)
  {
    hide Listing, ResolvePlan;
  }

  /** A runner that has executed the file and lost its connection leaves the row alone, and stays as it is or ends. */
  lemma CutOffStep(w: World, s: Step, file: string)
    requires Inv(w) && Enabled(w, s) && !s.Start? && OnFile(w.runners[s.p], file)
    requires !w.runners[s.p].phase.Marked? && !w.runners[s.p].connected
    ensures Perform(w, s).ledger == w.ledger
    ensures s.p in Perform(w, s).runners && !CanFreeOrRun(Perform(w, s), s.p, file)
    ensures !s.Execute?
  {
    hide Open, Orderly, Exclusive, TraceOk, RunnerOk, Listing, ResolvePlan;
  }

  lemma MayNotStays(w: World, s: Step, file: string)
    requires Inv(w) && Enabled(w, s) && !MayExecute(w, file)
    ensures !MayExecute(Perform(w, s), file)
    ensures w.trace <= Perform(w, s).trace && !ExecutedAfter(Perform(w, s).trace, |w.trace|, file)
  {
    hide Inv, Perform, OnFile, Enabled;
    if Has(w.ledger, file, Applied) {
      AppliedStays(w, s, file);
      TraceGrows(w, s, file);
    } else {
      StepKeepsOthers(w, s);
      StepMovesOnlyActor(w, s);
      if !s.Start? && OnFile(w.runners[s.p], file) {
        assert !CanFreeOrRun(w, s.p, file);
        CutOffStep(w, s, file);
        TraceGrows(w, s, file);
      } else {
        StepKeepsOtherRows(w, s, file);
        StepTakesUpNothing(w, s, file);
        StepStartsNothing(w, s, file);
      }
      forall p
        ensures !CanFreeOrRun(Perform(w, s), p, file)
      {
        assert !CanFreeOrRun(w, p, file);
      }
    }
  }

  lemma {:induction false} MayNotForever(w: World, steps: seq<Step>, file: string)
    requires Inv(w) && !MayExecute(w, file) && IsRun(w, steps)
    ensures w.trace <= After(w, steps).trace && !ExecutedAfter(After(w, steps).trace, |w.trace|, file)
    decreases |steps|
  {
    hide Inv, MayExecute, Perform, Enabled;
    if steps != [] {
      var w1 := Perform(w, steps[0]);
      MayNotStays(w, steps[0], file);
      StepKeepsInv(w, steps[0]);
      MayNotForever(w1, steps[1..], file);
      var trace := After(w, steps).trace;
      forall i | |w.trace| <= i < |trace|
        ensures !(trace[i].Executed? && trace[i].file == file)
      {
        if i < |w1.trace| { assert trace[i] == w1.trace[i]; }
      }
    }
  }

  // ---- while it may, some run executes it ----

  lemma Follow(w: World, s: Step, file: string)
    requires Enabled(w, s) && w.trace <= Perform(w, s).trace && CanExecute(Perform(w, s), file)
    ensures CanExecute(w, file)
  {
    var w1 := Perform(w, s);
    var rest :| Executes(w1, rest, file);
    Prepend(w, s, rest);
    assert Executes(w, [s] + rest, file);
  }

  lemma UnlockedCan(w: World, file: string)
    requires w.lock == None && !Has(w.ledger, file, Applied) && !Has(w.ledger, file, Applying)
    ensures CanExecute(w, file)
  {
    hide IsRun, After;
    var p := Unused(w.runners.Keys);
    assert p !in w.runners;
    AttemptRuns(w, p, file, "");
    var trace := After(w, Attempt(p, file, "")).trace;
    assert trace[|w.trace|].Executed? && trace[|w.trace|].file == file;
    assert Executes(w, Attempt(p, file, ""), file);
  }

  /** No marker in the way: whoever holds the lock may crash, and the next runner executes the file. */
  lemma UnmarkedCan(w: World, file: string)
    requires LockOk(w) && !Has(w.ledger, file, Applied) && !Has(w.ledger, file, Applying)
    ensures CanExecute(w, file)
  {
    hide CanExecute;
    if w.lock == None {
      UnlockedCan(w, file);
    } else {
      var holder := w.lock.value;
      UnlockedCan(Perform(w, Crash(holder)), file);
      Follow(w, Crash(holder), file);
    }
  }

  lemma FailingCan(w: World, p: int, file: string)
    requires Inv(w) && CanFreeOrRun(w, p, file) && w.runners[p].phase.Failing?
    ensures CanExecute(w, file)
  {
    hide CanExecute, Open, Orderly, Exclusive, AllApplied;
    assert RunnerOk(w.ledger, w.lock, p, w.runners[p]);
    var s := MarkFailed(p, Done);
    StepKeepsInv(w, s);
    assert Has(Perform(w, s).ledger, file, Failed);
    UnmarkedCan(Perform(w, s), file);
    Follow(w, s, file);
  }

  lemma RanCan(w: World, p: int, file: string)
    requires Inv(w) && CanFreeOrRun(w, p, file) && w.runners[p].phase.Ran?
    ensures CanExecute(w, file)
  {
    hide CanExecute, Open, Orderly, Exclusive, AllApplied;
    assert RunnerOk(w.ledger, w.lock, p, w.runners[p]);
    var s := MarkApplied(p, Refused);
    StepKeepsInv(w, s);
    FailingCan(Perform(w, s), p, file);
    Follow(w, s, file);
  }

  lemma MarkedCan(w: World, p: int, file: string)
    requires Inv(w) && CanFreeOrRun(w, p, file) && w.runners[p].phase.Marked?
    ensures CanExecute(w, file)
  {
    hide Open, Orderly, Exclusive, AllApplied;
    assert RunnerOk(w.ledger, w.lock, p, w.runners[p]);
    var s := Execute(p, true);
    var w1 := Perform(w, s);
    EmptyRun(w1);
    Prepend(w, s, []);
    assert w1.trace[|w.trace|].Executed? && w1.trace[|w.trace|].file == file;
    assert Executes(w, [s] + [], file);
  }

  /** EXACT. In every world the runners can reach, a file can still be executed, again or for the first time, if
      and only if it is not applied, and if it is marked "applying", a runner is about to execute it or has done so
      and has not lost its connection. */
  lemma ExecutesAgainExactlyWhen(ledger: Ledger, before: seq<Step>, file: string)
    requires IsRun(Boot(ledger), before)
    ensures var w := After(Boot(ledger), before);
      CanExecute(w, file) <==> MayExecute(w, file)
  {
    RunKeepsInv(Boot(ledger), before);
    var w := After(Boot(ledger), before);
    if MayExecute(w, file) {
      if Has(w.ledger, file, Applying) {
        var p :| CanFreeOrRun(w, p, file);
        match w.runners[p].phase
        case Marked(_) => MarkedCan(w, p, file);
        case Ran(_) => RanCan(w, p, file);
        case Failing(_) => FailingCan(w, p, file);
      } else {
        UnmarkedCan(w, file);
      }
    } else if CanExecute(w, file) {
      hide Inv, MayExecute;
      var steps :| Executes(w, steps, file);
      MayNotForever(w, steps, file);
    }
  }
}
