/** What a run of the migration runner that reports success has done, whatever other runners do at the same time. */
module MigrationSuccess {
  import opened Migrate
  import opened Options

  /** The file is applied under the checksum that the listing has for it. */
  predicate Sealed(ledger: Ledger, file: string, sums: map<string, string>) {
    file in sums && RowOf(ledger, file) == Some(Row(Applied, Some(sums[file])))
  }

  ghost predicate SealedUpTo(ledger: Ledger, r: Runner, n: nat) {
    n <= |r.files| && forall k :: 0 <= k < n ==> Sealed(ledger, r.files[k], r.sums)
  }

  predicate Settled(ledger: Ledger, file: string) {
    Has(ledger, file, Applied) && ledger[file].checksum.Some?
  }

  ghost predicate RunnerSealed(ledger: Ledger, r: Runner) {
    && (r.phase.Looping? || InFlight(r.phase) ==>
          && SealedUpTo(ledger, r, r.phase.i)
          && forall f :: Settled(r.snapshot, f) ==> RowOf(ledger, f) == RowOf(r.snapshot, f))
    && (r.phase == Ended(true) ==> SealedUpTo(ledger, r, |r.files|))
  }

  ghost predicate AllSealed(w: World) {
    forall p :: p in w.runners ==> RunnerSealed(w.ledger, w.runners[p])
  }

  lemma SettledStays(w: World, s: Step, file: string)
    requires Inv(w) && Enabled(w, s) && Settled(w.ledger, file)
    ensures RowOf(Perform(w, s).ledger, file) == RowOf(w.ledger, file)
  {
    hide Open, Orderly;
    if !s.Start? { RunnerIsOk(w, s.p); }
  }

  lemma SealsStay(w: World, s: Step, r: Runner, n: nat)
    requires Inv(w) && Enabled(w, s) && SealedUpTo(w.ledger, r, n)
    ensures SealedUpTo(Perform(w, s).ledger, r, n)
  {
    forall f | Settled(w.ledger, f) {
      SettledStays(w, s, f);
    }
    hide Inv, Enabled, Perform;
  }

  lemma SnapshotStays(w: World, s: Step, snapshot: Ledger)
    requires Inv(w) && Enabled(w, s)
    requires forall f :: Settled(snapshot, f) ==> RowOf(w.ledger, f) == RowOf(snapshot, f)
    ensures forall f :: Settled(snapshot, f) ==> RowOf(Perform(w, s).ledger, f) == RowOf(snapshot, f)
  {
    forall f | Settled(snapshot, f)
      ensures RowOf(Perform(w, s).ledger, f) == RowOf(w.ledger, f)
    {
      assert Settled(w.ledger, f);
      SettledStays(w, s, f);
    }
  }

  /** What is sealed for a runner that does not move stays so. */
  lemma OthersStaySealed(w: World, s: Step, r: Runner)
    requires Inv(w) && Enabled(w, s) && RunnerSealed(w.ledger, r)
    ensures RunnerSealed(Perform(w, s).ledger, r)
  {
    hide Inv, Enabled, Perform, SealedUpTo, Settled, RowOf;
    if r.phase.Looping? || InFlight(r.phase) {
      SealsStay(w, s, r, r.phase.i);
      SnapshotStays(w, s, r.snapshot);
    }
    if r.phase == Ended(true) { SealsStay(w, s, r, |r.files|); }
  }

  /** The two steps that pass a file seal it. */
  lemma PassingSeals(w: World, s: Step)
    requires Inv(w) && Enabled(w, s) && (s.SkipFile? || s.MarkApplied?) && RunnerSealed(w.ledger, w.runners[s.p])
    ensures var r, v := w.runners[s.p], Perform(w, s);
      v.runners[s.p].phase == Looping(r.phase.i + 1) ==> Sealed(v.ledger, CurrentFile(r), r.sums)
  {
    RunnerIsOk(w, s.p);
    hide Inv, AllApplied, SealedUpTo;
    var r := w.runners[s.p];
    assert r.connected ==> s.SkipFile? ==> RowOf(r.snapshot, CurrentFile(r)) == RowOf(w.ledger, CurrentFile(r));
    assert s.SkipFile? && r.snapshot[CurrentFile(r)].checksum.Some? ==> Settled(r.snapshot, CurrentFile(r));
  }

  /** How the actor's phase and snapshot move. */
  lemma ActorMoves(w: World, s: Step)
    requires Enabled(w, s) && !s.Start?
    ensures s.p in w.runners && s.p in Perform(w, s).runners
    ensures var r, r1 := w.runners[s.p], Perform(w, s).runners[s.p];
      && r1.files == r.files && r1.sums == r.sums
      && (r1.phase.Looping? || InFlight(r1.phase) ==>
            || (s.Read? && r1.phase == Looping(0) && r1.snapshot == w.ledger)
            || ((r.phase.Looping? || InFlight(r.phase)) && r1.snapshot == r.snapshot && r1.phase.i == r.phase.i)
            || ((s.SkipFile? || s.MarkApplied?) && r1.snapshot == r.snapshot && r1.phase == Looping(r.phase.i + 1)
                && (r.phase.Looping? || InFlight(r.phase))))
      && (r1.phase == Ended(true) ==>
            || r.phase == Ended(true)
            || (s.Complete? && r.phase == Looping(|r.files|) && Perform(w, s).ledger == w.ledger))
      && (s.Read? ==> Perform(w, s).ledger == w.ledger)
  {
    hide Listing, ResolvePlan, RowOf, Has;
  }

  lemma ActorStaysSealed(w: World, s: Step)
    requires Inv(w) && Enabled(w, s) && !s.Start? && RunnerSealed(w.ledger, w.runners[s.p])
    ensures RunnerSealed(Perform(w, s).ledger, Perform(w, s).runners[s.p])
  {
    ActorMoves(w, s);
    OthersStaySealed(w, s, w.runners[s.p]);
    if s.SkipFile? || s.MarkApplied? {
      PassingSeals(w, s);
      RunnerIsOk(w, s.p);
    }
    hide Inv, Enabled, Perform, RowOf, Settled, Sealed;
  }

  lemma StepKeepsSealed(w: World, s: Step)
    requires Inv(w) && AllSealed(w) && Enabled(w, s)
    ensures AllSealed(Perform(w, s))
  {
    var v := Perform(w, s);
    if !s.Start? { ActorStaysSealed(w, s); }
    forall q | q in v.runners && q != s.p
      ensures RunnerSealed(v.ledger, v.runners[q])
    {
      StepKeepsOthers(w, s);
      StepMovesOnlyActor(w, s);
      OthersStaySealed(w, s, w.runners[q]);
    }
    assert s.Start? ==> RunnerSealed(v.ledger, v.runners[s.p]);
  }

  lemma {:induction false} RunKeepsSealed(w: World, steps: seq<Step>)
    requires Inv(w) && AllSealed(w) && IsRun(w, steps)
    ensures AllSealed(After(w, steps))
    decreases |steps|
  {
    hide Inv, AllSealed, Perform, Enabled;
    if steps != [] {
      StepKeepsInv(w, steps[0]);
      StepKeepsSealed(w, steps[0]);
      RunKeepsSealed(Perform(w, steps[0]), steps[1..]);
    }
  }

  /** SUCCESS. From any ledger, over every run of any number of runners with crashes and lost connections anywhere: once
      a runner has ended in success, each of its files is applied under the checksum of its own listing. */
  lemma SuccessMeansApplied(ledger: Ledger, steps: seq<Step>, p: int, file: string)
    requires IsRun(Boot(ledger), steps)
    ensures var w := After(Boot(ledger), steps);
      p in w.runners && w.runners[p].phase == Ended(true) && file in w.runners[p].files ==>
        Sealed(w.ledger, file, w.runners[p].sums)
  {
    var w := After(Boot(ledger), steps);
    assert Inv(Boot(ledger)) && AllSealed(Boot(ledger));
    hide Inv, After;
    RunKeepsSealed(Boot(ledger), steps);
    if p in w.runners && w.runners[p].phase == Ended(true) && file in w.runners[p].files {
      assert RunnerSealed(w.ledger, w.runners[p]);
    }
  }
}
