/** When a processor can be started again for a job it has already done. */
module PaymentReruns {
  import opened Calls
  import opened Numbers
  import opened PaymentQueue

  ghost predicate WorkedOn(w: World, id: string, phase: Phase) {
    exists k :: InPhase(w, k, phase) && w.workers[k].payload.id == id
  }

  predicate Listed(q: Queue, j: Job) {
    j in q.live || j in q.processing || j in q.delayed
  }

  /** A payload of the job is where a worker can still come to claim it: not among the dead. */
  ghost predicate Claimable(q: Queue, id: string) {
    exists j: Job :: j.id == id && Listed(q, j)
  }

  /** The condition, to be read off the lists, the completion marker and the workers. */
  ghost predicate MayRun(w: World, id: string) {
    || WorkedOn(w, id, Running)
    || (id !in w.q.completed && (WorkedOn(w, id, Checking) || Claimable(w.q, id)))
  }

  /** What puts a payload of the job back among the claimable: an operator's recovery from the dead letters, or adding
      the job anew. */
  predicate Relists(step: Step, id: string) {
    (step.Recover? && step.p.id == id) || (step.Add? && step.id == id)
  }

  /** What would give the job another life: that, or the expiry of its completion marker. */
  predicate Revives(step: Step, id: string) {
    Relists(step, id) || (step.Expire? && step.marker.CompletionMarker? && step.id == id)
  }

  predicate Unaided(steps: seq<Step>, id: string) {
    forall i :: 0 <= i < |steps| ==> !Revives(steps[i], id)
  }

  /** Some way of going on, without reviving the job or doubling another, leads to a worker running its processor. */
  ghost predicate CanRun(w: World, id: string) {
    exists steps, v :: Unaided(steps, id) && NeverDoubles(w, steps) && Reaches(w, steps, v) && WorkedOn(v, id, Running)
  }

  // ---- once it may not run, it never does ----

  lemma WorkIsOfItsJob(w: World, k: nat)
    requires Inv(w) && k in w.workers
    ensures w.workers[k].job.id == w.workers[k].payload.id
  {
  }

  /** Where the workers after a step come from: what they work on, and how they came to check or to run. */
  lemma WorkersAfter(w: World, step: Step, k: nat)
    requires Enabled(w, step) && k in Next(w, step).workers
    ensures var v := Next(w, step);
      if k in w.workers then
        && v.workers[k].payload == w.workers[k].payload
        && (v.workers[k].phase == Checking ==> w.workers[k].phase == Checking)
        && (v.workers[k].phase == Running ==>
              || w.workers[k].phase == Running
              || (w.workers[k].phase == Checking && w.workers[k].job.id !in w.q.completed))
      else step.Claim? && k == step.w && v.workers[k].payload == step.p && v.workers[k].phase != Running
  {
    hide Claimed, Completed, Reclaimed, Renewed, Retried, DeadLettered, Promoted, Added, Recovered, Expired;
  }

  lemma MarkerAfter(w: World, step: Step, id: string)
    requires Enabled(w, step) && !Revives(step, id)
    ensures id in w.q.completed ==> id in Next(w, step).q.completed
  {
  }

  lemma ListedByScripts(q: Queue, p: Job, last: Job, j: Job)
    ensures Listed(Completed(q, p), j) || Listed(Reclaimed(q, p), j) || Listed(Renewed(q, p), j)
         || Listed(DeadLettered(q, p, last), j) || Listed(Promoted(q, p), j)
         || (p in q.live && Listed(Claimed(q, p), j))
         ==> Listed(q, j)
  {
  }

  lemma ListedByAdditions(q: Queue, p: Job, next: Job, j: Job)
    ensures Listed(Retried(q, p, next), j) ==> Listed(q, j) || (p in q.processing && j == next)
    ensures Listed(Recovered(q, p), j) ==> Listed(q, j) || j.id == p.id
    ensures Listed(Added(q, p.id), j) ==> Listed(q, j) || j.id == p.id
  {
  }

  lemma ListedByExpiry(q: Queue, marker: Marker, id: string, j: Job)
    ensures Listed(Expired(q, marker, id), j) ==> Listed(q, j)
  {
  }

  /** Every payload put into a list is of the job a worker works on, an added one, or one that was listed already. */
  lemma ListedAfter(w: World, step: Step, j: Job)
    requires Enabled(w, step) && Listed(Next(w, step).q, j)
    ensures || Listed(w.q, j)
      || Relists(step, j.id)
      || (step.Retry? && w.workers[step.w].payload in w.q.processing && w.workers[step.w].job.id == j.id)
  {
    hide Listed, Claimed, Completed, Reclaimed, Renewed, Retried, DeadLettered, Promoted, Added, Recovered, Expired;
    match step
    case Claim(_, p, _, _) => ListedByScripts(w.q, p, p, j);
    case Complete(k, _) => ListedByScripts(w.q, w.workers[k].payload, j, j);
    case Renew(k) => ListedByScripts(w.q, w.workers[k].payload, j, j);
    case Bury(k, _) => ListedByScripts(w.q, w.workers[k].payload, w.workers[k].job, j);
    case Reclaim(p) => ListedByScripts(w.q, p, p, j);
    case Promote(p) => ListedByScripts(w.q, p, p, j);
    case Add(id) => ListedByAdditions(w.q, Job(id, 0, 0), j, j);
    case Expire(marker, id) => ListedByExpiry(w.q, marker, id, j);
    case Recover(p) => ListedByAdditions(w.q, p, p, j);
    case Retry(k, due, _) =>
      var job := w.workers[k].job;
      ListedByAdditions(w.q, w.workers[k].payload, Job(job.id, job.attempts + 1, due), j);
    case Check(_, _) => SameLists(w.q, j);
    case Process(_, _) => SameLists(w.q, j);
    case Crash(_) =>
  }

  lemma SameLists(q: Queue, j: Job)
    ensures forall ids :: Listed(q.(succeeded := ids), j) <==> Listed(q, j)
  {
  }

  lemma ClaimabilityStays(w: World, id: string, step: Step)
    requires Inv(w) && Enabled(w, step) && !Relists(step, id)
    requires !Claimable(w.q, id)
    ensures !Claimable(Next(w, step).q, id)
  {
    if step.Retry? { WorkIsOfItsJob(w, step.w); }
    hide Inv, Next;
    var q := Next(w, step).q;
    forall j: Job | j.id == id
      ensures !Listed(q, j)
    {
      assert !Listed(w.q, j);
      if Listed(q, j) { ListedAfter(w, step, j); }
    }
  }

  lemma MayNotRunStays(w: World, id: string, step: Step)
    requires Inv(w) && Enabled(w, step) && !Revives(step, id) && !MayRun(w, id)
    ensures !MayRun(Next(w, step), id)
  {
    var v := Next(w, step);
    MarkerAfter(w, step, id);
    if id !in w.q.completed { ClaimabilityStays(w, id, step); }
    if step.Claim? && step.p.id == id { assert Listed(w.q, step.p); }
    forall k | k in w.workers {
      WorkIsOfItsJob(w, k);
    }
    hide Inv, Next, Claimable;
    forall k | k in v.workers && v.workers[k].payload.id == id
      ensures v.workers[k].phase != Running
      ensures id in v.q.completed || v.workers[k].phase != Checking
    {
      WorkersAfter(w, step, k);
      if k in w.workers {
        assert !InPhase(w, k, Running);
        assert id in w.q.completed || !InPhase(w, k, Checking);
      }
    }
  }

  lemma {:induction false} MayNotRunRemains(w: World, id: string, steps: seq<Step>, v: World)
    requires Inv(w) && Unaided(steps, id) && NeverDoubles(w, steps) && Reaches(w, steps, v) && !MayRun(w, id)
    ensures !MayRun(v, id)
    decreases |steps|
  {
    hide Inv, MayRun, Next, Enabled, Doubles;
    if steps != [] {
      MayNotRunStays(w, id, steps[0]);
      StepKeepsInv(w, steps[0]);
      assert forall i :: 0 <= i < |steps[1..]| ==> steps[1..][i] == steps[i + 1];
      MayNotRunRemains(Next(w, steps[0]), id, steps[1..], v);
    }
  }

  // ---- while it may, some run does ----

  lemma Follow(w: World, step: Step, id: string)
    requires Enabled(w, step) && !Revives(step, id) && !step.Add? && CanRun(Next(w, step), id)
    ensures CanRun(w, id)
  {
    hide Next;
    var w1 := Next(w, step);
    var rest, v :| Unaided(rest, id) && NeverDoubles(w1, rest) && Reaches(w1, rest, v) && WorkedOn(v, id, Running);
    var steps := [step] + rest;
    assert steps[1..] == rest;
    assert Unaided(steps, id) && NeverDoubles(w, steps) && Reaches(w, steps, v);
  }

  lemma RunningCan(w: World, id: string)
    requires WorkedOn(w, id, Running)
    ensures CanRun(w, id)
  {
    assert Unaided([], id) && NeverDoubles(w, []) && Reaches(w, [], w);
  }

  lemma CheckingCan(w: World, k: nat, id: string)
    requires InPhase(w, k, Checking) && w.workers[k].payload.id == id == w.workers[k].job.id && id !in w.q.completed
    ensures CanRun(w, id)
  {
    var v := Next(w, Check(k, Done));
    assert InPhase(v, k, Running) && v.workers[k].payload.id == id;
    RunningCan(v, id);
    Follow(w, Check(k, Done), id);
  }

  lemma LiveCan(w: World, p: Job)
    requires p in w.q.live && p.id !in w.q.completed
    ensures CanRun(w, p.id)
  {
    var k := Unused(w.workers.Keys);
    assert k !in w.workers;
    CheckingCan(Next(w, Claim(k, p, true, Done)), k, p.id);
    Follow(w, Claim(k, p, true, Done), p.id);
  }

  lemma ClaimableCan(w: World, id: string)
    requires Claimable(w.q, id) && id !in w.q.completed
    ensures CanRun(w, id)
  {
    hide CanRun;
    var p: Job :| p.id == id && Listed(w.q, p);
    if p in w.q.live {
      LiveCan(w, p);
    } else if p in w.q.processing {
      LiveCan(Next(w, Reclaim(p)), p);
      Follow(w, Reclaim(p), id);
    } else {
      LiveCan(Next(w, Promote(p)), p);
      Follow(w, Promote(p), id);
    }
  }

  /** EXACT. In every world the service can reach, a job's processor can be started, again if it has already
      succeeded, without the job being revived, if and only if a worker is running it now, or the completion marker
      is not set and a worker is checking it or its payload is live, claimed or waiting to be retried. */
  lemma RunsAgainExactlyWhen(before: seq<Step>, w: World, id: string)
    requires Reaches(EMPTY, before, w) && NeverDoubles(EMPTY, before)
    ensures CanRun(w, id) <==> MayRun(w, id)
  {
    assert Inv(EMPTY);
    RunKeepsInv(EMPTY, before, w);
    forall k | k in w.workers {
      WorkIsOfItsJob(w, k);
    }
    hide Inv, Next, Claimable;
    if MayRun(w, id) {
      if WorkedOn(w, id, Running) {
        RunningCan(w, id);
      } else if WorkedOn(w, id, Checking) {
        var k :| InPhase(w, k, Checking) && w.workers[k].payload.id == id;
        CheckingCan(w, k, id);
      } else {
        ClaimableCan(w, id);
      }
    } else if CanRun(w, id) {
      var steps, v :| Unaided(steps, id) && NeverDoubles(w, steps) && Reaches(w, steps, v) && WorkedOn(v, id, Running);
      MayNotRunRemains(w, id, steps, v);
      assert false;
    }
  }

  lemma OneMore(w: World, steps: seq<Step>, v: World, step: Step)
    requires Reaches(w, steps, v) && Enabled(v, step)
    ensures Reaches(w, steps + [step], Next(v, step))
    decreases |steps|
  {
    hide Next, Enabled;
    if steps == [] {
      assert [] + [step] == [step] && [step][1..] == [];
      assert Reaches(Next(v, step), [], Next(v, step));
    } else {
      OneMore(Next(w, steps[0]), steps[1..], v, step);
      assert (steps + [step])[1..] == steps[1..] + [step];
    }
  }

  /** It happens: a job whose processor has succeeded and whose acknowledgment failed can be run again. */
  lemma SucceededJobCanRunAgain(id: string) returns (before: seq<Step>, w: World)
    ensures Reaches(EMPTY, before, w) && id in w.q.succeeded && !WorkedOn(w, id, Running) && CanRun(w, id)
  {
    var p := Job(id, 0, 0);
    var w1 := Next(EMPTY, Add(id));
    var w2 := Next(w1, Claim(0, p, true, Done));
    var w3 := Next(w2, Check(0, Done));
    var w4 := Next(w3, Process(0, true));
    w := Next(w4, Complete(0, FailsBefore));
    assert w.workers == map[0 := Work(p, p, Retrying)] && p in w.q.processing && id in w.q.succeeded;
    assert Listed(w.q, p) && id !in w.q.completed;
    ClaimableCan(w, id);
    assert Reaches(EMPTY, [], EMPTY);
    hide Next, Reaches, CanRun;
    OneMore(EMPTY, [], EMPTY, Add(id));
    OneMore(EMPTY, [] + [Add(id)], w1, Claim(0, p, true, Done));
    OneMore(EMPTY, [] + [Add(id)] + [Claim(0, p, true, Done)], w2, Check(0, Done));
    OneMore(EMPTY, [] + [Add(id)] + [Claim(0, p, true, Done)] + [Check(0, Done)], w3, Process(0, true));
    before := [] + [Add(id)] + [Claim(0, p, true, Done)] + [Check(0, Done)] + [Process(0, true)];
    OneMore(EMPTY, before, w4, Complete(0, FailsBefore));
    before := before + [Complete(0, FailsBefore)];
  }

  /** An operator's recovery works: the job can be run again, from its first attempt, and buried again. */
  lemma RecoveredRunsAgain(before: seq<Step>, w: World, p: Job)
    requires Reaches(EMPTY, before, w) && NeverDoubles(EMPTY, before) && p in w.q.dead
    ensures var v := Next(w, Recover(p));
      CanRun(v, p.id) && Job(p.id, 0, p.due) in v.q.live && p.id !in v.q.deadMarks && p.id !in v.q.completed
  {
    var v := Next(w, Recover(p));
    assert p.(attempts := 0) in v.q.live;
    hide CanRun;
    LiveCan(v, p.(attempts := 0));
  }
}
