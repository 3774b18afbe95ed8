/** When a job that was added can be acknowledged although its processor has not succeeded since. */
module PaymentAcknowledgments {
  import opened Calls
  import opened Numbers
  import opened PaymentQueue
  import opened PaymentReruns

  /** Added and not acknowledged since. */
  predicate Pending(q: Queue, id: string) {
    id in q.added && id !in q.acknowledged
  }

  /** The processor succeeds for the job, or an operator takes it back from the dead letters. */
  predicate RunsOrRecovers(w: World, step: Step, id: string) {
    || (step.Process? && step.ok && step.w in w.workers && w.workers[step.w].payload.id == id)
    || (step.Recover? && step.p.id == id)
  }

  ghost predicate Unrun(w: World, steps: seq<Step>, id: string)
    decreases |steps|
  {
    steps == []
    || (Enabled(w, steps[0]) && !RunsOrRecovers(w, steps[0], id) && Unrun(Next(w, steps[0]), steps[1..], id))
  }

  /** Some way of going on acknowledges the job, without its processor succeeding and without doubling any job. */
  ghost predicate CanAcknowledgeUnrun(w: World, id: string) {
    exists steps, v :: Unrun(w, steps, id) && NeverDoubles(w, steps) && Reaches(w, steps, v) && id in v.q.acknowledged
  }

  /** The condition, to be read off the lists, the completion marker and the workers. */
  ghost predicate MayPassUnrun(w: World, id: string) {
    Claimable(w.q, id) && (id in w.q.completed || WorkedOn(w, id, Completing))
  }

  // ---- once it may not, it never is ----

  /** Which workers come to complete, and what that does to the completion markers. */
  lemma CompletersAfter(w: World, step: Step, k: nat)
    requires Enabled(w, step) && k in Next(w, step).workers && Next(w, step).workers[k].phase == Completing
    ensures k in w.workers && w.workers[k].payload == Next(w, step).workers[k].payload
    ensures || w.workers[k].phase == Completing
            || (w.workers[k].phase == Checking && w.workers[k].job.id in w.q.completed)
            || (step == Process(k, true))
  {
    hide Claimed, Completed, Reclaimed, Renewed, Retried, DeadLettered, Promoted, Added, Recovered, Expired;
  }

  /** Only a completing worker sets a completion marker or acknowledges, and only what is claimed. */
  lemma CompletionAfter(w: World, step: Step, id: string)
    requires Enabled(w, step)
    ensures id in Next(w, step).q.completed && id !in w.q.completed ==> WorkedOn(w, id, Completing)
    ensures id in Next(w, step).q.acknowledged && id !in w.q.acknowledged ==>
              WorkedOn(w, id, Completing) && Claimable(w.q, id)
  {
    if step.Complete? {
      var p := w.workers[step.w].payload;
      assert InPhase(w, step.w, Completing);
      if p in w.q.processing { assert Listed(w.q, p); }
    }
  }

  lemma AddedStays(w: World, step: Step)
    requires Enabled(w, step)
    ensures w.q.added <= Next(w, step).q.added
  {
  }

  lemma PendingStays(w: World, id: string, step: Step)
    requires Enabled(w, step) && Pending(w.q, id) && !MayPassUnrun(w, id)
    ensures Pending(Next(w, step).q, id)
  {
    CompletionAfter(w, step, id);
    AddedStays(w, step);
  }

  lemma AddingPendingChangesNothing(w: World, id: string)
    requires Pending(w.q, id) && !Doubles(w, Add(id))
    ensures Next(w, Add(id)) == w
  {
  }

  lemma MayNotPassStays(w: World, id: string, step: Step)
    requires Inv(w) && Enabled(w, step) && !Doubles(w, step) && Pending(w.q, id)
    requires !RunsOrRecovers(w, step, id) && !MayPassUnrun(w, id)
    ensures !MayPassUnrun(Next(w, step), id)
  {
    var v := Next(w, step);
    if step == Add(id) {
      AddingPendingChangesNothing(w, id);
    } else if !Claimable(w.q, id) {
      ClaimabilityStays(w, id, step);
    } else {
      CompletionAfter(w, step, id);
      forall k | k in w.workers {
        WorkIsOfItsJob(w, k);
      }
      hide Inv, Next, Claimable;
      forall k | k in v.workers && v.workers[k].payload.id == id
        ensures v.workers[k].phase != Completing
      {
        if k in w.workers { assert !(InPhase(w, k, Completing) && w.workers[k].payload.id == id); }
        if v.workers[k].phase == Completing { CompletersAfter(w, step, k); }
      }
    }
  }

  lemma {:induction false} MayNotPassRemains(w: World, id: string, steps: seq<Step>, v: World)
    requires Inv(w) && Unrun(w, steps, id) && NeverDoubles(w, steps) && Reaches(w, steps, v)
    requires Pending(w.q, id) && !MayPassUnrun(w, id)
    ensures Pending(v.q, id)
    decreases |steps|
  {
    hide Inv, MayPassUnrun, Next, Enabled, Doubles, RunsOrRecovers, Pending;
    if steps != [] {
      MayNotPassStays(w, id, steps[0]);
      PendingStays(w, id, steps[0]);
      StepKeepsInv(w, steps[0]);
      MayNotPassRemains(Next(w, steps[0]), id, steps[1..], v);
    }
  }

  // ---- while it may, some way acknowledges ----

  lemma Precede(w: World, step: Step, id: string)
    requires Enabled(w, step) && !RunsOrRecovers(w, step, id) && !step.Add? && CanAcknowledgeUnrun(Next(w, step), id)
    ensures CanAcknowledgeUnrun(w, id)
  {
    hide Next;
    var w1 := Next(w, step);
    var rest, v :|
      Unrun(w1, rest, id) && NeverDoubles(w1, rest) && Reaches(w1, rest, v) && id in v.q.acknowledged;
    var steps := [step] + rest;
    assert steps[1..] == rest;
    assert Unrun(w, steps, id) && NeverDoubles(w, steps) && Reaches(w, steps, v);
  }

  lemma CompleterPasses(w: World, k: nat, id: string)
    requires InPhase(w, k, Completing) && w.workers[k].payload.id == id && w.workers[k].payload in w.q.processing
    ensures CanAcknowledgeUnrun(w, id)
  {
    var v := Next(w, Complete(k, Done));
    assert id in v.q.acknowledged;
    assert Unrun(v, [], id) && NeverDoubles(v, []) && Reaches(v, [], v);
    assert CanAcknowledgeUnrun(v, id);
    Precede(w, Complete(k, Done), id);
  }

  lemma LivePasses(w: World, p: Job)
    requires p in w.q.live && p.id in w.q.completed
    ensures CanAcknowledgeUnrun(w, p.id)
  {
    var k := Unused(w.workers.Keys);
    assert k !in w.workers;
    var w1 := Next(w, Claim(k, p, true, Done));
    var w2 := Next(w1, Check(k, Done));
    assert InPhase(w2, k, Completing) && w2.workers[k].payload == p && p in w2.q.processing;
    hide CanAcknowledgeUnrun, Next;
    CompleterPasses(w2, k, p.id);
    Precede(w1, Check(k, Done), p.id);
    Precede(w, Claim(k, p, true, Done), p.id);
  }

  lemma ListedPasses(w: World, p: Job)
    requires Listed(w.q, p) && p.id in w.q.completed
    ensures CanAcknowledgeUnrun(w, p.id)
  {
    hide CanAcknowledgeUnrun;
    if p in w.q.live {
      LivePasses(w, p);
    } else if p in w.q.processing {
      LivePasses(Next(w, Reclaim(p)), p);
      Precede(w, Reclaim(p), p.id);
    } else {
      LivePasses(Next(w, Promote(p)), p);
      Precede(w, Promote(p), p.id);
    }
  }

  lemma ClaimablePasses(w: World, id: string)
    requires MayPassUnrun(w, id)
    ensures CanAcknowledgeUnrun(w, id)
  {
    hide CanAcknowledgeUnrun;
    var p: Job :| p.id == id && Listed(w.q, p);
    if id in w.q.completed {
      ListedPasses(w, p);
    } else {
      var k :| InPhase(w, k, Completing) && w.workers[k].payload.id == id;
      if w.workers[k].payload in w.q.processing {
        CompleterPasses(w, k, id);
      } else {
        var v := Next(w, Complete(k, Done));
        assert id in v.q.completed && Listed(v.q, p);
        ListedPasses(v, p);
        Precede(w, Complete(k, Done), id);
      }
    }
  }

  /** EXACT. In every world the service can reach, a job that was added and not acknowledged since can be
      acknowledged with no success of its processor from then on, if and only if its payload is not among the dead,
      and its completion marker stands or a worker is already completing it. */
  lemma AcknowledgedUnrunExactlyWhen(before: seq<Step>, w: World, id: string)
    requires Reaches(EMPTY, before, w) && NeverDoubles(EMPTY, before) && Pending(w.q, id)
    ensures CanAcknowledgeUnrun(w, id) <==> MayPassUnrun(w, id)
  {
    assert Inv(EMPTY);
    RunKeepsInv(EMPTY, before, w);
    hide Inv, MayPassUnrun, Next;
    if MayPassUnrun(w, id) {
      ClaimablePasses(w, id);
    } else if CanAcknowledgeUnrun(w, id) {
      var steps, v :|
        Unrun(w, steps, id) && NeverDoubles(w, steps) && Reaches(w, steps, v) && id in v.q.acknowledged;
      MayNotPassRemains(w, id, steps, v);
      assert false;
    }
  }

  /** EXACT. A job added anew, its enqueue marker having expired, can be acknowledged without being run in this life
      if and only if the completion marker of an earlier life still stands or a worker is still completing that. */
  lemma NewLifeUnrunExactlyWhen(before: seq<Step>, w: World, id: string)
    requires Reaches(EMPTY, before, w) && NeverDoubles(EMPTY, before)
    requires id !in w.q.enqueued && !Doubles(w, Add(id))
    ensures CanAcknowledgeUnrun(Next(w, Add(id)), id) <==> id in w.q.completed || WorkedOn(w, id, Completing)
  {
    var v := Next(w, Add(id));
    OneMore(EMPTY, before, w, Add(id));
    OneMoreNeverDoubles(EMPTY, before, w, Add(id));
    AcknowledgedUnrunExactlyWhen(before + [Add(id)], v, id);
    assert Listed(v.q, Job(id, 0, 0));
    assert forall k :: InPhase(v, k, Completing) == InPhase(w, k, Completing);
  }

  lemma {:induction false} OneMoreNeverDoubles(w: World, steps: seq<Step>, v: World, step: Step)
    requires NeverDoubles(w, steps) && Reaches(w, steps, v) && Enabled(v, step) && !Doubles(v, step)
    ensures NeverDoubles(w, steps + [step])
    decreases |steps|
  {
    hide Next, Enabled, Doubles;
    if steps == [] {
      assert [] + [step] == [step] && [step][1..] == [];
      assert NeverDoubles(Next(v, step), []);
    } else {
      OneMoreNeverDoubles(Next(w, steps[0]), steps[1..], v, step);
      assert (steps + [step])[1..] == steps[1..] + [step];
    }
  }

  /** It happens: the completion marker, set when the job was acknowledged, outlives the enqueue marker, set when it
      was added; the job is then added anew and can be acknowledged without being run. */
  lemma MarkerOutlivesEnqueueing(id: string) returns (before: seq<Step>, w: World)
    ensures Reaches(EMPTY, before, w) && NeverDoubles(EMPTY, before)
    ensures id !in w.q.enqueued && id in w.q.acknowledged && CanAcknowledgeUnrun(Next(w, Add(id)), id)
  {
    var p := Job(id, 0, 0);
    var w1 := Next(EMPTY, Add(id));
    var w2 := Next(w1, Claim(0, p, true, Done));
    var w3 := Next(w2, Check(0, Done));
    var w4 := Next(w3, Process(0, true));
    var w5 := Next(w4, Complete(0, Done));
    w := Next(w5, Expire(EnqueueMarker, id));
    assert id in w.q.completed && id in w.q.acknowledged && id !in w.q.enqueued;
    assert Reaches(EMPTY, [], EMPTY) && NeverDoubles(EMPTY, []);
    hide Next, Reaches, NeverDoubles, CanAcknowledgeUnrun;
    before := [];
    Grow(before, EMPTY, Add(id));
    before := before + [Add(id)];
    Grow(before, w1, Claim(0, p, true, Done));
    before := before + [Claim(0, p, true, Done)];
    Grow(before, w2, Check(0, Done));
    before := before + [Check(0, Done)];
    Grow(before, w3, Process(0, true));
    before := before + [Process(0, true)];
    Grow(before, w4, Complete(0, Done));
    before := before + [Complete(0, Done)];
    Grow(before, w5, Expire(EnqueueMarker, id));
    before := before + [Expire(EnqueueMarker, id)];
    NewLifeUnrunExactlyWhen(before, w, id);
  }

  lemma Grow(before: seq<Step>, w: World, step: Step)
    requires Reaches(EMPTY, before, w) && NeverDoubles(EMPTY, before) && Enabled(w, step) && !Doubles(w, step)
    ensures Reaches(EMPTY, before + [step], Next(w, step)) && NeverDoubles(EMPTY, before + [step])
  {
    OneMore(EMPTY, before, w, step);
    OneMoreNeverDoubles(EMPTY, before, w, step);
  }
}
