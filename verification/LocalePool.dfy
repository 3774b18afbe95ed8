/** The pool that runs the locales: a fixed number of workers draw from one shared counter. */
module LocalePool {

  /** A worker about to draw, on a task, out of tasks, or stopped by a task that threw. */
  datatype Worker = Drawing | On(task: nat) | OutOfTasks | Stopped

  datatype Pool = Pool(next: nat, workers: seq<Worker>, done: set<nat>, failed: set<nat>)

  datatype Step = Draw(w: nat) | Finish(w: nat) | Throw(w: nat)

  function Min(a: nat, b: nat): nat {
    if a < b then a else b
  }

  function Idle(n: nat): (ws: seq<Worker>)
    ensures |ws| == n && forall i :: 0 <= i < n ==> ws[i] == Drawing
  {
    if n == 0 then [] else [Drawing] + Idle(n - 1)
  }

  function Begin(tasks: nat, concurrency: nat): Pool {
    Pool(0, Idle(Min(concurrency, tasks)), {}, {})
  }

  predicate Enabled(p: Pool, step: Step) {
    step.w < |p.workers| && (if step.Draw? then p.workers[step.w].Drawing? else p.workers[step.w].On?)
  }

  function Next(p: Pool, step: Step, tasks: nat): Pool
    requires Enabled(p, step)
  {
    match step
    case Draw(w) =>
      if p.next >= tasks then p.(workers := p.workers[w := OutOfTasks])
      else p.(next := p.next + 1, workers := p.workers[w := On(p.next)])
    case Finish(w) => p.(workers := p.workers[w := Drawing], done := p.done + {p.workers[w].task})
    case Throw(w) => p.(workers := p.workers[w := Stopped], failed := p.failed + {p.workers[w].task})
  }

  predicate IsOn(p: Pool, t: nat) {
    exists w :: 0 <= w < |p.workers| && p.workers[w] == On(t)
  }

  /** Every task drawn so far is done, failed or on one worker, and in only one of these. */
  ghost predicate Inv(p: Pool, tasks: nat, width: nat) {
    && p.next <= tasks && |p.workers| == width
    && (forall w :: 0 <= w < width && p.workers[w].On? ==> p.workers[w].task < p.next)
    && (forall v, w :: 0 <= v < w < width && p.workers[v].On? && p.workers[w].On? ==>
        p.workers[v].task != p.workers[w].task)
    && (forall t: nat :: t < p.next <==> t in p.done || t in p.failed || IsOn(p, t))
    && p.done !! p.failed
    && (forall w :: 0 <= w < width && p.workers[w].On? ==> p.workers[w].task !in p.done + p.failed)
    && (forall w :: 0 <= w < width && p.workers[w].OutOfTasks? ==> p.next == tasks)
  }

  lemma OnAfter(p: Pool, q: Pool, w: nat, t: nat)
    requires w < |p.workers| == |q.workers| && q.workers == p.workers[w := q.workers[w]]
    ensures IsOn(q, t) <==> q.workers[w] == On(t) || exists v :: 0 <= v < |p.workers| && v != w && p.workers[v] == On(t)
  {
    forall v | 0 <= v < |p.workers| && v != w && p.workers[v] == On(t)
      ensures IsOn(q, t)
    {
      assert q.workers[v] == On(t);
    }
  }

  lemma StepKeepsInv(p: Pool, step: Step, tasks: nat, width: nat)
    requires Inv(p, tasks, width) && Enabled(p, step)
    ensures Inv(Next(p, step, tasks), tasks, width)
  {
    var q := Next(p, step, tasks);
    forall t: nat
      ensures t < q.next <==> t in q.done || t in q.failed || IsOn(q, t)
    {
      OnAfter(p, q, step.w, t);
      OnAfter(p, p, step.w, t);
    }
  }

  ghost predicate Reaches(p: Pool, steps: seq<Step>, tasks: nat, q: Pool)
    decreases |steps|
  {
    if steps == [] then q == p else Enabled(p, steps[0]) && Reaches(Next(p, steps[0], tasks), steps[1..], tasks, q)
  }

  lemma {:induction false} RunKeepsInv(p: Pool, steps: seq<Step>, tasks: nat, width: nat, q: Pool)
    requires Inv(p, tasks, width) && Reaches(p, steps, tasks, q)
    ensures Inv(q, tasks, width)
    decreases |steps|
  {
    if steps != [] {
      StepKeepsInv(p, steps[0], tasks, width);
      RunKeepsInv(Next(p, steps[0], tasks), steps[1..], tasks, width, q);
    }
  }

  /** However the tasks interleave: no task is on two workers or runs again, no more run at once than the pool is
      wide, and when the workers rest, every task has run if any worker ran out of tasks; a task that throws costs its
      worker, so only if every worker is stopped may tasks be left. */
  lemma EveryTaskOnce(steps: seq<Step>, tasks: nat, concurrency: nat, q: Pool)
    requires Reaches(Begin(tasks, concurrency), steps, tasks, q)
    ensures |q.workers| <= concurrency && |q.workers| <= tasks && (|q.workers| == concurrency || |q.workers| == tasks)
    ensures forall v, w :: 0 <= v < w < |q.workers| && q.workers[v].On? && q.workers[w].On? ==>
      q.workers[v].task != q.workers[w].task
    ensures forall w :: 0 <= w < |q.workers| && q.workers[w].On? ==> q.workers[w].task !in q.done + q.failed
    ensures (forall w :: 0 <= w < |q.workers| ==> q.workers[w].OutOfTasks? || q.workers[w].Stopped?) ==>
      (forall t: nat :: t < q.next <==> t in q.done + q.failed)
    ensures (exists w :: 0 <= w < |q.workers| && q.workers[w].OutOfTasks?) ==> q.next == tasks
    ensures q.next <= tasks
  {
    var p := Begin(tasks, concurrency);
    assert Inv(p, tasks, |p.workers|);
    RunKeepsInv(p, steps, tasks, |p.workers|, q);
  }

  ghost predicate Unbroken(p: Pool) {
    p.failed == {} && forall w :: 0 <= w < |p.workers| ==> !p.workers[w].Stopped?
  }

  lemma {:induction false} NothingBreaks(p: Pool, steps: seq<Step>, tasks: nat, q: Pool)
    requires Unbroken(p) && Reaches(p, steps, tasks, q) && forall i :: 0 <= i < |steps| ==> !steps[i].Throw?
    ensures Unbroken(q) && |q.workers| == |p.workers|
    decreases |steps|
  {
    if steps != [] {
      assert !steps[0].Throw?;
      assert forall i :: 0 <= i < |steps[1..]| ==> steps[1..][i] == steps[i + 1];
      NothingBreaks(Next(p, steps[0], tasks), steps[1..], tasks, q);
    }
  }

  /** When no task throws and the workers rest, every task is done: the pool has run them all, once each. */
  lemma {:induction false} AllDoneUnlessThrown(steps: seq<Step>, tasks: nat, concurrency: nat, q: Pool)
    requires Reaches(Begin(tasks, concurrency), steps, tasks, q) && concurrency > 0
    requires forall i :: 0 <= i < |steps| ==> !steps[i].Throw?
    requires forall w :: 0 <= w < |q.workers| ==> !q.workers[w].Drawing? && !q.workers[w].On?
    ensures forall t: nat :: t in q.done <==> t < tasks
  {
    NothingBreaks(Begin(tasks, concurrency), steps, tasks, q);
    EveryTaskOnce(steps, tasks, concurrency, q);
    assert q.done + q.failed == q.done;
    if tasks > 0 { assert q.workers[0].OutOfTasks?; }
  }

  ghost predicate StoppedForFailures(p: Pool, stopped: set<int>) {
    |stopped| == |p.failed| && forall w :: w in stopped <==> 0 <= w < |p.workers| && p.workers[w].Stopped?
  }

  lemma StepStopsForFailures(p: Pool, step: Step, tasks: nat, width: nat, stopped: set<int>) returns (now: set<int>)
    requires Inv(p, tasks, width) && Enabled(p, step) && StoppedForFailures(p, stopped)
    ensures StoppedForFailures(Next(p, step, tasks), now)
  {
    now := if step.Throw? then stopped + {step.w} else stopped;
    if step.Throw? {
      assert step.w !in stopped && p.workers[step.w].task !in p.failed;
    }
  }

  lemma {:induction false} RunStopsForFailures(
    p: Pool, steps: seq<Step>, tasks: nat, width: nat, q: Pool, stopped: set<int>) returns (now: set<int>)
    requires Inv(p, tasks, width) && Reaches(p, steps, tasks, q) && StoppedForFailures(p, stopped)
    ensures StoppedForFailures(q, now)
    decreases |steps|
  {
    now := stopped;
    if steps != [] {
      StepKeepsInv(p, steps[0], tasks, width);
      var then0 := StepStopsForFailures(p, steps[0], tasks, width, stopped);
      now := RunStopsForFailures(Next(p, steps[0], tasks), steps[1..], tasks, width, q, then0);
    }
  }

  /** Each failed task costs exactly one worker. */
  lemma {:induction false} FailuresCostWorkers(steps: seq<Step>, tasks: nat, concurrency: nat, q: Pool)
    returns (stopped: set<int>)
    requires Reaches(Begin(tasks, concurrency), steps, tasks, q)
    ensures |stopped| == |q.failed| && forall w :: w in stopped <==> 0 <= w < |q.workers| && q.workers[w].Stopped?
  {
    var p := Begin(tasks, concurrency);
    assert Inv(p, tasks, |p.workers|);
    stopped := RunStopsForFailures(p, steps, tasks, |p.workers|, q, {});
  }
}
