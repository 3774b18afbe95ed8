/** One worker process: what becomes of a claimed job when calls fail, and how many jobs its polls let run. */
module PaymentWorker {
  import opened Calls
  import opened PaymentQueue

  // ---- processing one claimed job ----

  datatype Outcome = Acknowledged | Requeued(next: Job) | Buried(last: Job) | StillClaimed

  /** What the queue and the processor do with the calls of one job. */
  datatype JobCalls = JobCalls(known: bool, check: Fate, processed: bool, complete: Fate, retry: Fate, bury: Fate,
      due: int)

  /** The queue after each outcome. */
  function After(q: Queue, p: Job, outcome: Outcome): Queue {
    match outcome
    case Acknowledged => Completed(q, p)
    case Requeued(next) => Retried(q, p, next)
    case Buried(last) => DeadLettered(q, p, last)
    case StillClaimed => q
  }

  /** What the payload has become when it is given up: one attempt more, unless the budget was spent. */
  function Counted(p: Job, due: int): Job {
    if p.attempts >= MAX_RETRIES then p else Job(p.id, p.attempts + 1, due)
  }

  /** What becomes of a job that is not acknowledged. */
  function GivenUp(p: Job, c: JobCalls): Outcome {
    if p.attempts < MAX_RETRIES && c.retry != FailsBefore then Requeued(Counted(p, c.due))
    else if c.bury == FailsBefore then StillClaimed
    else Buried(Counted(p, c.due))
  }

  /** What the calls of one job lead to. A call that takes effect counts, whether or not its reply arrives. */
  function OutcomeOf(p: Job, c: JobCalls, completed: bool): Outcome {
    if !c.known then (if c.bury == FailsBefore then StillClaimed else Buried(p))
    else if c.check == Done && (completed || c.processed) && c.complete != FailsBefore then Acknowledged
    else GivenUp(p, c)
  }

  /** Once the claim is gone from the processing list, retrying and burying it change nothing. */
  lemma GoneClaimStays(q: Queue, p: Job, next: Job)
    requires p !in q.processing
    ensures Retried(q, p, next) == q && DeadLettered(q, p, next) == q
  {
  }

  lemma ClaimGoes(q: Queue, p: Job, next: Job)
    requires q.processing[p] == 1
    ensures p !in Completed(q, p).processing && p !in Retried(q, p, next).processing
  {
    assert (q.processing - multiset{p})[p] == 0;
  }

  /** The queue after the catch block's calls, one after the other. */
  function LeftBy(q: Queue, p: Job, c: JobCalls): Queue {
    var tried :=
      if p.attempts >= MAX_RETRIES || c.retry == FailsBefore then q else Retried(q, p, Counted(p, c.due));
    if (p.attempts < MAX_RETRIES && c.retry == Done) || c.bury == FailsBefore then tried
    else DeadLettered(tried, p, Counted(p, c.due))
  }

  lemma CatchLeads(q: Queue, p: Job, c: JobCalls)
    requires q.processing[p] <= 1
    ensures p in q.processing ==> LeftBy(q, p, c) == After(q, p, GivenUp(p, c))
    ensures p !in q.processing ==> LeftBy(q, p, c) == q
  {
    var counted := Counted(p, c.due);
    if p in q.processing {
      ClaimGoes(q, p, counted);
      GoneClaimStays(Retried(q, p, counted), p, counted);
    } else {
      GoneClaimStays(q, p, counted);
    }
    hide Counted, Retried, DeadLettered, Completed;
  }

  // ---- the same calls as steps of the machine ----

  /** The machine's step for the call a worker makes in each phase. */
  function StepOf(phase: Phase, k: nat, c: JobCalls): Step {
    match phase
    case Checking => Check(k, c.check)
    case Running => Process(k, c.processed)
    case Completing => Complete(k, c.complete)
    case Retrying => Retry(k, c.due, c.retry)
    case Burying => Bury(k, c.bury)
  }

  function CallsLeft(w: World, k: nat): nat {
    if k !in w.workers then 0
    else match w.workers[k].phase
      case Checking => 5
      case Running => 4
      case Completing => 3
      case Retrying => 2
      case Burying => 1
  }

  /** Worker `k` makes its calls, one machine step after the other, until it is done with its job. */
  function Driven(w: World, k: nat, c: JobCalls): World
    decreases CallsLeft(w, k)
  {
    if k !in w.workers then w else Driven(Next(w, StepOf(w.workers[k].phase, k, c)), k, c)
  }

  /** A worker that has claimed the job, and nobody else. */
  function ClaimedWorld(q: Queue, p: Job, c: JobCalls): World {
    World(q, map[0 := Work(p, p, if c.known then Checking else Burying)])
  }

  /** What driving does is a run of the machine. */
  lemma {:induction false} DrivenIsReached(w: World, k: nat, c: JobCalls) returns (steps: seq<Step>)
    ensures Reaches(w, steps, Driven(w, k, c)) && NeverDoubles(w, steps)
    decreases CallsLeft(w, k)
  {
    steps := [];
    if k in w.workers {
      var step := StepOf(w.workers[k].phase, k, c);
      var rest := DrivenIsReached(Next(w, step), k, c);
      steps := [step] + rest;
      assert steps[1..] == rest;
    }
  }

  lemma DrivenOnce(w: World, k: nat, c: JobCalls)
    requires k in w.workers
    ensures Driven(w, k, c) == Driven(Next(w, StepOf(w.workers[k].phase, k, c)), k, c)
  {
  }

  /** From a failed completion or a failed processor, or for an unknown queue. */
  lemma DrivenGivesUp(q: Queue, p: Job, c: JobCalls)
    ensures Driven(World(q, map[0 := Work(p, p, Retrying)]), 0, c) == World(LeftBy(q, p, c), map[])
  {
    hide Driven, Retried, DeadLettered;
    var w := World(q, map[0 := Work(p, p, Retrying)]);
    DrivenOnce(w, 0, c);
    var w1 := Next(w, Retry(0, c.due, c.retry));
    if 0 in w1.workers {
      DrivenOnce(w1, 0, c);
      var w2 := Next(w1, Bury(0, c.bury));
      assert w2.workers == map[];
      DrivenEnds(w2, c);
    } else {
      assert w1.workers == map[];
      DrivenEnds(w1, c);
    }
  }

  lemma DrivenEnds(w: World, c: JobCalls)
    requires 0 !in w.workers
    ensures Driven(w, 0, c) == w
  {
  }

  /** Is the job acknowledged? Only if the processor succeeded, now or before, as far as the worker could tell. */
  predicate Acknowledges(q: Queue, p: Job, c: JobCalls) {
    c.known && c.check == Done && (p.id in q.completed || c.processed) && c.complete != FailsBefore
  }

  /** Is it put back to be retried? */
  predicate Requeues(q: Queue, p: Job, c: JobCalls) {
    c.known && !Acknowledges(q, p, c) && p.attempts < MAX_RETRIES && c.retry != FailsBefore
  }

  /** Is it buried? */
  predicate Buries(q: Queue, p: Job, c: JobCalls) {
    !Acknowledges(q, p, c) && !Requeues(q, p, c) && c.bury != FailsBefore
  }

  lemma LeftBySucceeded(q: Queue, p: Job, c: JobCalls, ids: set<string>)
    ensures LeftBy(q.(succeeded := ids), p, c) == LeftBy(q, p, c).(succeeded := ids)
  {
  }

  lemma DrivenCompletes(q: Queue, p: Job, c: JobCalls)
    requires q.processing[p] == 1
    ensures Driven(World(q, map[0 := Work(p, p, Completing)]), 0, c)
         == World(if c.complete == FailsBefore then LeftBy(q, p, c) else Completed(q, p), map[])
  {
    var w := World(q, map[0 := Work(p, p, Completing)]);
    ClaimGoes(q, p, p);
    DrivenOnce(w, 0, c);
    var w1 := Next(w, Complete(0, c.complete));
    hide Driven, Completed, LeftBy, After;
    if c.complete == Done {
      assert w1 == World(Completed(q, p), map[]);
      DrivenEnds(w1, c);
    } else {
      var left := if c.complete == FailsBefore then q else Completed(q, p);
      assert w1 == World(left, map[0 := Work(p, p, Retrying)]);
      hide Next;
      DrivenGivesUp(left, p, c);
      CatchLeads(left, p, c);
    }
  }

  lemma DrivenRuns(q: Queue, p: Job, c: JobCalls)
    requires q.processing[p] == 1
    ensures var v := Driven(World(q, map[0 := Work(p, p, Running)]), 0, c);
      && v.workers == map[]
      && v.q.(succeeded := q.succeeded)
         == if c.processed && c.complete != FailsBefore then Completed(q, p) else LeftBy(q, p, c)
  {
    var w := World(q, map[0 := Work(p, p, Running)]);
    DrivenOnce(w, 0, c);
    if c.processed {
      var more := q.(succeeded := q.succeeded + {p.id});
      assert Next(w, Process(0, true)) == World(more, map[0 := Work(p, p, Completing)]);
      assert Completed(more, p).(succeeded := q.succeeded) == Completed(q, p);
      LeftBySucceeded(q, p, c, more.succeeded);
      hide Driven, Completed, LeftBy, Next;
      DrivenCompletes(more, p, c);
    } else {
      assert Next(w, Process(0, false)) == World(q, map[0 := Work(p, p, Retrying)]);
      hide Driven, Completed, Next;
      DrivenGivesUp(q, p, c);
      assert LeftBy(q, p, c).succeeded == q.succeeded;
    }
  }

  lemma DrivenChecks(q: Queue, p: Job, c: JobCalls)
    requires q.processing[p] == 1
    ensures var v := Driven(World(q, map[0 := Work(p, p, Checking)]), 0, c);
      && v.workers == map[]
      && v.q.(succeeded := q.succeeded)
         == if c.check == Done && (p.id in q.completed || c.processed) && c.complete != FailsBefore
            then Completed(q, p) else LeftBy(q, p, c)
  {
    var w := World(q, map[0 := Work(p, p, Checking)]);
    DrivenOnce(w, 0, c);
    assert LeftBy(q, p, c).succeeded == q.succeeded;
    var next := if c.check != Done then Retrying else if p.id in q.completed then Completing else Running;
    assert Next(w, Check(0, c.check)) == World(q, map[0 := Work(p, p, next)]);
    hide Driven, LeftBy, Next;
    match next {
      case Retrying => DrivenGivesUp(q, p, c);
      case Completing => DrivenCompletes(q, p, c);
      case Running => DrivenRuns(q, p, c);
    }
  }

  lemma DrivenBuries(q: Queue, p: Job, c: JobCalls)
    ensures Driven(World(q, map[0 := Work(p, p, Burying)]), 0, c)
         == World(if c.bury == FailsBefore then q else DeadLettered(q, p, p), map[])
  {
    var w := World(q, map[0 := Work(p, p, Burying)]);
    DrivenOnce(w, 0, c);
    var v := Next(w, Bury(0, c.bury));
    assert v.workers == map[];
    DrivenEnds(v, c);
    hide Driven;
  }

  /** The worker's steps lead where the outcome says, apart from the record of what has succeeded. */
  lemma DrivenIsOutcome(q: Queue, p: Job, c: JobCalls)
    requires q.processing[p] == 1
    ensures var v := Driven(ClaimedWorld(q, p, c), 0, c);
      v.workers == map[] && v.q.(succeeded := q.succeeded) == After(q, p, OutcomeOf(p, c, p.id in q.completed))
  {
    CatchLeads(q, p, c);
    hide Driven, LeftBy, Completed, Retried;
    if c.known {
      hide DeadLettered;
      DrivenChecks(q, p, c);
    } else {
      DrivenBuries(q, p, c);
      assert DeadLettered(q, p, p).succeeded == q.succeeded;
    }
  }

  class Store {
    var q: Queue

    constructor (q: Queue)
      ensures this.q == q
    {
      this.q := q;
    }

    /** completeJob; false is an exception. */
    method CompleteJob(p: Job, fate: Fate) returns (ok: bool)
      modifies this
      ensures ok <==> fate == Done
      ensures q == if fate == FailsBefore then old(q) else Completed(old(q), p)
    {
      if fate != FailsBefore {
        q := Completed(q, p);
      }
      ok := fate == Done;
    }

    /** retryJob: counts the attempt even when the call fails. */
    method RetryJob(p: Job, due: int, fate: Fate) returns (requeued: bool, job: Job)
      modifies this
      ensures p.attempts >= MAX_RETRIES ==> !requeued && job == p && q == old(q)
      ensures p.attempts < MAX_RETRIES ==>
        && job == Job(p.id, p.attempts + 1, due) && requeued == (fate == Done)
        && q == if fate == FailsBefore then old(q) else Retried(old(q), p, job)
    {
      if p.attempts >= MAX_RETRIES {
        return false, p;
      }
      job := Job(p.id, p.attempts + 1, due);
      if fate != FailsBefore {
        q := Retried(q, p, job);
      }
      requeued := fate == Done;
    }

    /** deadLetterJob; its failures are logged and leave the claim to be recovered. */
    method DeadLetterJob(p: Job, job: Job, fate: Fate)
      modifies this
      ensures q == if fate == FailsBefore then old(q) else DeadLettered(old(q), p, job)
    {
      if fate != FailsBefore {
        q := DeadLettered(q, p, job);
      }
    }

    /** The catch block: retry, and bury what is not requeued. */
    method GiveUp(p: Job, c: JobCalls)
      requires q.processing[p] <= 1
      modifies this
      ensures p in old(q).processing ==> q == After(old(q), p, GivenUp(p, c))
      ensures p !in old(q).processing ==> q == old(q)
    {
      CatchLeads(q, p, c);
      hide Completed, Retried, DeadLettered, After, GivenUp;
      var requeued, job := RetryJob(p, c.due, c.retry);
      if !requeued {
        DeadLetterJob(p, job, c.bury);
      }
    }

    /** processJob, for a claim nobody else takes over meanwhile: whatever fails, exactly the outcome the calls
        lead to. */
    method ProcessJob(p: Job, c: JobCalls)
      requires QueueInv(q) && p in q.processing
      modifies this
      ensures q == After(old(q), p, OutcomeOf(p, c, p.id in old(q).completed))
      ensures q == Driven(ClaimedWorld(old(q), p, c), 0, c).q.(succeeded := old(q).succeeded)
      ensures p.id in q.acknowledged <==> Acknowledges(old(q), p, c)
      ensures (exists j :: j in q.delayed && j.id == p.id) <==> Requeues(old(q), p, c)
      ensures (exists j :: j in q.dead && j.id == p.id) <==> Buries(old(q), p, c)
      ensures p in q.processing <==>
        !Acknowledges(old(q), p, c) && !Requeues(old(q), p, c) && !Buries(old(q), p, c)
    {
      ClaimIsOnlyPlace(q, p);
      DrivenIsOutcome(q, p, c);
      OutcomesExclude(q, p, c);
      ClaimGoes(q, p, p);
      hide QueueInv, Completed, Retried, DeadLettered;
      if !c.known {
        DeadLetterJob(p, p, c.bury);
        return;
      }
      if c.check == Done && (p.id in q.completed || c.processed) {
        var ok := CompleteJob(p, c.complete);
        if ok {
          return;
        }
      }
      GiveUp(p, c);
    }
  }

  lemma ClaimIsOnlyPlace(q: Queue, p: Job)
    requires QueueInv(q) && p in q.processing
    ensures q.processing[p] == 1 && p.id !in q.deadMarks
  {
    SingleOf(q);
    OnePlace(q, p);
    assert p.id in q.deadMarks ==> Holds(q.dead, p.id);
  }

  /** Which of the four ways a claim has gone: still claimed, acknowledged, waiting to be retried, dead. */
  function Ways(after: Queue, p: Job): seq<bool> {
    [p in after.processing,
     p.id in after.acknowledged,
     exists j :: j in after.delayed && j.id == p.id,
     exists j :: j in after.dead && j.id == p.id]
  }

  lemma ClaimedOnly(q: Queue, p: Job)
    requires QueueInv(q) && p in q.processing
    ensures q.processing[p] == 1 && p.id !in q.acknowledged && p.id !in q.deadMarks
    ensures forall j: Job :: j.id == p.id ==> j !in q.delayed && j !in q.dead
  {
    ClaimIsOnlyPlace(q, p);
    OnePlace(q, p);
    assert p in Tokens(q);
    assert Holds(Tokens(q), p.id);
  }

  lemma OutcomeWay(q: Queue, p: Job, outcome: Outcome)
    requires q.processing[p] == 1 && p.id !in q.acknowledged && p.id !in q.deadMarks
    requires forall j: Job :: j.id == p.id ==> j !in q.delayed && j !in q.dead
    requires outcome.Requeued? ==> outcome.next.id == p.id
    requires outcome.Buried? ==> outcome.last.id == p.id
    ensures Ways(After(q, p, outcome), p)
         == [outcome.StillClaimed?, outcome.Acknowledged?, outcome.Requeued?, outcome.Buried?]
  {
    var after := After(q, p, outcome);
    assert (q.processing - multiset{p})[p] == 0;
    match outcome
    case Acknowledged =>
    case Requeued(next) => assert next in after.delayed && after.dead == q.dead;
    case Buried(last) => assert last in after.dead && after.delayed == q.delayed;
    case StillClaimed =>
  }

  lemma OutcomePayload(q: Queue, p: Job, outcome: Outcome)
    requires q.processing[p] == 1 && p.id !in q.deadMarks
    ensures outcome.Requeued? ==> outcome.next in After(q, p, outcome).delayed
    ensures outcome.Buried? ==> outcome.last in After(q, p, outcome).dead
  {
  }

  lemma OutcomeByCalls(q: Queue, p: Job, c: JobCalls)
    ensures var outcome := OutcomeOf(p, c, p.id in q.completed);
      && outcome.Acknowledged? == Acknowledges(q, p, c)
      && outcome.Requeued? == Requeues(q, p, c)
      && outcome.Buried? == Buries(q, p, c)
      && (outcome.Requeued? ==> outcome.next == Job(p.id, p.attempts + 1, c.due) && p.attempts + 1 <= MAX_RETRIES)
      && (outcome.Buried? ==>
            outcome.last == if c.known && p.attempts < MAX_RETRIES then Job(p.id, p.attempts + 1, c.due) else p)
  {
  }

  /** EXACTLY ONE, BY THE CALLS. Whatever fails, the claim that a worker's steps leave is acknowledged, or waiting with
      one attempt more, or among the dead with the attempts it was given, or still claimed: which one is decided by
      the calls, and it is never two of these. */
  lemma OutcomesExclude(q: Queue, p: Job, c: JobCalls)
    requires QueueInv(q) && p in q.processing
    ensures var after := Driven(ClaimedWorld(q, p, c), 0, c).q;
      && Ways(after, p) == [
           !Acknowledges(q, p, c) && !Requeues(q, p, c) && !Buries(q, p, c),
           Acknowledges(q, p, c), Requeues(q, p, c), Buries(q, p, c)]
      && (Requeues(q, p, c) ==> Job(p.id, p.attempts + 1, c.due) in after.delayed && p.attempts + 1 <= MAX_RETRIES)
      && (Buries(q, p, c) ==>
            (if c.known && p.attempts < MAX_RETRIES then Job(p.id, p.attempts + 1, c.due) else p) in after.dead)
  {
    var outcome := OutcomeOf(p, c, p.id in q.completed);
    var after := Driven(ClaimedWorld(q, p, c), 0, c).q;
    SameWays(after, p, q.succeeded);
    hide QueueInv, After, Ways, Driven, ClaimedWorld, OutcomeOf, Acknowledges, Requeues, Buries;
    ClaimedOnly(q, p);
    DrivenIsOutcome(q, p, c);
    OutcomeByCalls(q, p, c);
    OutcomeWay(q, p, outcome);
    OutcomePayload(q, p, outcome);
  }

  lemma SameWays(q: Queue, p: Job, ids: set<string>)
    ensures Ways(q.(succeeded := ids), p) == Ways(q, p)
  {
  }

  // ---- how many jobs run ----

  /** One queue of the worker: the counter of active jobs, the jobs really running, and the polls that have passed
      the limit check and not yet claimed. */
  datatype Polls = Polls(active: int, running: nat, polling: nat, stopping: bool)

  datatype PollStep = BeginPoll | PollFindsJob | PollFindsNothing | JobEnds | StopPolling

  predicate Possible(s: Polls, step: PollStep) {
    match step
    case BeginPoll => true
    case PollFindsJob => s.polling > 0
    case PollFindsNothing => s.polling > 0
    case JobEnds => s.running > 0
    case StopPolling => true
  }

  function Poll(s: Polls, step: PollStep, limit: nat): Polls
    requires Possible(s, step)
  {
    match step
    case BeginPoll => if s.stopping || s.active >= limit then s else s.(polling := s.polling + 1)
    case PollFindsJob => s.(polling := s.polling - 1, active := s.active + 1, running := s.running + 1)
    case PollFindsNothing => s.(polling := s.polling - 1)
    case JobEnds => s.(active := s.active - 1, running := s.running - 1)
    case StopPolling => s.(stopping := true)
  }

  /** A run in which no more than `overlap` polls of the queue are ever under way together. */
  ghost predicate PollRun(s: Polls, steps: seq<PollStep>, limit: nat, overlap: nat, t: Polls)
    decreases |steps|
  {
    s.polling <= overlap &&
    if steps == [] then t == s
    else Possible(s, steps[0]) && PollRun(Poll(s, steps[0], limit), steps[1..], limit, overlap, t)
  }

  const NO_POLLS := Polls(0, 0, 0, false)

  lemma {:induction false} PollRunBound(s: Polls, steps: seq<PollStep>, limit: nat, overlap: nat, t: Polls)
    requires limit > 0 && s.active == s.running && s.running + s.polling <= limit - 1 + overlap
    requires PollRun(s, steps, limit, overlap, t)
    ensures t.active == t.running && t.running + t.polling <= limit - 1 + overlap
    decreases |steps|
  {
    if steps != [] {
      assert Poll(s, steps[0], limit).polling <= overlap;
      PollRunBound(Poll(s, steps[0], limit), steps[1..], limit, overlap, t);
    }
  }

  /** The counter is the number of running jobs, and overlapping polls raise the bound by one each beyond the first;
      polls that do not overlap keep the limit. */
  lemma RunningJobsAreBounded(steps: seq<PollStep>, limit: nat, overlap: nat, t: Polls)
    requires limit > 0 && overlap > 0 && PollRun(NO_POLLS, steps, limit, overlap, t)
    ensures t.active == t.running <= limit - 1 + overlap
    ensures overlap == 1 ==> t.running <= limit
  {
    PollRunBound(NO_POLLS, steps, limit, overlap, t);
  }

  function Times(step: PollStep, n: nat): seq<PollStep> {
    if n == 0 then [] else [step] + Times(step, n - 1)
  }

  lemma {:induction false} ClaimsReach(s: Polls, n: nat, limit: nat, overlap: nat)
    requires n <= s.polling <= overlap
    ensures PollRun(s, Times(PollFindsJob, n), limit, overlap,
                    s.(polling := s.polling - n, active := s.active + n, running := s.running + n))
    decreases n
  {
    if n > 0 {
      assert Times(PollFindsJob, n)[1..] == Times(PollFindsJob, n - 1);
      ClaimsReach(Poll(s, PollFindsJob, limit), n - 1, limit, overlap);
    }
  }

  lemma {:induction false} PollsReach(s: Polls, n: nat, limit: nat, overlap: nat, rest: seq<PollStep>, t: Polls)
    requires !s.stopping && s.active < limit && s.polling + n <= overlap
    requires PollRun(s.(polling := s.polling + n), rest, limit, overlap, t)
    ensures PollRun(s, Times(BeginPoll, n) + rest, limit, overlap, t)
    decreases n
  {
    if n == 0 {
      assert Times(BeginPoll, 0) + rest == rest;
    } else {
      assert (Times(BeginPoll, n) + rest)[1..] == Times(BeginPoll, n - 1) + rest;
      PollsReach(Poll(s, BeginPoll, limit), n - 1, limit, overlap, rest, t);
    }
  }

  function OneByOne(n: nat): seq<PollStep> {
    if n == 0 then [] else [BeginPoll, PollFindsJob] + OneByOne(n - 1)
  }

  lemma {:induction false} JobsPileUp(s: Polls, n: nat, limit: nat, overlap: nat, rest: seq<PollStep>, t: Polls)
    requires !s.stopping && s.polling == 0 && s.active + n <= limit && overlap > 0
    requires PollRun(s.(active := s.active + n, running := s.running + n), rest, limit, overlap, t)
    ensures PollRun(s, OneByOne(n) + rest, limit, overlap, t)
    decreases n
  {
    if n == 0 {
      assert OneByOne(0) + rest == rest;
    } else {
      var all := OneByOne(n) + rest;
      assert all[1..][1..] == OneByOne(n - 1) + rest;
      JobsPileUp(s.(active := s.active + 1, running := s.running + 1), n - 1, limit, overlap, rest, t);
      var s1 := Poll(s, all[0], limit);
      var s2 := Poll(s1, all[1..][0], limit);
      assert s2 == s.(active := s.active + 1, running := s.running + 1);
      assert PollRun(s1, all[1..], limit, overlap, t);
    }
  }

  /** The bound is exact: with one job short of the limit running, that many polls at once all get through. */
  lemma OverlappingPollsReachTheBound(limit: nat, overlap: nat) returns (steps: seq<PollStep>)
    requires limit > 0 && overlap > 0
    ensures PollRun(NO_POLLS, steps, limit, overlap, Polls(limit - 1 + overlap, limit - 1 + overlap, 0, false))
  {
    var full := Polls(limit - 1, limit - 1, 0, false);
    var most := Polls(limit - 1 + overlap, limit - 1 + overlap, 0, false);
    ClaimsReach(full.(polling := overlap), overlap, limit, overlap);
    PollsReach(full, overlap, limit, overlap, Times(PollFindsJob, overlap), most);
    JobsPileUp(NO_POLLS, limit - 1, limit, overlap, Times(BeginPoll, overlap) + Times(PollFindsJob, overlap), most);
    steps := OneByOne(limit - 1) + (Times(BeginPoll, overlap) + Times(PollFindsJob, overlap));
  }

  function Drain(s: Polls): seq<PollStep> {
    Times(PollFindsNothing, s.polling) + Times(JobEnds, s.running)
  }

  lemma {:induction false} JobsEnd(s: Polls, limit: nat, overlap: nat)
    requires s.polling == 0 && s.active == s.running
    ensures PollRun(s, Times(JobEnds, s.running), limit, overlap, s.(active := 0, running := 0))
    decreases s.running
  {
    if s.running > 0 {
      assert Times(JobEnds, s.running)[1..] == Times(JobEnds, s.running - 1);
      JobsEnd(Poll(s, JobEnds, limit), limit, overlap);
    }
  }

  lemma {:induction false} PollsEnd(s: Polls, limit: nat, overlap: nat)
    requires s.polling <= overlap && s.active == s.running
    ensures PollRun(s, Drain(s), limit, overlap, s.(active := 0, running := 0, polling := 0))
    decreases s.polling
  {
    if s.polling == 0 {
      assert Drain(s) == Times(JobEnds, s.running);
      JobsEnd(s, limit, overlap);
    } else {
      var t := Poll(s, PollFindsNothing, limit);
      assert Drain(s)[1..] == Drain(t);
      PollsEnd(t, limit, overlap);
    }
  }

  /** Stopping drains: afterwards no poll begins, whatever runs or is polled can come to its end, and until then no
      more jobs run than ran or were being polled for. */
  lemma {:induction false} StoppedNeverGrows(s: Polls, steps: seq<PollStep>, limit: nat, overlap: nat, t: Polls)
    requires s.stopping && PollRun(s, steps, limit, overlap, t)
    ensures t.stopping && t.running + t.polling <= s.running + s.polling && t.polling <= s.polling
    decreases |steps|
  {
    if steps != [] {
      StoppedNeverGrows(Poll(s, steps[0], limit), steps[1..], limit, overlap, t);
    }
  }

  lemma StoppingDrains(before: seq<PollStep>, limit: nat, overlap: nat, s: Polls) returns (steps: seq<PollStep>)
    requires limit > 0 && overlap > 0 && PollRun(NO_POLLS, before, limit, overlap, s)
    ensures PollRun(s, steps, limit, overlap, Polls(0, 0, 0, true))
  {
    RunningJobsAreBounded(before, limit, overlap, s);
    PollingIsBounded(NO_POLLS, before, limit, overlap, s);
    var stopped := Poll(s, StopPolling, limit);
    steps := [StopPolling] + Drain(stopped);
    assert steps[1..] == Drain(stopped);
    PollsEnd(stopped, limit, overlap);
  }

  lemma {:induction false} PollingIsBounded(s: Polls, steps: seq<PollStep>, limit: nat, overlap: nat, t: Polls)
    requires PollRun(s, steps, limit, overlap, t)
    ensures t.polling <= overlap
    decreases |steps|
  {
    if steps != [] {
      PollingIsBounded(Poll(s, steps[0], limit), steps[1..], limit, overlap, t);
    }
  }
}
