/** The payment queue and its workers: atomic moves between lists, workers that may crash between any two of them,
    calls that fail before or after taking effect, and leases that hand a claim to another worker. */
module PaymentQueue {
  import opened Calls

  const MAX_RETRIES: nat := 3

  /** A queued payload; `due` is when it may be tried again. */
  datatype Job = Job(id: string, attempts: nat, due: int)

  /** The lists of one queue and its markers, which expire a day after they are set. The rest records what has
      happened: the jobs added, those acknowledged since they were last added, and those whose processor has ever
      succeeded. */
  datatype Queue = Queue(
    live: multiset<Job>, processing: multiset<Job>, delayed: set<Job>, dead: multiset<Job>, leases: set<Job>,
    enqueued: set<string>, completed: set<string>, deadMarks: set<string>,
    added: set<string>, acknowledged: set<string>, succeeded: set<string>)

  datatype Marker = EnqueueMarker | CompletionMarker | DeadMarker

  // ---- the scripts ----

  function Claimed(q: Queue, p: Job): Queue
    requires p in q.live
  {
    q.(live := q.live - multiset{p}, processing := q.processing + multiset{p}, leases := q.leases + {p})
  }

  function Completed(q: Queue, p: Job): Queue {
    q.(processing := q.processing - multiset{p}, leases := q.leases - {p}, completed := q.completed + {p.id},
       acknowledged := if p in q.processing then q.acknowledged + {p.id} else q.acknowledged)
  }

  function Reclaimed(q: Queue, p: Job): Queue {
    if p in q.processing
    then q.(processing := q.processing - multiset{p}, leases := q.leases - {p}, live := q.live + multiset{p})
    else q.(leases := q.leases - {p})
  }

  function Renewed(q: Queue, p: Job): Queue {
    if p in q.processing then q.(leases := q.leases + {p}) else q
  }

  function Retried(q: Queue, p: Job, next: Job): Queue {
    if p in q.processing
    then q.(processing := q.processing - multiset{p}, leases := q.leases - {p}, delayed := q.delayed + {next})
    else q
  }

  function DeadLettered(q: Queue, p: Job, last: Job): Queue {
    if p.id in q.deadMarks || p !in q.processing then q
    else q.(processing := q.processing - multiset{p}, leases := q.leases - {p}, dead := q.dead + multiset{last},
            deadMarks := q.deadMarks + {p.id})
  }

  function Promoted(q: Queue, p: Job): Queue {
    if p in q.delayed then q.(delayed := q.delayed - {p}, live := q.live + multiset{p}) else q
  }

  function Added(q: Queue, id: string): Queue {
    if id in q.enqueued then q
    else q.(enqueued := q.enqueued + {id}, live := q.live + multiset{Job(id, 0, 0)},
            added := q.added + {id}, acknowledged := q.acknowledged - {id})
  }

  function Expired(q: Queue, marker: Marker, id: string): Queue {
    match marker
    case EnqueueMarker => q.(enqueued := q.enqueued - {id})
    case CompletionMarker => q.(completed := q.completed - {id})
    case DeadMarker => q.(deadMarks := q.deadMarks - {id})
  }

  function Recovered(q: Queue, p: Job): Queue {
    if p in q.dead
    then q.(dead := q.dead - multiset{p}, live := q.live + multiset{p.(attempts := 0)},
            deadMarks := q.deadMarks - {p.id}, completed := q.completed - {p.id})
    else q
  }

  // ---- the workers ----

  datatype Phase = Checking | Running | Completing | Retrying | Burying

  /** A worker's job: the claimed payload, and the object whose attempts it counts up. */
  datatype Work = Work(payload: Job, job: Job, phase: Phase)

  datatype World = World(q: Queue, workers: map<nat, Work>)

  datatype Step =
    | Add(id: string)
    | Expire(marker: Marker, id: string)
    | Claim(w: nat, p: Job, known: bool, fate: Fate)
    | Check(w: nat, fate: Fate)
    | Process(w: nat, ok: bool)
    | Complete(w: nat, fate: Fate)
    | Retry(w: nat, due: int, fate: Fate)
    | Bury(w: nat, fate: Fate)
    | Renew(w: nat)
    | Crash(w: nat)
    | Reclaim(p: Job)
    | Promote(p: Job)
    | Recover(p: Job)

  predicate InPhase(w: World, id: nat, phase: Phase) {
    id in w.workers && w.workers[id].phase == phase
  }

  predicate Enabled(w: World, step: Step) {
    match step
    case Claim(id, p, _, _) => id !in w.workers && p in w.q.live
    case Check(id, _) => InPhase(w, id, Checking)
    case Process(id, _) => InPhase(w, id, Running)
    case Complete(id, _) => InPhase(w, id, Completing)
    case Retry(id, _, _) => InPhase(w, id, Retrying)
    case Bury(id, _) => InPhase(w, id, Burying)
    case Renew(id) => InPhase(w, id, Running)
    case Crash(id) => id in w.workers
    case Add(_) => true
    case Expire(_, _) => true
    case Reclaim(_) => true
    case Promote(_) => true
    case Recover(_) => true
  }

  function Goes(w: World, id: nat, phase: Phase): World
    requires id in w.workers
  {
    w.(workers := w.workers[id := w.workers[id].(phase := phase)])
  }

  function Ends(w: World, id: nat): World {
    w.(workers := w.workers - {id})
  }

  function Next(w: World, step: Step): World
    requires Enabled(w, step)
  {
    match step
    case Add(id) => w.(q := Added(w.q, id))
    case Expire(marker, id) => w.(q := Expired(w.q, marker, id))
    case Claim(id, p, known, fate) =>
      if fate == FailsBefore then w
      else if fate == FailsAfter then w.(q := Claimed(w.q, p))
      else World(Claimed(w.q, p), w.workers[id := Work(p, p, if known then Checking else Burying)])
    case Check(id, fate) =>
      if fate != Done then Goes(w, id, Retrying)
      else Goes(w, id, if w.workers[id].job.id in w.q.completed then Completing else Running)
    case Process(id, ok) =>
      if ok then Goes(w.(q := w.q.(succeeded := w.q.succeeded + {w.workers[id].payload.id})), id, Completing)
      else Goes(w, id, Retrying)
    case Complete(id, fate) =>
      if fate == FailsBefore then Goes(w, id, Retrying)
      else
        var v := w.(q := Completed(w.q, w.workers[id].payload));
        if fate == FailsAfter then Goes(v, id, Retrying) else Ends(v, id)
    case Retry(id, due, fate) => RetryNext(w, id, due, fate)
    case Bury(id, fate) =>
      if fate == FailsBefore then Ends(w, id)
      else Ends(w.(q := DeadLettered(w.q, w.workers[id].payload, w.workers[id].job)), id)
    case Renew(id) => w.(q := Renewed(w.q, w.workers[id].payload))
    case Crash(id) => Ends(w, id)
    case Reclaim(p) => w.(q := Reclaimed(w.q, p))
    case Promote(p) => w.(q := Promoted(w.q, p))
    case Recover(p) => w.(q := Recovered(w.q, p))
  }

  /** retryJob: false, and so on to the dead letters, when the budget is spent or the call fails. */
  function RetryNext(w: World, id: nat, due: int, fate: Fate): World
    requires id in w.workers
  {
    var work := w.workers[id];
    if work.job.attempts >= MAX_RETRIES then Goes(w, id, Burying)
    else
      var next := Job(work.job.id, work.job.attempts + 1, due);
      var counted := w.(workers := w.workers[id := Work(work.payload, next, Burying)]);
      if fate == FailsBefore then counted
      else
        var v := counted.(q := Retried(w.q, work.payload, next));
        if fate == FailsAfter then v else Ends(v, id)
  }

  // ---- nothing is lost and nothing is doubled ----

  function Tokens(q: Queue): multiset<Job> {
    q.live + q.processing + multiset(q.delayed) + q.dead
  }

  /** No two payloads anywhere share an id. */
  ghost predicate Single(m: multiset<Job>) {
    && (forall j :: m[j] <= 1)
    && (forall j, k :: j in m && k in m && j.id == k.id ==> j == k)
  }

  ghost predicate Holds(m: multiset<Job>, id: string) {
    exists j :: j in m && j.id == id
  }

  /** Every job that was added and not acknowledged is one payload, in one place. */
  ghost predicate Kept(m: multiset<Job>, added: set<string>, acknowledged: set<string>) {
    && Single(m)
    && (forall id :: Holds(m, id) <==> id in added && id !in acknowledged)
    && acknowledged <= added
    && (forall j :: j in m ==> j.attempts <= MAX_RETRIES)
  }

  /** Every claim has a lease to be recovered by and there are no others, and only the dead are marked dead. */
  ghost predicate Marked(q: Queue) {
    && (forall j :: j in q.processing <==> j in q.leases)
    && (forall id :: id in q.deadMarks ==> Holds(q.dead, id))
  }

  ghost predicate QueueInv(q: Queue) {
    && Kept(Tokens(q), q.added, q.acknowledged) && q.enqueued <= q.added
    && Marked(q)
    && q.acknowledged <= q.succeeded && q.completed <= q.succeeded
  }

  ghost predicate WorkInv(q: Queue, work: Work) {
    && work.job.id == work.payload.id && work.job.attempts <= MAX_RETRIES
    && (work.phase.Completing? ==> work.payload.id in q.succeeded)
  }

  ghost predicate Inv(w: World) {
    QueueInv(w.q) && forall id :: id in w.workers ==> WorkInv(w.q, w.workers[id])
  }

  /** A payload replaced by one of the same id. */
  lemma ReplacedToken(m: multiset<Job>, p: Job, next: Job)
    requires Single(m) && p in m && next.id == p.id
    ensures Single(m - multiset{p} + multiset{next})
    ensures forall id :: Holds(m - multiset{p} + multiset{next}, id) <==> Holds(m, id)
  {
    var n := m - multiset{p} + multiset{next};
    forall j
      ensures j in n <==> j == next || (j in m && j != p)
      ensures n[j] <= 1
    {
      assert m[p] == 1;
      assert next in m ==> next == p;
    }
    forall id
      ensures Holds(n, id) <==> Holds(m, id)
    {
      if id == p.id {
        assert next in n && p in m;
      } else if Holds(m, id) {
        var j :| j in m && j.id == id;
        assert j in n;
      }
    }
  }

  lemma RemovedToken(m: multiset<Job>, p: Job)
    requires Single(m) && p in m
    ensures Single(m - multiset{p})
    ensures forall id :: Holds(m - multiset{p}, id) <==> Holds(m, id) && id != p.id
  {
    var n := m - multiset{p};
    assert forall j :: j in n <==> j in m && j != p;
    forall id
      ensures Holds(n, id) <==> Holds(m, id) && id != p.id
    {
      if Holds(m, id) && id != p.id {
        var j :| j in m && j.id == id;
        assert j in n;
      }
    }
  }

  lemma AddedToken(m: multiset<Job>, p: Job)
    requires Single(m) && !Holds(m, p.id)
    ensures Single(m + multiset{p})
    ensures forall id :: Holds(m + multiset{p}, id) <==> Holds(m, id) || id == p.id
  {
    var n := m + multiset{p};
    assert forall j :: j in n <==> j in m || j == p;
    assert p !in m;
    forall id
      ensures Holds(n, id) <==> Holds(m, id) || id == p.id
    {
      if Holds(m, id) {
        var j :| j in m && j.id == id;
        assert j in n;
      }
      assert p in n;
    }
  }

  /** What is in one list is in no other. */
  lemma OnePlace(q: Queue, p: Job)
    requires Single(Tokens(q)) && p in q.processing
    ensures q.processing[p] == 1 && p !in q.live && p !in q.delayed && p !in q.dead
    ensures forall j :: j in Tokens(q) && j.id == p.id ==> j == p
    ensures forall j: Job :: j.id == p.id ==> j !in q.delayed && j !in q.dead
  {
    assert Tokens(q)[p] <= 1;
    forall j: Job | j.id == p.id
      ensures j !in q.delayed && j !in q.dead
    {
      assert p in Tokens(q);
      assert j in q.delayed || j in q.dead ==> j in Tokens(q);
    }
  }

  lemma RetriedTokens(q: Queue, p: Job, next: Job)
    requires Single(Tokens(q)) && p in q.processing && next.id == p.id
    ensures Tokens(Retried(q, p, next)) == Tokens(q) - multiset{p} + multiset{next}
  {
    OnePlace(q, p);
    assert multiset(q.delayed + {next}) == multiset(q.delayed) + multiset{next};
  }

  lemma PromotedTokens(q: Queue, p: Job)
    requires p in q.delayed
    ensures Tokens(Promoted(q, p)) == Tokens(q)
  {
    assert multiset(q.delayed - {p}) == multiset(q.delayed) - multiset{p};
  }

  // ---- each script keeps the invariant ----

  lemma ReplacedKept(m: multiset<Job>, p: Job, next: Job, added: set<string>, acknowledged: set<string>)
    requires Kept(m, added, acknowledged) && p in m && next.id == p.id && next.attempts <= MAX_RETRIES
    ensures Kept(m - multiset{p} + multiset{next}, added, acknowledged)
  {
    ReplacedToken(m, p, next);
  }

  lemma RemovedKept(m: multiset<Job>, p: Job, added: set<string>, acknowledged: set<string>)
    requires Kept(m, added, acknowledged) && p in m
    ensures Kept(m - multiset{p}, added, acknowledged + {p.id})
  {
    RemovedToken(m, p);
    assert Holds(m, p.id);
  }

  lemma AddedKept(m: multiset<Job>, id: string, added: set<string>, acknowledged: set<string>)
    requires Kept(m, added, acknowledged) && (id !in added || id in acknowledged)
    ensures Kept(m + multiset{Job(id, 0, 0)}, added + {id}, acknowledged - {id})
  {
    AddedToken(m, Job(id, 0, 0));
  }

  lemma ClaimKeeps(q: Queue, p: Job)
    requires QueueInv(q) && p in q.live
    ensures QueueInv(Claimed(q, p)) && Claimed(q, p).succeeded == q.succeeded && p.attempts <= MAX_RETRIES
  {
    hide Holds;
    assert Tokens(Claimed(q, p)) == Tokens(q);
    assert p in Tokens(q);
  }

  /** Taking a claim out of the processing list keeps every other claim's lease. */
  lemma UnclaimedMarks(q: Queue, p: Job, d: Queue)
    requires Marked(q) && q.processing[p] <= 1
    requires d.processing == q.processing - multiset{p} && d.leases == q.leases - {p}
    requires d.dead == q.dead && d.deadMarks == q.deadMarks
    ensures Marked(d)
  {
    hide Holds;
  }

  lemma CompletedTokens(q: Queue, p: Job)
    ensures p in q.processing ==> p in Tokens(q) && Tokens(Completed(q, p)) == Tokens(q) - multiset{p}
    ensures p !in q.processing ==> Tokens(Completed(q, p)) == Tokens(q)
  {
    if p !in q.processing {
      assert q.processing - multiset{p} == q.processing;
    }
  }

  lemma AtMostOneClaim(q: Queue, p: Job)
    requires QueueInv(q)
    ensures q.processing[p] <= 1
  {
    assert Tokens(q)[p] <= 1;
  }

  lemma CompletedKept(q: Queue, p: Job)
    requires QueueInv(q)
    ensures Kept(Tokens(Completed(q, p)), q.added, Completed(q, p).acknowledged)
  {
    CompletedTokens(q, p);
    hide Kept, Marked, Tokens;
    if p in q.processing {
      RemovedKept(Tokens(q), p, q.added, q.acknowledged);
    }
  }

  lemma CompleteKeeps(q: Queue, p: Job)
    requires QueueInv(q) && p.id in q.succeeded
    ensures QueueInv(Completed(q, p)) && Completed(q, p).succeeded == q.succeeded
  {
    AtMostOneClaim(q, p);
    hide Kept, Marked, Tokens;
    CompletedMarks(q, p);
    CompletedKept(q, p);
  }

  lemma CompletedMarks(q: Queue, p: Job)
    requires Marked(q) && q.processing[p] <= 1
    ensures Marked(Completed(q, p))
  {
    UnclaimedMarks(q, p, Completed(q, p));
  }

  lemma ReclaimedTokens(q: Queue, p: Job)
    ensures Tokens(Reclaimed(q, p)) == Tokens(q)
  {
  }

  lemma ReclaimKeeps(q: Queue, p: Job)
    requires QueueInv(q)
    ensures QueueInv(Reclaimed(q, p)) && Reclaimed(q, p).succeeded == q.succeeded
  {
    ReclaimedTokens(q, p);
    AtMostOneClaim(q, p);
    hide Kept, Tokens;
    if p in q.processing {
      hide Marked;
      UnclaimedMarks(q, p, Reclaimed(q, p));
    }
  }

  lemma RenewKeeps(q: Queue, p: Job)
    requires QueueInv(q)
    ensures QueueInv(Renewed(q, p)) && Renewed(q, p).succeeded == q.succeeded
  {
    hide Kept, Holds;
    assert Tokens(Renewed(q, p)) == Tokens(q);
  }

  lemma RetryKeeps(q: Queue, p: Job, next: Job)
    requires QueueInv(q) && next.id == p.id && next.attempts <= MAX_RETRIES
    ensures QueueInv(Retried(q, p, next)) && Retried(q, p, next).succeeded == q.succeeded
  {
    if p in q.processing {
      SingleOf(q);
      hide Kept, Marked, Single, Holds;
      RetriedTokens(q, p, next);
      AtMostOneClaim(q, p);
      assert p in Tokens(q);
      UnclaimedMarks(q, p, Retried(q, p, next));
      hide Tokens;
      ReplacedKept(Tokens(q), p, next, q.added, q.acknowledged);
    }
  }

  lemma SingleOf(q: Queue)
    requires QueueInv(q)
    ensures Single(Tokens(q))
  {
  }

  lemma BuriedTokens(q: Queue, p: Job, last: Job)
    requires p in q.processing && p.id !in q.deadMarks
    ensures p in Tokens(q)
    ensures Tokens(DeadLettered(q, p, last)) == Tokens(q) - multiset{p} + multiset{last}
  {
  }

  lemma BuriedMarks(q: Queue, p: Job, last: Job)
    requires Marked(q) && q.processing[p] <= 1 && last.id == p.id
    ensures Marked(DeadLettered(q, p, last))
  {
    hide Holds;
    DeadHolds(q.dead, last);
  }

  lemma BuryKeeps(q: Queue, p: Job, last: Job)
    requires QueueInv(q) && last.id == p.id && last.attempts <= MAX_RETRIES
    ensures QueueInv(DeadLettered(q, p, last)) && DeadLettered(q, p, last).succeeded == q.succeeded
  {
    AtMostOneClaim(q, p);
    hide Kept, Marked, Tokens;
    BuriedMarks(q, p, last);
    if p.id !in q.deadMarks && p in q.processing {
      BuriedTokens(q, p, last);
      ReplacedKept(Tokens(q), p, last, q.added, q.acknowledged);
    }
  }

  lemma DeadHolds(m: multiset<Job>, p: Job)
    ensures forall id :: Holds(m + multiset{p}, id) <==> Holds(m, id) || id == p.id
  {
    assert p in m + multiset{p};
    forall id | Holds(m, id)
      ensures Holds(m + multiset{p}, id)
    {
      var j :| j in m && j.id == id;
      assert j in m + multiset{p};
    }
  }

  lemma PromoteKeeps(q: Queue, p: Job)
    requires QueueInv(q)
    ensures QueueInv(Promoted(q, p)) && Promoted(q, p).succeeded == q.succeeded
  {
    hide Single, Holds, Kept;
    if p in q.delayed {
      PromotedTokens(q, p);
    }
  }

  lemma AddKeeps(q: Queue, id: string)
    requires QueueInv(q) && (id in q.enqueued || id !in q.added || id in q.acknowledged)
    ensures QueueInv(Added(q, id)) && Added(q, id).succeeded == q.succeeded
  {
    hide Single, Holds, Kept;
    if id !in q.enqueued {
      assert Tokens(Added(q, id)) == Tokens(q) + multiset{Job(id, 0, 0)};
      AddedKept(Tokens(q), id, q.added, q.acknowledged);
    }
  }

  lemma ExpiryKeeps(q: Queue, marker: Marker, id: string)
    requires QueueInv(q)
    ensures QueueInv(Expired(q, marker, id)) && Expired(q, marker, id).succeeded == q.succeeded
  {
    hide Single, Holds, Kept;
    assert Tokens(Expired(q, marker, id)) == Tokens(q);
  }

  lemma RecoverKeeps(q: Queue, p: Job)
    requires QueueInv(q)
    ensures QueueInv(Recovered(q, p)) && Recovered(q, p).succeeded == q.succeeded
  {
    if p in q.dead {
      var fresh0 := p.(attempts := 0);
      RecoveredTokens(q, p);
      RecoveredMarks(q, p);
      hide Single, Holds, Kept, Tokens, Marked;
      ReplacedKept(Tokens(q), p, fresh0, q.added, q.acknowledged);
    }
  }

  lemma RecoveredTokens(q: Queue, p: Job)
    requires p in q.dead
    ensures p in Tokens(q)
    ensures Tokens(Recovered(q, p)) == Tokens(q) - multiset{p} + multiset{p.(attempts := 0)}
  {
  }

  lemma RecoveredMarks(q: Queue, p: Job)
    requires QueueInv(q) && p in q.dead
    ensures Marked(Recovered(q, p))
  {
    SingleOf(q);
    assert q.dead <= Tokens(q);
    hide Single, Holds, Kept, Tokens;
    PartIsSingle(Tokens(q), q.dead);
    RemovedToken(q.dead, p);
  }

  lemma PartIsSingle(m: multiset<Job>, part: multiset<Job>)
    requires Single(m) && part <= m
    ensures Single(part)
  {
  }

  // ---- every interleaving ----

  lemma WorkersSeeGrowth(w: World, q: Queue)
    requires Inv(w) && w.q.succeeded <= q.succeeded && QueueInv(q)
    ensures Inv(w.(q := q))
  {
    hide QueueInv;
  }

  lemma WorkerFacts(w: World, id: nat)
    requires Inv(w) && id in w.workers
    ensures QueueInv(w.q) && WorkInv(w.q, w.workers[id])
  {
  }

  lemma WorkerGoes(w: World, id: nat, work: Work)
    requires Inv(w) && WorkInv(w.q, work)
    ensures Inv(w.(workers := w.workers[id := work])) && Inv(Ends(w, id))
  {
    hide QueueInv, WorkInv;
  }

  lemma ClaimStepKeeps(w: World, step: Step)
    requires Inv(w) && Enabled(w, step) && step.Claim?
    ensures Inv(Next(w, step))
  {
    var p := step.p;
    ClaimKeeps(w.q, p);
    hide QueueInv, Claimed, Inv;
    WorkersSeeGrowth(w, Claimed(w.q, p));
    WorkerGoes(w.(q := Claimed(w.q, p)), step.w, Work(p, p, if step.known then Checking else Burying));
  }

  lemma CompleteStepKeeps(w: World, step: Step)
    requires Inv(w) && Enabled(w, step) && step.Complete?
    ensures Inv(Next(w, step))
  {
    hide QueueInv, Inv, Completed;
    var work := w.workers[step.w];
    WorkerFacts(w, step.w);
    CompleteKeeps(w.q, work.payload);
    WorkersSeeGrowth(w, Completed(w.q, work.payload));
    WorkerGoes(w, step.w, work.(phase := Retrying));
    WorkerGoes(w.(q := Completed(w.q, work.payload)), step.w, work.(phase := Retrying));
  }

  lemma RetryStepKeeps(w: World, step: Step)
    requires Inv(w) && Enabled(w, step) && step.Retry?
    ensures Inv(Next(w, step))
  {
    hide QueueInv, Inv, Retried;
    var work := w.workers[step.w];
    WorkerFacts(w, step.w);
    WorkerGoes(w, step.w, work.(phase := Burying));
    if work.job.attempts < MAX_RETRIES {
      var next := Job(work.job.id, work.job.attempts + 1, step.due);
      WorkerGoes(w, step.w, Work(work.payload, next, Burying));
      var counted := w.(workers := w.workers[step.w := Work(work.payload, next, Burying)]);
      RetryKeeps(w.q, work.payload, next);
      WorkersSeeGrowth(counted, Retried(w.q, work.payload, next));
      WorkerGoes(counted.(q := Retried(w.q, work.payload, next)), step.w, Work(work.payload, next, Burying));
    }
  }

  lemma BuryStepKeeps(w: World, step: Step)
    requires Inv(w) && Enabled(w, step) && step.Bury?
    ensures Inv(Next(w, step))
  {
    hide QueueInv, Inv, DeadLettered;
    var work := w.workers[step.w];
    WorkerFacts(w, step.w);
    WorkerGoes(w, step.w, work);
    BuryKeeps(w.q, work.payload, work.job);
    WorkersSeeGrowth(w, DeadLettered(w.q, work.payload, work.job));
    WorkerGoes(w.(q := DeadLettered(w.q, work.payload, work.job)), step.w, work);
  }

  lemma SucceedKeeps(q: Queue, id: string)
    requires QueueInv(q)
    ensures QueueInv(q.(succeeded := q.succeeded + {id}))
  {
    hide Kept, Holds;
    assert Tokens(q.(succeeded := q.succeeded + {id})) == Tokens(q);
  }

  lemma CompletedOnlyAfterSuccess(q: Queue)
    requires QueueInv(q)
    ensures q.completed <= q.succeeded && q.acknowledged <= q.succeeded
  {
  }

  lemma ProcessStepKeeps(w: World, step: Step)
    requires Inv(w) && Enabled(w, step) && (step.Process? || step.Check?)
    ensures Inv(Next(w, step))
  {
    hide QueueInv, Inv;
    var work := w.workers[step.w];
    WorkerFacts(w, step.w);
    WorkerGoes(w, step.w, work.(phase := Retrying));
    if step.Process? {
      var q := w.q.(succeeded := w.q.succeeded + {work.payload.id});
      SucceedKeeps(w.q, work.payload.id);
      WorkersSeeGrowth(w, q);
      WorkerGoes(w.(q := q), step.w, work.(phase := Completing));
    } else {
      CompletedOnlyAfterSuccess(w.q);
      var done := work.job.id in w.q.completed;
      WorkerGoes(w, step.w, work.(phase := if done then Completing else Running));
    }
  }

  lemma MoveStepKeeps(w: World, step: Step)
    requires Inv(w) && Enabled(w, step) && !Doubles(w, step)
    requires step.Add? || step.Expire? || step.Renew? || step.Crash? || step.Reclaim? || step.Promote? || step.Recover?
    ensures Inv(Next(w, step))
  {
    hide QueueInv, WorkInv, Added, Expired, Renewed, Reclaimed, Promoted, Recovered;
    match step {
      case Add(id) =>
        AddKeeps(w.q, id);
        WorkersSeeGrowth(w, Added(w.q, id));
      case Expire(marker, id) =>
        ExpiryKeeps(w.q, marker, id);
        WorkersSeeGrowth(w, Expired(w.q, marker, id));
      case Renew(id) =>
        RenewKeeps(w.q, w.workers[id].payload);
        WorkersSeeGrowth(w, Renewed(w.q, w.workers[id].payload));
      case Crash(id) =>
        WorkerGoes(w, id, w.workers[id]);
      case Reclaim(p) =>
        ReclaimKeeps(w.q, p);
        WorkersSeeGrowth(w, Reclaimed(w.q, p));
      case Promote(p) =>
        PromoteKeeps(w.q, p);
        WorkersSeeGrowth(w, Promoted(w.q, p));
      case Recover(p) =>
        RecoverKeeps(w.q, p);
        WorkersSeeGrowth(w, Recovered(w.q, p));
    }
  }

  /** A job added again after its enqueue marker expired, while its first payload is still in the queue. */
  predicate Doubles(w: World, step: Step) {
    step.Add? && step.id !in w.q.enqueued && step.id in w.q.added && step.id !in w.q.acknowledged
  }

  lemma StepKeepsInv(w: World, step: Step)
    requires Inv(w) && Enabled(w, step) && !Doubles(w, step)
    ensures Inv(Next(w, step))
  {
    hide Inv, Next, Enabled;
    match step {
      case Claim(_, _, _, _) => ClaimStepKeeps(w, step);
      case Complete(_, _) => CompleteStepKeeps(w, step);
      case Retry(_, _, _) => RetryStepKeeps(w, step);
      case Bury(_, _) => BuryStepKeeps(w, step);
      case Process(_, _) => ProcessStepKeeps(w, step);
      case Check(_, _) => ProcessStepKeeps(w, step);
      case Add(_) => MoveStepKeeps(w, step);
      case Expire(_, _) => MoveStepKeeps(w, step);
      case Renew(_) => MoveStepKeeps(w, step);
      case Crash(_) => MoveStepKeeps(w, step);
      case Reclaim(_) => MoveStepKeeps(w, step);
      case Promote(_) => MoveStepKeeps(w, step);
      case Recover(_) => MoveStepKeeps(w, step);
    }
  }

  ghost predicate Reaches(w: World, steps: seq<Step>, v: World)
    decreases |steps|
  {
    if steps == [] then v == w else Enabled(w, steps[0]) && Reaches(Next(w, steps[0]), steps[1..], v)
  }

  const EMPTY := World(Queue(multiset{}, multiset{}, {}, multiset{}, {}, {}, {}, {}, {}, {}, {}), map[])

  ghost predicate NeverDoubles(w: World, steps: seq<Step>)
    decreases |steps|
  {
    steps == [] || (Enabled(w, steps[0]) && !Doubles(w, steps[0]) && NeverDoubles(Next(w, steps[0]), steps[1..]))
  }

  lemma {:induction false} RunKeepsInv(w: World, steps: seq<Step>, v: World)
    requires Inv(w) && Reaches(w, steps, v) && NeverDoubles(w, steps)
    ensures Inv(v)
    decreases |steps|
  {
    hide Inv, Doubles;
    if steps != [] {
      StepKeepsInv(w, steps[0]);
      RunKeepsInv(Next(w, steps[0]), steps[1..], v);
    }
  }

  /** In how many places a payload is. */
  function Places(q: Queue, j: Job): nat {
    q.live[j] + q.processing[j] + (if j in q.delayed then 1 else 0) + q.dead[j]
  }

  /** The job's payload is in one place, and there is only one. */
  ghost predicate InOnePlace(q: Queue, id: string) {
    exists j: Job :: j.id == id && Places(q, j) == 1 && forall k: Job :: k.id == id && Places(q, k) > 0 ==> k == j
  }

  /** Each job is in one place from when it is added until it is acknowledged, and nowhere otherwise: never lost, and
      never both waiting to be retried and among the dead. */
  ghost predicate EachInOnePlace(q: Queue) {
    forall id ::
      if id in q.added && id !in q.acknowledged then InOnePlace(q, id)
      else forall j: Job :: j.id == id ==> Places(q, j) == 0
  }

  ghost predicate AlwaysInOnePlace(w: World, steps: seq<Step>)
    decreases |steps|
  {
    EachInOnePlace(w.q)
    && (steps == [] || (Enabled(w, steps[0]) && AlwaysInOnePlace(Next(w, steps[0]), steps[1..])))
  }

  lemma InvMeansOnePlace(q: Queue)
    requires QueueInv(q)
    ensures EachInOnePlace(q)
  {
    assert forall j :: Places(q, j) == Tokens(q)[j];
    hide Tokens, Places, Marked;
    forall id | id in q.added && id !in q.acknowledged
      ensures InOnePlace(q, id)
    {
      assert Holds(Tokens(q), id);
      var j :| j in Tokens(q) && j.id == id;
      assert Places(q, j) == 1;
    }
  }

  lemma DoublingShows(w: World, step: Step)
    requires Inv(w) && Enabled(w, step) && Doubles(w, step)
    ensures !EachInOnePlace(Next(w, step).q)
  {
    var q, d := w.q, Next(w, step).q;
    InvMeansOnePlace(q);
    var again := Job(step.id, 0, 0);
    assert Places(d, again) == Places(q, again) + 1;
    assert forall j :: j != again ==> Places(d, j) == Places(q, j);
    hide Places, Inv;
    assert InOnePlace(q, step.id);
    var j: Job :| j.id == step.id && Places(q, j) == 1;
    assert !InOnePlace(d, step.id);
    assert step.id in d.added && step.id !in d.acknowledged;
  }

  lemma {:induction false} OnePlaceExactly(w: World, steps: seq<Step>, v: World)
    requires Inv(w) && Reaches(w, steps, v)
    ensures AlwaysInOnePlace(w, steps) <==> NeverDoubles(w, steps)
    decreases |steps|
  {
    InvMeansOnePlace(w.q);
    hide Inv, Doubles, EachInOnePlace, Next, Enabled;
    if steps != [] {
      if Doubles(w, steps[0]) {
        DoublingShows(w, steps[0]);
        assert !AlwaysInOnePlace(Next(w, steps[0]), steps[1..]);
      } else {
        StepKeepsInv(w, steps[0]);
        OnePlaceExactly(Next(w, steps[0]), steps[1..], v);
      }
    }
  }

  /** EXACT. Whatever interleaves and whatever fails, each job is at every time in one place from when it is added
      until it is acknowledged, and in none otherwise, if and only if no job is added again after its enqueue marker
      expired while its first payload is still in the queue. */
  lemma EveryJobIsInOnePlace(steps: seq<Step>, w: World)
    requires Reaches(EMPTY, steps, w)
    ensures AlwaysInOnePlace(EMPTY, steps) <==> NeverDoubles(EMPTY, steps)
  {
    assert Inv(EMPTY);
    OnePlaceExactly(EMPTY, steps, w);
  }

  /** It happens: the enqueue marker expires while the first payload waits, and the job is added again. */
  lemma WaitingJobIsDoubled(id: string)
    ensures var steps := [Add(id), Expire(EnqueueMarker, id), Add(id)];
      !NeverDoubles(EMPTY, steps) && exists w :: Reaches(EMPTY, steps, w) && w.q.live[Job(id, 0, 0)] == 2
  {
    var steps := [Add(id), Expire(EnqueueMarker, id), Add(id)];
    var w1 := Next(EMPTY, Add(id));
    var w2 := Next(w1, Expire(EnqueueMarker, id));
    var w := Next(w2, Add(id));
    assert Doubles(w2, Add(id));
    hide Next;
    assert steps[1..] == [Expire(EnqueueMarker, id), Add(id)];
    assert steps[1..][1..] == [Add(id)] && [Add(id)][1..] == [];
    assert Reaches(w, [], w) && Reaches(w2, [Add(id)], w) && Reaches(w1, steps[1..], w);
    assert !NeverDoubles(w2, [Add(id)]) && !NeverDoubles(w1, steps[1..]);
    assert Reaches(EMPTY, steps, w);
  }

  /** A job is acknowledged only after its processor has succeeded, in this life of the job or an earlier one, is
      retried at most three times, and a claim always has the lease that hands it to another worker. */
  lemma AcknowledgedAfterSuccess(steps: seq<Step>, w: World)
    requires Reaches(EMPTY, steps, w) && NeverDoubles(EMPTY, steps)
    ensures w.q.acknowledged <= w.q.succeeded && w.q.acknowledged <= w.q.added
    ensures forall j :: Places(w.q, j) > 0 ==> j.attempts <= MAX_RETRIES
    ensures forall j :: j in w.q.processing <==> j in w.q.leases
    ensures forall j :: j in w.q.processing ==> j in Reclaimed(w.q, j).live
  {
    assert Inv(EMPTY);
    RunKeepsInv(EMPTY, steps, w);
    assert forall j :: Places(w.q, j) == Tokens(w.q)[j];
  }

  // ---- what the markers are for ----

  /** While its enqueue marker stands, adding a job again changes nothing; before that, it is put in the queue. */
  lemma AddedOnce(q: Queue, id: string)
    ensures Added(Added(q, id), id) == Added(q, id)
    ensures id !in q.enqueued ==> Added(q, id).live == q.live + multiset{Job(id, 0, 0)} && id in Added(q, id).enqueued
  {
  }

  /** While its dead marker stands, no further payload of the job is buried, even if it was doubled; it stays
      claimed. */
  lemma BuriedOnceWhileMarked(q: Queue, p: Job, last: Job, again: Job, last1: Job)
    requires p in q.processing && p.id !in q.deadMarks && again.id == p.id
    ensures last in DeadLettered(q, p, last).dead
    ensures DeadLettered(DeadLettered(q, p, last), again, last1) == DeadLettered(q, p, last)
  {
  }

  /** A completion leaves its marker for as long as it stands, whoever holds the claim by then. */
  lemma CompletionIsMarked(q: Queue, p: Job)
    ensures p.id in Completed(q, p).completed && Completed(q, p).completed <= q.completed + {p.id}
  {
  }

  // ---- what is claimed comes back ----

  /** A claim that is refused changes nothing. One whose reply is lost, or whose worker crashes before its first
      call, leaves the payload claimed under a lease, and reclaiming it restores the queue. */
  lemma ClaimsComeBack(w: World, id: nat, p: Job, known: bool)
    requires QueueInv(w.q) && p in w.q.live && id !in w.workers
    ensures Next(w, Claim(id, p, known, FailsBefore)) == w
    ensures var lost := Next(w, Claim(id, p, known, FailsAfter));
      p in lost.q.processing && p in lost.q.leases && Next(lost, Reclaim(p)) == w
    ensures var v := Next(w, Claim(id, p, known, Done));
      && InPhase(v, id, if known then Checking else Burying) && Enabled(v, Crash(id))
      && Next(Next(v, Crash(id)), Reclaim(p)) == w
  {
    NotYetClaimed(w.q, p);
    var v := Next(w, Claim(id, p, known, Done));
    assert w.q.live - multiset{p} + multiset{p} == w.q.live;
    assert w.q.processing + multiset{p} - multiset{p} == w.q.processing;
    assert w.q.leases + {p} - {p} == w.q.leases;
    assert v.workers - {id} == w.workers;
  }

  lemma NotYetClaimed(q: Queue, p: Job)
    requires QueueInv(q) && p in q.live
    ensures p !in q.processing && p !in q.leases
  {
    assert Tokens(q)[p] <= 1;
  }

  /** A worker can crash at any time; the queue stays as it is. */
  lemma CrashesLeaveTheQueue(w: World, id: nat)
    ensures Enabled(w, Crash(id)) <==> id in w.workers
    ensures Enabled(w, Crash(id)) ==> Next(w, Crash(id)).q == w.q && Next(w, Crash(id)).workers == w.workers - {id}
    ensures Enabled(w, Renew(id)) <==> id in w.workers && w.workers[id].phase == Running
  {
  }
}
