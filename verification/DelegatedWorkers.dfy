/** The readiness observer of a web replica whose job consumers run elsewhere: timer ticks, probe results, starts and
    stops interleave at every await. */
module DelegatedWorkers {
  import opened Options

  datatype ProbeResult = Ready | Unavailable | TimedOut

  /** The coalesced observation: none, waiting for its probe, waiting for the confirming probe, or settled and not
      yet cleared by the call that began it. */
  datatype InFlight = Idle | Probing | Confirming | Settled(ok: bool)

  /** A start that waits for its observation, and then for its turn to go on. */
  datatype Starter = NotStarting | Awaiting | Delivered(ok: bool)

  /** A finished observation: what its probes said, and how things stood when the first one answered. */
  datatype Observation = Observation(results: seq<ProbeResult>, serving: bool, wasReady: bool, isReady: bool)

  datatype World = World(
    started: bool, stopping: bool, timer: bool, lastOk: Option<bool>, inFlight: InFlight, starter: Starter, stops: nat,
    ready: bool, accepting: bool,
    fetches: nat, history: seq<Observation>)

  datatype Step =
    | Observe
    | Tick
    | Answer(result: ProbeResult)
    | ClearInFlight
    | Start
    | ResumeStart
    | Stop
    | ResumeStop
    | SetTraffic(on: bool)

  const INITIAL := World(false, false, false, None, Idle, NotStarting, 0, false, false, 0, [])

  // ---- the steps between awaits ----

  predicate Enabled(w: World, step: Step) {
    match step
    case Tick => w.timer
    case Answer(_) => w.inFlight.Probing? || w.inFlight.Confirming?
    case ClearInFlight => w.inFlight.Settled?
    case ResumeStart => w.starter.Delivered?
    case ResumeStop => w.stops > 0 && !w.inFlight.Probing? && !w.inFlight.Confirming?
    case Observe => true
    case Start => true
    case Stop => true
    case SetTraffic(_) => true
  }

  /** A replica that serves traffic and was ready gets a second probe before it is withdrawn. */
  predicate Serving(w: World) {
    w.started && w.lastOk == Some(true) && !w.stopping && w.accepting
  }

  function Observed(w: World): World {
    if w.stopping || !w.inFlight.Idle? then w else w.(inFlight := Probing, fetches := w.fetches + 1)
  }

  function Verdict(w: World, ok: bool): World {
    w.(lastOk := Some(ok), ready := if w.stopping then w.ready else ok, inFlight := Settled(ok),
       starter := if w.starter.Awaiting? then Delivered(ok) else w.starter)
  }

  function Settle(w: World, results: seq<ProbeResult>, ok: bool): World {
    var v := Verdict(w, ok);
    v.(history := w.history + [Observation(results, |results| == 2 || Serving(w), w.ready, v.ready)])
  }

  function Answered(w: World, result: ProbeResult): World {
    if w.inFlight.Confirming? then Settle(w, [TimedOut, result], result.Ready?)
    else if result.TimedOut? && Serving(w) then w.(inFlight := Confirming, fetches := w.fetches + 1)
    else Settle(w, [result], result.Ready?)
  }

  predicate StartRefused(w: World) {
    !w.starter.NotStarting? || w.started || w.stopping
  }

  function Starting(w: World): World {
    if StartRefused(w) then w
    else
      var v := Observed(w);
      v.(starter := if v.inFlight.Settled? then Delivered(v.inFlight.ok) else Awaiting)
  }

  /** The start succeeds only on a ready observation that no stop has overtaken. */
  function StartResumed(w: World): World
    requires w.starter.Delivered?
  {
    if !w.starter.ok || w.stopping then w.(starter := NotStarting)
    else w.(started := true, timer := true, starter := NotStarting)
  }

  function Next(w: World, step: Step): World
    requires Enabled(w, step)
  {
    match step
    case Observe => Observed(w)
    case Tick => Observed(w)
    case Answer(result) => Answered(w, result)
    case ClearInFlight => w.(inFlight := Idle)
    case Start => Starting(w)
    case ResumeStart => StartResumed(w)
    case Stop => w.(stopping := true, ready := false, timer := false, stops := w.stops + 1)
    case ResumeStop => w.(started := false, stops := w.stops - 1)
    case SetTraffic(on) => w.(accepting := on)
  }

  // ---- the same, in place ----

  class Observer {
    var started: bool
    var stopping: bool
    var timer: bool
    var lastOk: Option<bool>
    var inFlight: InFlight
    var starter: Starter
    var stops: nat
    var workersReady: bool
    var acceptingTraffic: bool
    ghost var fetches: nat
    ghost var history: seq<Observation>

    ghost function State(): World
      reads this
    {
      World(started, stopping, timer, lastOk, inFlight, starter, stops, workersReady, acceptingTraffic, fetches,
          history)
    }

    constructor ()
      ensures State() == INITIAL
    {
      started, stopping, timer, lastOk := false, false, false, None;
      inFlight, starter, stops := Idle, NotStarting, 0;
      workersReady, acceptingTraffic := false, false;
      fetches, history := 0, [];
    }

    /** observe, up to its first await. */
    method BeginObserve()
      modifies this
      ensures State() == Observed(old(State()))
    {
      if stopping {
        return;
      }
      if inFlight != Idle {
        return;
      }
      inFlight := Probing;
      fetches := fetches + 1;
    }

    /** observe, from a probe's answer to the next await or to its end. */
    method ReceiveAnswer(result: ProbeResult)
      requires Enabled(State(), Answer(result))
      modifies this
      ensures State() == Answered(old(State()), result)
      ensures inFlight.Settled? ==>
        lastOk == Some(result == Ready) && workersReady == if stopping then old(workersReady) else result == Ready
      ensures inFlight.Settled? <==>
        old(inFlight) == Confirming || result != TimedOut
        || !(started && old(lastOk) == Some(true) && !stopping && acceptingTraffic)
    {
      if inFlight == Confirming {
        Conclude([TimedOut, result], result == Ready);
        return;
      }
      if result == TimedOut && started && lastOk == Some(true) && !stopping && acceptingTraffic {
        inFlight := Confirming;
        fetches := fetches + 1;
        return;
      }
      Conclude([result], result == Ready);
    }

    /** The end of an observation. */
    method Conclude(ghost results: seq<ProbeResult>, ok: bool)
      modifies this
      ensures State() == Settle(old(State()), results, ok)
    {
      ghost var w := State();
      SetVerdict(ok);
      history := history + [Observation(results, |results| == 2 || Serving(w), w.ready, workersReady)];
    }

    method SetVerdict(ok: bool)
      modifies this
      ensures State() == Verdict(old(State()), ok)
    {
      lastOk := Some(ok);
      if !stopping {
        workersReady := ok;
      }
      inFlight := Settled(ok);
      if starter == Awaiting {
        starter := Delivered(ok);
      }
    }

    /** start, up to its await. */
    method BeginStart() returns (refused: bool)
      modifies this
      ensures refused == StartRefused(old(State()))
      ensures State() == Starting(old(State()))
    {
      refused := starter != NotStarting || started || stopping;
      if refused {
        return;
      }
      BeginObserve();
      starter := if inFlight.Settled? then Delivered(inFlight.ok) else Awaiting;
    }

    /** start, after its observation. */
    method FinishStart() returns (ok: bool)
      requires Enabled(State(), ResumeStart)
      modifies this
      ensures State() == Next(old(State()), ResumeStart)
      ensures ok ==> started && timer && !stopping
    {
      ok := starter.ok && !stopping;
      if ok {
        started := true;
        timer := true;
      }
      starter := NotStarting;
    }

    method BeginStop()
      modifies this
      ensures State() == Next(old(State()), Stop)
    {
      stopping := true;
      workersReady := false;
      timer := false;
      stops := stops + 1;
    }

    method FinishStop()
      requires Enabled(State(), ResumeStop)
      modifies this
      ensures State() == Next(old(State()), ResumeStop)
    {
      started := false;
      stops := stops - 1;
    }
  }

  // ---- what every reachable state satisfies ----

  /** A ready replica that serves traffic is withdrawn only on a definite failure or two missed deadlines. */
  predicate JustWithdrawal(o: Observation) {
    o.serving && o.wasReady && !o.isReady ==> Unavailable in o.results || o.results == [TimedOut, TimedOut]
  }

  predicate AtMostTwoProbes(o: Observation) {
    1 <= |o.results| <= 2 && (|o.results| == 2 ==> o.serving && o.results[0] == TimedOut)
  }

  /** The probes of the observation under way. */
  function Underway(w: World): nat {
    match w.inFlight
    case Probing => 1
    case Confirming => 2
    case Idle => 0
    case Settled(_) => 0
  }

  function Probes(history: seq<Observation>): nat {
    if history == [] then 0 else Probes(history[..|history| - 1]) + |history[|history| - 1].results|
  }

  function LastResult(o: Observation): ProbeResult
    requires o.results != []
  {
    o.results[|o.results| - 1]
  }

  /** What an observation concludes is what its last probe said. */
  predicate ConcludesRight(o: Observation) {
    o.results != [] && (o.isReady ==> LastResult(o) == Ready)
  }

  predicate LastOkIsTheLastResult(history: seq<Observation>, lastOk: Option<bool>) {
    if history == [] then lastOk == None
    else history[|history| - 1].results != [] && lastOk == Some(LastResult(history[|history| - 1]) == Ready)
  }

  predicate SawReady(history: seq<Observation>) {
    exists i :: 0 <= i < |history| && Ready in history[i].results
  }

  ghost predicate Inv(w: World) {
    && (w.timer ==> w.started && !w.stopping)
    && (w.stopping ==> !w.ready)
    && (!w.stopping ==> (w.ready <==> w.lastOk == Some(true)))
    && (w.started ==> w.starter.NotStarting? && w.lastOk.Some?)
    && (w.started && !w.stopping ==> w.timer)
    && (w.starter.Delivered? || w.inFlight.Settled? ==> w.lastOk.Some?)
    && (w.started || w.starter == Delivered(true) || w.inFlight == Settled(true) ==> SawReady(w.history))
    && (w.inFlight.Settled? ==> w.lastOk == Some(w.inFlight.ok))
    && (w.starter.Awaiting? ==> w.inFlight.Probing? || w.inFlight.Confirming?)
    && (w.inFlight.Confirming? ==> w.started)
    && (w.stops > 0 ==> w.stopping)
    && w.fetches == Probes(w.history) + Underway(w)
    && (forall i :: 0 <= i < |w.history| ==> JustWithdrawal(w.history[i]) && AtMostTwoProbes(w.history[i]))
    && (forall i :: 0 <= i < |w.history| ==> ConcludesRight(w.history[i]))
    && LastOkIsTheLastResult(w.history, w.lastOk)
  }

  lemma SettleKeepsInv(w: World, results: seq<ProbeResult>, ok: bool)
    requires Inv(w) && (w.inFlight.Probing? || w.inFlight.Confirming?)
    requires |results| == Underway(w) && ok == results[|results| - 1].Ready?
    requires |results| == 2 ==> results[0] == TimedOut
    requires results == [TimedOut] ==> !Serving(w)
    ensures Inv(Settle(w, results, ok))
  {
    var v := Settle(w, results, ok);
    assert v.history[..|v.history| - 1] == w.history;
    var o := v.history[|v.history| - 1];
    assert o.results == results;
    assert JustWithdrawal(o) by {
      if |results| == 1 {
        assert results == [results[0]];
      } else {
        assert results == [results[0], results[1]];
      }
    }
    assert forall i :: 0 <= i < |w.history| ==> v.history[i] == w.history[i];
    assert ok ==> results[|results| - 1] in v.history[|w.history|].results;
  }

  lemma StepKeepsInv(w: World, step: Step)
    requires Inv(w) && Enabled(w, step)
    ensures Inv(Next(w, step))
  {
    if step.Answer? {
      if w.inFlight.Confirming? {
        SettleKeepsInv(w, [TimedOut, step.result], step.result.Ready?);
      } else if !(step.result.TimedOut? && Serving(w)) {
        SettleKeepsInv(w, [step.result], step.result.Ready?);
      }
    }
  }

  ghost predicate Reaches(w: World, steps: seq<Step>, v: World)
    decreases |steps|
  {
    if steps == [] then v == w else Enabled(w, steps[0]) && Reaches(Next(w, steps[0]), steps[1..], v)
  }

  lemma {:induction false} RunKeepsInv(w: World, steps: seq<Step>, v: World)
    requires Inv(w) && Reaches(w, steps, v)
    ensures Inv(v)
    decreases |steps|
  {
    if steps != [] {
      StepKeepsInv(w, steps[0]);
      RunKeepsInv(Next(w, steps[0]), steps[1..], v);
    }
  }

  lemma InitialInv()
    ensures Inv(INITIAL)
  {
  }

  lemma InvMeans(v: World)
    requires Inv(v)
    ensures v.timer <==> v.started && !v.stopping
    ensures v.started ==> SawReady(v.history)
    ensures v.ready <==> !v.stopping && v.lastOk == Some(true)
    ensures v.fetches <= 2 * (|v.history| + 1)
    ensures forall i :: 0 <= i < |v.history| ==> JustWithdrawal(v.history[i]) && AtMostTwoProbes(v.history[i])
    ensures forall i :: 0 <= i < |v.history| ==> ConcludesRight(v.history[i])
    ensures LastOkIsTheLastResult(v.history, v.lastOk)
  {
    hide Probes, JustWithdrawal, AtMostTwoProbes, ConcludesRight, LastOkIsTheLastResult;
    ProbesAtMostTwice(v.history);
  }

  /** In every reachable state: the timer runs only while started and not stopping, the replica is not ready once
      stopping, and otherwise ready exactly when the last probe of the last observation said so; it never starts
      without a ready one. */
  lemma EveryReachableState(steps: seq<Step>, v: World)
    requires Reaches(INITIAL, steps, v)
    ensures v.timer <==> v.started && !v.stopping
    ensures v.started ==> SawReady(v.history)
    ensures v.ready <==> !v.stopping && v.lastOk == Some(true)
    ensures v.fetches <= 2 * (|v.history| + 1)
    ensures forall i :: 0 <= i < |v.history| ==> JustWithdrawal(v.history[i]) && AtMostTwoProbes(v.history[i])
    ensures forall i :: 0 <= i < |v.history| ==> ConcludesRight(v.history[i])
    ensures LastOkIsTheLastResult(v.history, v.lastOk)
  {
    hide Inv;
    InitialInv();
    RunKeepsInv(INITIAL, steps, v);
    InvMeans(v);
  }

  lemma {:induction false} ProbesAtMostTwice(history: seq<Observation>)
    requires forall i :: 0 <= i < |history| ==> AtMostTwoProbes(history[i])
    ensures Probes(history) <= 2 * |history|
  {
    if history != [] {
      ProbesAtMostTwice(history[..|history| - 1]);
    }
  }

  /** What the steps rest on, without the history. */
  predicate Sound(v: World) {
    && (v.ready <==> !v.stopping && v.lastOk == Some(true))
    && (v.started ==> v.starter.NotStarting?)
    && (v.starter.Awaiting? ==> v.inFlight.Probing? || v.inFlight.Confirming?)
    && (v.inFlight.Settled? ==> v.lastOk == Some(v.inFlight.ok))
  }

  lemma ReachableIsSound(steps: seq<Step>, v: World)
    requires Reaches(INITIAL, steps, v)
    ensures Sound(v)
  {
    hide Inv, Reaches, Sound;
    InitialInv();
    RunKeepsInv(INITIAL, steps, v);
    InvIsSound(v);
  }

  lemma InvIsSound(v: World)
    requires Inv(v)
    ensures Sound(v)
  {
    hide Probes, JustWithdrawal, AtMostTwoProbes, ConcludesRight, LastOkIsTheLastResult, SawReady;
  }

  /** READINESS FOLLOWS THE PROBES. In every reachable state, by step: a ready answer makes the replica ready unless it
      is stopping; an unavailable one, or a stop, takes it away; a missed deadline does too, unless the replica was
      ready, started and serving and this was the first probe, which is then, and only then, confirmed by a second;
      nothing else changes it. */
  lemma ReadinessFollowsProbes(steps: seq<Step>, v: World, step: Step)
    requires Reaches(INITIAL, steps, v) && Enabled(v, step)
    ensures var forgiven := v.ready && v.started && v.accepting && v.inFlight.Probing?;
      Next(v, step).ready == match step
        case Answer(Ready) => !v.stopping
        case Answer(Unavailable) => false
        case Answer(TimedOut) => forgiven
        case Stop => false
        case _ => v.ready
    ensures Next(v, step).inFlight.Confirming? && !v.inFlight.Confirming? <==>
      step == Answer(TimedOut) && v.ready && v.started && v.accepting && v.inFlight.Probing?
    ensures Next(v, step).fetches > v.fetches <==>
      || (step == Answer(TimedOut) && v.ready && v.started && v.accepting && v.inFlight.Probing?)
      || ((step.Tick? || step.Observe? || (step.Start? && !v.started && v.starter.NotStarting?))
          && !v.stopping && v.inFlight.Idle?)
  {
    ReachableIsSound(steps, v);
    hide Reaches;
  }

  /** STARTING. In every reachable state a start goes through exactly when the observation it waited for was ready and
      no stop has come in between; then the timer runs. */
  lemma StartsExactlyWhen(steps: seq<Step>, v: World, step: Step)
    requires Reaches(INITIAL, steps, v) && Enabled(v, step)
    ensures Next(v, step).started && !v.started <==> step.ResumeStart? && v.starter == Delivered(true) && !v.stopping
    ensures v.started && !Next(v, step).started <==> v.started && step.ResumeStop?
    ensures Next(v, step).starter != v.starter && Next(v, step).starter.Delivered? ==>
      Next(v, step).lastOk == Some(Next(v, step).starter.ok)
  {
    ReachableIsSound(steps, v);
    hide Reaches;
  }

  /** Stopping is final: whatever interleaves afterwards, nothing becomes ready, started or scheduled again, and no
      further probe is sent. */
  lemma {:induction false} StoppingIsFinal(w: World, steps: seq<Step>, v: World)
    requires Inv(w) && w.stopping && Reaches(w, steps, v)
    ensures v.stopping && !v.ready && !v.timer && v.fetches == w.fetches
    ensures v.started ==> w.started
    decreases |steps|
  {
    if steps != [] {
      StepKeepsInv(w, steps[0]);
      StoppingIsFinal(Next(w, steps[0]), steps[1..], v);
    }
  }

  lemma OneMore(w: World, steps: seq<Step>, v: World, step: Step)
    requires Reaches(w, steps, v) && Enabled(v, step)
    ensures Reaches(w, steps + [step], Next(v, step))
    decreases |steps|
  {
    hide Next, Enabled;
    if steps == [] {
      assert [] + [step] == [step] && [step][1..] == [];
      assert Reaches(Next(v, step), [], Next(v, step));
    } else {
      OneMore(Next(w, steps[0]), steps[1..], v, step);
      assert (steps + [step])[1..] == steps[1..] + [step];
    }
  }

  const STARTED := World(true, false, true, Some(true), Idle, NotStarting, 0, true, false, 1,
      [Observation([Ready], false, false, true)])

  /** Starting works: one ready answer. */
  lemma StartingWorks() returns (steps: seq<Step>)
    ensures Reaches(INITIAL, steps, STARTED)
  {
    var w1 := Next(INITIAL, Start);
    var w2 := Next(w1, Answer(Ready));
    var w3 := Next(w2, ClearInFlight);
    assert Next(w3, ResumeStart) == STARTED;
    assert Reaches(INITIAL, [], INITIAL);
    hide Reaches, Next;
    steps := [];
    OneMore(INITIAL, steps, INITIAL, Start);
    steps := steps + [Start];
    OneMore(INITIAL, steps, w1, Answer(Ready));
    steps := steps + [Answer(Ready)];
    OneMore(INITIAL, steps, w2, ClearInFlight);
    steps := steps + [ClearInFlight];
    OneMore(INITIAL, steps, w3, ResumeStart);
    steps := steps + [ResumeStart];
  }

  /** While it serves, one missed deadline leaves it ready, and a second one in the same observation does not. */
  lemma TwoMissedDeadlinesWithdraw() returns (steps: seq<Step>, v: World)
    ensures Reaches(INITIAL, steps, v) && v.started && !v.ready && !v.stopping && v.fetches == 3
    ensures v.history == STARTED.history + [Observation([TimedOut, TimedOut], true, true, false)]
  {
    steps := StartingWorks();
    var w1 := Next(STARTED, SetTraffic(true));
    var w2 := Next(w1, Tick);
    var w3 := Next(w2, Answer(TimedOut));
    assert w3.ready && w3.inFlight == Confirming;
    v := Next(w3, Answer(TimedOut));
    hide Reaches, Next;
    OneMore(INITIAL, steps, STARTED, SetTraffic(true));
    steps := steps + [SetTraffic(true)];
    OneMore(INITIAL, steps, w1, Tick);
    steps := steps + [Tick];
    OneMore(INITIAL, steps, w2, Answer(TimedOut));
    steps := steps + [Answer(TimedOut)];
    OneMore(INITIAL, steps, w3, Answer(TimedOut));
    steps := steps + [Answer(TimedOut)];
  }

  /** Stopping works: a stop ends once the observation under way has. */
  lemma StoppingWorks() returns (steps: seq<Step>, v: World)
    ensures Reaches(INITIAL, steps, v) && v.stopping && !v.started && !v.ready && !v.timer && v.stops == 0
  {
    steps := StartingWorks();
    var w1 := Next(STARTED, Observe);
    var w2 := Next(w1, Stop);
    var w3 := Next(w2, Answer(Ready));
    assert !Enabled(w2, ResumeStop);
    v := Next(w3, ResumeStop);
    hide Reaches, Next;
    OneMore(INITIAL, steps, STARTED, Observe);
    steps := steps + [Observe];
    OneMore(INITIAL, steps, w1, Stop);
    steps := steps + [Stop];
    OneMore(INITIAL, steps, w2, Answer(Ready));
    steps := steps + [Answer(Ready)];
    OneMore(INITIAL, steps, w3, ResumeStop);
    steps := steps + [ResumeStop];
  }
}
