/** The pool of uncancellable decoders: a caller and its worker race under a watchdog, in every interleaving.

    Each call has a caller, who waits for a result until a timer fires, and a worker, who runs the decoder,
    sends one result over a channel of capacity one and then settles.  Both race to change one flag. */
module WorkerPool {
  import opened SeqTotal

  datatype Flag = Running | Abandoned | Done

  /** Waiting for the result; the timer fired; the channel was empty; the flag was changed but the gauge not
      yet raised; returned. */
  datatype Caller = Waiting | Fired | GivingUp | Raising | Returned(got: bool, stalled: bool)

  /** In the decoder; result sent; flag settled with the gauge still to lower; settled; no longer live; slot
      released. */
  datatype Worker = Decoding | Sent | Lowering | Settled | Unlisted | Gone

  /** `inChannel` counts the results in the channel; `raised` and `lowered` record this call's moves of the
      abandoned gauge; `releases` counts how often its slot was released. */
  datatype Call = Call(caller: Caller, worker: Worker, flag: Flag, inChannel: nat, raised: nat, lowered: nat,
                       releases: nat)

  datatype Pool = Pool(slots: int, live: int, abandoned: int, refused: nat, calls: seq<Call>)

  const EMPTY: Pool := Pool(0, 0, 0, 0, [])
  const STARTED: Call := Call(Waiting, Decoding, Running, 0, 0, 0, 0)
  const CAPACITY: nat := 1

  datatype Step =
    | Acquire
    // the worker: the decoder returns or panics, and a result or the zero value is sent either way
    | DecoderEnds(i: nat)
    | WorkerSwaps(i: nat)
    | WorkerLowers(i: nat)
    | WorkerUnlists(i: nat)
    | WorkerReleases(i: nat)
    // the caller
    | CallerReceives(i: nat)
    | TimerFires(i: nat)
    | FindsEmpty(i: nat)
    | CallerSwaps(i: nat)
    | CallerRaises(i: nat)

  /** What the step makes of its call, or the call itself when it is not enabled. */
  function CallAfter(c: Call, step: Step): Call {
    match step
    case Acquire => c
    case DecoderEnds(_) =>
      if c.worker.Decoding? && c.inChannel < CAPACITY then c.(worker := Sent, inChannel := c.inChannel + 1) else c
    case WorkerSwaps(_) =>
      if !c.worker.Sent? then c
      else if c.flag.Running? then c.(worker := Settled, flag := Done)
      else c.(worker := Lowering)
    case WorkerLowers(_) => if c.worker.Lowering? then c.(worker := Settled, lowered := c.lowered + 1) else c
    case WorkerUnlists(_) => if c.worker.Settled? then c.(worker := Unlisted) else c
    case WorkerReleases(_) => if c.worker.Unlisted? then c.(worker := Gone, releases := c.releases + 1) else c
    case CallerReceives(_) =>
      if (c.caller.Waiting? || c.caller.Fired?) && c.inChannel > 0
      then c.(caller := Returned(true, false), inChannel := c.inChannel - 1) else c
    case TimerFires(_) => if c.caller.Waiting? then c.(caller := Fired) else c
    case FindsEmpty(_) => if c.caller.Fired? && c.inChannel == 0 then c.(caller := GivingUp) else c
    case CallerSwaps(_) =>
      if !c.caller.GivingUp? then c
      else if c.flag.Running? then c.(caller := Raising, flag := Abandoned)
      else c.(caller := Returned(false, true))
    case CallerRaises(_) => if c.caller.Raising? then c.(caller := Returned(false, true), raised := c.raised + 1) else c
  }

  function Apply(limit: nat, p: Pool, step: Step): Pool {
    match step
    case Acquire =>
      if p.slots >= limit then p.(refused := p.refused + 1)
      else Pool(p.slots + 1, p.live + 1, p.abandoned, p.refused, p.calls + [STARTED])
    case _ =>
      if step.i >= |p.calls| || CallAfter(p.calls[step.i], step) == p.calls[step.i] then p
      else
        var next := p.(calls := p.calls[step.i := CallAfter(p.calls[step.i], step)]);
        match step
        case WorkerLowers(_) => next.(abandoned := p.abandoned - 1)
        case WorkerUnlists(_) => next.(live := p.live - 1)
        case WorkerReleases(_) => next.(slots := p.slots - 1)
        case CallerRaises(_) => next.(abandoned := p.abandoned + 1)
        case _ => next
  }

  function Run(limit: nat, p: Pool, steps: seq<Step>): Pool {
    if steps == [] then p else Apply(limit, Run(limit, p, steps[..|steps| - 1]), steps[|steps| - 1])
  }

  /* ---------------------------------------------------------------- one call */

  /** The two sides agree on the flag and on the gauge, the channel is free until the decoder ends, and the
      slot is released exactly when the worker is gone. */
  predicate CallOk(c: Call) {
    && (c.worker.Decoding? ==> c.inChannel == 0 && !c.flag.Done? && !(c.caller.Returned? && c.caller.got))
    && (c.worker.Sent? ==> !c.flag.Done?)
    && (c.worker.Lowering? ==> c.flag.Abandoned?)
    && (c.flag.Running? ==> c.worker.Decoding? || c.worker.Sent?)
    && c.inChannel <= CAPACITY
    && (c.flag.Abandoned? ==> c.caller.Raising? || c.caller == Returned(false, true))
    && (c.caller.Raising? ==> c.flag.Abandoned?)
    && (c.caller == Returned(false, true) ==> c.flag.Abandoned? || c.flag.Done?)
    && c.raised == (if c.flag.Abandoned? && c.caller.Returned? then 1 else 0)
    && c.lowered == (if c.flag.Abandoned? && (c.worker.Settled? || c.worker.Unlisted? || c.worker.Gone?) then 1 else 0)
    && c.releases == (if c.worker.Gone? then 1 else 0)
    && !(c.caller.Returned? && c.caller.got && c.caller.stalled) &&
       !(c.caller.Returned? && !c.caller.got && !c.caller.stalled)
  }

  lemma CallStaysOk(c: Call, step: Step)
    requires CallOk(c)
    ensures CallOk(CallAfter(c, step))
  {
  }

  /** A worker is never blocked: when its decoder ends, the channel has room. */
  lemma SendNeverBlocks(c: Call)
    requires CallOk(c) && c.worker.Decoding?
    ensures CallAfter(c, DecoderEnds(0)).worker == Sent
  {
  }

  /* ---------------------------------------------------------------- the pool */

  function Slots(c: Call): int { if c.worker.Gone? then 0 else 1 }

  function Live(c: Call): int { if c.worker.Unlisted? || c.worker.Gone? then 0 else 1 }

  function Gauge(c: Call): int { c.raised - c.lowered }

  /** The counters are sums over the calls, and the slots stay within the limit. */
  ghost predicate Inv(limit: nat, p: Pool) {
    && (forall i :: 0 <= i < |p.calls| ==> CallOk(p.calls[i]))
    && p.slots == Total(p.calls, Slots) <= limit
    && p.live == Total(p.calls, Live)
    && p.abandoned == Total(p.calls, Gauge)
  }

  lemma StartedCounts()
    ensures CallOk(STARTED) && Slots(STARTED) == 1 && Live(STARTED) == 1 && Gauge(STARTED) == 0
  {
  }

  lemma AcquireKeepsInv(limit: nat, p: Pool)
    requires Inv(limit, p)
    ensures Inv(limit, Apply(limit, p, Acquire))
  {
    hide Total, CallOk, Slots, Live, Gauge;
    StartedCounts();
    TotalAppend(p.calls, Slots, STARTED);
    TotalAppend(p.calls, Live, STARTED);
    TotalAppend(p.calls, Gauge, STARTED);
  }

  /** What a step does to its call is what it does to the counters. */
  lemma StepBalances(c: Call, step: Step)
    requires CallOk(c) && !step.Acquire? && CallAfter(c, step) != c
    ensures var d := CallAfter(c, step);
            && Slots(d) - Slots(c) == (if step.WorkerReleases? then -1 else 0)
            && Live(d) - Live(c) == (if step.WorkerUnlists? then -1 else 0)
            && Gauge(d) - Gauge(c) == (if step.WorkerLowers? then -1 else if step.CallerRaises? then 1 else 0)
  {
  }

  lemma StepKeepsInv(limit: nat, p: Pool, step: Step)
    requires Inv(limit, p)
    ensures Inv(limit, Apply(limit, p, step))
  {
    hide CallOk, CallAfter, Slots, Live, Gauge, Total;
    if step.Acquire? {
      AcquireKeepsInv(limit, p);
    } else if step.i < |p.calls| && CallAfter(p.calls[step.i], step) != p.calls[step.i] {
      var c, i := p.calls[step.i], step.i;
      var d := CallAfter(c, step);
      CallStaysOk(c, step);
      StepBalances(c, step);
      TotalUpdate(p.calls, Slots, i, d);
      TotalUpdate(p.calls, Live, i, d);
      TotalUpdate(p.calls, Gauge, i, d);
    }
  }

  lemma {:induction false} RunKeepsInv(limit: nat, steps: seq<Step>)
    ensures Inv(limit, Run(limit, EMPTY, steps))
  {
    hide Apply;
    if steps != [] {
      RunKeepsInv(limit, steps[..|steps| - 1]);
      StepKeepsInv(limit, Run(limit, EMPTY, steps[..|steps| - 1]), steps[|steps| - 1]);
    }
  }

  /* ---------------------------------------------------------------- theorems */

  function InDecoder(c: Call): int { if c.worker.Decoding? then 1 else 0 }

  /** Decoders that are still running, abandoned ones included, never exceed the limit. */
  lemma {:induction false} DecodersAreBounded(limit: nat, steps: seq<Step>)
    ensures Total(Run(limit, EMPTY, steps).calls, InDecoder) <= limit
  {
    RunKeepsInv(limit, steps);
    TotalsCompare(Run(limit, EMPTY, steps).calls, InDecoder, Slots);
  }

  /** A slot is released at most once, only after its decoder has ended, and never before its result is sent. */
  lemma {:induction false} SlotsAreFreedOnce(limit: nat, steps: seq<Step>, i: nat)
    requires i < |Run(limit, EMPTY, steps).calls|
    ensures var c := Run(limit, EMPTY, steps).calls[i];
            c.releases <= 1 && (c.releases == 1 <==> c.worker.Gone?) && (c.worker.Decoding? ==> c.releases == 0)
  {
    RunKeepsInv(limit, steps);
    assert CallOk(Run(limit, EMPTY, steps).calls[i]);
  }

  ghost predicate Quiet(p: Pool) {
    forall i :: 0 <= i < |p.calls| ==> p.calls[i].caller.Returned? && p.calls[i].worker.Gone?
  }

  /** When every caller has returned and every worker is gone, no slot is held, nothing is live, and the
      abandoned gauge is back at zero. */
  lemma {:induction false} QuietPoolIsEmpty(limit: nat, steps: seq<Step>)
    requires Quiet(Run(limit, EMPTY, steps))
    ensures var p := Run(limit, EMPTY, steps); p.slots == 0 && p.live == 0 && p.abandoned == 0
  {
    RunKeepsInv(limit, steps);
    var p := Run(limit, EMPTY, steps);
    forall i | 0 <= i < |p.calls| ensures Slots(p.calls[i]) == 0 && Live(p.calls[i]) == 0 && Gauge(p.calls[i]) == 0 {
      assert CallOk(p.calls[i]);
    }
    NothingTotals(p.calls, Slots);
    NothingTotals(p.calls, Live);
    NothingTotals(p.calls, Gauge);
  }

  /** A caller that reports a stall got no result; one that got a result reports no stall, even when the timer
      fired at the same time. */
  lemma {:induction false} OutcomesAreExclusive(limit: nat, steps: seq<Step>, i: nat)
    requires i < |Run(limit, EMPTY, steps).calls| && Run(limit, EMPTY, steps).calls[i].caller.Returned?
    ensures var c := Run(limit, EMPTY, steps).calls[i].caller; c.got <==> !c.stalled
  {
    RunKeepsInv(limit, steps);
    assert CallOk(Run(limit, EMPTY, steps).calls[i]);
  }

  predicate Settling(c: Call) {
    c.worker.Settled? || c.worker.Unlisted? || c.worker.Gone?
  }

  /** Given up and counted, and its decoder is still at work. */
  function Counted(c: Call): int { if c.flag.Abandoned? && c.caller.Returned? && !Settling(c) then 1 else 0 }

  /** Given up, and its decoder has come back before the caller could count it. */
  function Early(c: Call): int { if c.caller.Raising? && Settling(c) then 1 else 0 }

  function CountedLessEarly(c: Call): int { Counted(c) - Early(c) }

  /** In every run the gauge is the number of calls given up whose decoder is still at work, less those that are
      not counted yet and whose decoder is back; so that is exactly when it is negative. */
  lemma {:induction false} GaugeIsExact(limit: nat, steps: seq<Step>)
    ensures var p := Run(limit, EMPTY, steps);
            && p.abandoned == Total(p.calls, Counted) - Total(p.calls, Early)
            && (p.abandoned < 0 <==> Total(p.calls, Counted) < Total(p.calls, Early))
            && 0 <= Total(p.calls, Counted) <= limit
  {
    RunKeepsInv(limit, steps);
    var p := Run(limit, EMPTY, steps);
    forall i | 0 <= i < |p.calls| ensures Gauge(p.calls[i]) == CountedLessEarly(p.calls[i]) {
      assert CallOk(p.calls[i]);
    }
    TotalsCompare(p.calls, Gauge, CountedLessEarly);
    TotalsCompare(p.calls, CountedLessEarly, Gauge);
    TotalsSubtract(p.calls, CountedLessEarly, Counted, Early);
    TotalsCompare(p.calls, Counted, Slots);
    NothingTotals(p.calls, Nothing);
    TotalsCompare(p.calls, Nothing, Counted);
  }

  function Nothing(c: Call): int { 0 }

  /** The gauge can dip below zero only while a caller is between its swap and its raise. */
  lemma {:induction false} GaugeDipsOnlyInBetween(limit: nat, steps: seq<Step>)
    requires forall i :: 0 <= i < |Run(limit, EMPTY, steps).calls| ==>
             !Run(limit, EMPTY, steps).calls[i].caller.Raising?
    ensures 0 <= Run(limit, EMPTY, steps).abandoned <= limit
  {
    GaugeIsExact(limit, steps);
    NothingTotals(Run(limit, EMPTY, steps).calls, Early);
  }

  lemma OneStep(limit: nat, steps: seq<Step>, step: Step)
    ensures Run(limit, EMPTY, steps + [step]) == Apply(limit, Run(limit, EMPTY, steps), step)
  {
    hide Apply;
    assert (steps + [step])[..|steps|] == steps;
  }

  /** A step of the only call there is. */
  lemma SoloStep(limit: nat, abandoned: int, c: Call, step: Step)
    requires !step.Acquire? && step.i == 0 && !step.WorkerUnlists? && !step.WorkerReleases? && CallAfter(c, step) != c
    ensures Apply(limit, Pool(1, 1, abandoned, 0, [c]), step)
         == Pool(1, 1, abandoned + (if step.WorkerLowers? then -1 else if step.CallerRaises? then 1 else 0), 0,
                 [CallAfter(c, step)])
  {
    hide CallAfter;
    assert [c][0 := CallAfter(c, step)] == [CallAfter(c, step)];
  }

  /** The timer fires and the caller gives up: it has changed the flag and not yet raised the gauge. */
  lemma GivesUp(limit: nat)
    requires limit > 0
    ensures Run(limit, EMPTY, [Acquire, TimerFires(0), FindsEmpty(0), CallerSwaps(0)])
         == Pool(1, 1, 0, 0, [STARTED.(caller := Raising, flag := Abandoned)])
  {
    hide Run;
    var s := [Acquire];
    assert Run(limit, EMPTY, []) == EMPTY by { RunNothing(limit); }
    OneStep(limit, [], Acquire);
    assert [] + s == s && [] + [STARTED] == [STARTED];
    OneStep(limit, s, TimerFires(0));
    SoloStep(limit, 0, STARTED, TimerFires(0));
    OneStep(limit, s + [TimerFires(0)], FindsEmpty(0));
    SoloStep(limit, 0, STARTED.(caller := Fired), FindsEmpty(0));
    OneStep(limit, s + [TimerFires(0)] + [FindsEmpty(0)], CallerSwaps(0));
    SoloStep(limit, 0, STARTED.(caller := GivingUp), CallerSwaps(0));
    assert s + [TimerFires(0)] + [FindsEmpty(0)] + [CallerSwaps(0)]
           == [Acquire, TimerFires(0), FindsEmpty(0), CallerSwaps(0)];
  }

  lemma RunNothing(limit: nat)
    ensures Run(limit, EMPTY, []) == EMPTY
  {
  }

  /** And it does: the worker comes back and lowers the gauge before a caller that gave up raises it. */
  lemma GaugeDips(limit: nat)
    requires limit > 0
    ensures exists steps :: Run(limit, EMPTY, steps).abandoned == -1
  {
    hide Run, Apply;
    GivesUp(limit);
    var s := [Acquire, TimerFires(0), FindsEmpty(0), CallerSwaps(0)];
    var c := STARTED.(caller := Raising, flag := Abandoned);
    OneStep(limit, s, DecoderEnds(0));
    SoloStep(limit, 0, c, DecoderEnds(0));
    OneStep(limit, s + [DecoderEnds(0)], WorkerSwaps(0));
    SoloStep(limit, 0, c.(worker := Sent, inChannel := 1), WorkerSwaps(0));
    OneStep(limit, s + [DecoderEnds(0)] + [WorkerSwaps(0)], WorkerLowers(0));
    SoloStep(limit, 0, c.(worker := Lowering, inChannel := 1), WorkerLowers(0));
    assert Run(limit, EMPTY, s + [DecoderEnds(0)] + [WorkerSwaps(0)] + [WorkerLowers(0)]).abandoned == -1;
  }
}
