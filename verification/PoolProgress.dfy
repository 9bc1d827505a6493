/** That the pool does its work: who gets a slot, whose result is taken, and that every call ends. */
module PoolProgress {
  import opened SeqTotal
  import opened WorkerPool

  /* ---------------------------------------------------------------- slots */

  /** The calls whose worker is not gone. */
  function Occupied(calls: seq<Call>): set<nat> {
    set i | 0 <= i < |calls| && !calls[i].worker.Gone?
  }

  lemma SlotsAreOccupied(calls: seq<Call>)
    ensures Total(calls, Slots) == |Occupied(calls)|
  {
    TotalCounts(calls, Slots, (c: Call) => !c.worker.Gone?);
    assert Occupied(calls) == Where(calls, (c: Call) => !c.worker.Gone?);
  }

  /** In every run a call starts exactly when fewer workers than the limit are around; otherwise it is refused, and
      nothing but the count of refusals changes. */
  lemma AcquiresExactly(limit: nat, steps: seq<Step>)
    ensures var p := Run(limit, EMPTY, steps);
            var q := Run(limit, EMPTY, steps + [Acquire]);
            if |Occupied(p.calls)| < limit then q.calls == p.calls + [STARTED] && q.refused == p.refused
            else q == p.(refused := p.refused + 1)
  {
    hide Run;
    RunKeepsInv(limit, steps);
    SlotsAreOccupied(Run(limit, EMPTY, steps).calls);
    OneStep(limit, steps, Acquire);
  }

  /* ---------------------------------------------------------------- results */

  /** The result is in the channel and its caller has not looked away, or it has been taken. */
  predicate InReach(c: Call) {
    c.caller == Returned(true, false) || ((c.caller.Waiting? || c.caller.Fired?) && c.inChannel > 0)
  }

  lemma StaysInReach(c: Call, step: Step)
    requires CallOk(c) && InReach(c)
    ensures InReach(CallAfter(c, step))
  {
  }

  /** A result that is sent before the caller looks is never reported as a stall, even when the timer has fired: in
      every continuation the caller still waits for it or has it. */
  lemma {:induction false} ReadyResultIsTaken(limit: nat, steps: seq<Step>, more: seq<Step>, i: nat)
    requires i < |Run(limit, EMPTY, steps).calls| && InReach(Run(limit, EMPTY, steps).calls[i])
    ensures var q := Run(limit, EMPTY, steps + more);
            i < |q.calls| && InReach(q.calls[i]) && (q.calls[i].caller.Returned? ==> q.calls[i].caller.got)
    decreases |more|
  {
    hide Run, CallAfter, CallOk;
    if more == [] {
      assert steps + more == steps;
    } else {
      var front, last := more[..|more| - 1], more[|more| - 1];
      ReadyResultIsTaken(limit, steps, front, i);
      assert steps + more == steps + front + [last];
      OneStep(limit, steps + front, last);
      RunKeepsInv(limit, steps + front);
      StaysInReach(Run(limit, EMPTY, steps + front).calls[i], last);
    }
  }

  /* ---------------------------------------------------------------- endings */

  /** How many steps a call still has before it. */
  function WorkLeft(c: Call): int {
    (match c.caller case Waiting => 4 case Fired => 3 case GivingUp => 2 case Raising => 1 case Returned(_, _) => 0)
    + (match c.worker
       case Decoding => 5 case Sent => 4 case Lowering => 3 case Settled => 2 case Unlisted => 1 case Gone => 0)
  }

  /** Every step that does anything brings its call nearer to its end, so no run without new calls goes on for ever. */
  lemma StepsAdvance(c: Call, step: Step)
    requires CallAfter(c, step) != c
    ensures 0 <= WorkLeft(CallAfter(c, step)) < WorkLeft(c)
  {
  }

  /** A step that an unfinished call can always take. */
  function NextStep(c: Call, i: nat): (step: Step)
    requires CallOk(c) && !(c.caller.Returned? && c.worker.Gone?)
    ensures !step.Acquire? && step.i == i && CallAfter(c, step) != c
  {
    match c.worker
    case Decoding => DecoderEnds(i)
    case Sent => WorkerSwaps(i)
    case Lowering => WorkerLowers(i)
    case Settled => WorkerUnlists(i)
    case Unlisted => WorkerReleases(i)
    case Gone =>
      match c.caller
      case Waiting => TimerFires(i)
      case Fired => if c.inChannel > 0 then CallerReceives(i) else FindsEmpty(i)
      case GivingUp => CallerSwaps(i)
      case _ => CallerRaises(i)
  }

  lemma WorkIsPositive(calls: seq<Call>)
    ensures Total(calls, WorkLeft) >= 0
  {
    NothingTotals(calls, Nothing);
    TotalsCompare(calls, Nothing, WorkLeft);
  }

  /** Nobody is stuck: every run can be continued, without another call, to where every caller has returned, every
      worker is gone and the pool is empty. */
  lemma {:induction false} EveryCallEnds(limit: nat, steps: seq<Step>) returns (more: seq<Step>)
    ensures forall k :: 0 <= k < |more| ==> !more[k].Acquire?
    ensures var q := Run(limit, EMPTY, steps + more);
            && |q.calls| == |Run(limit, EMPTY, steps).calls|
            && (forall i :: 0 <= i < |q.calls| ==> q.calls[i].caller.Returned? && q.calls[i].worker.Gone?)
            && q.slots == 0 && q.live == 0 && q.abandoned == 0
    decreases Total(Run(limit, EMPTY, steps).calls, WorkLeft)
  {
    hide Run, Total, CallOk, CallAfter, WorkLeft;
    var p := Run(limit, EMPTY, steps);
    RunKeepsInv(limit, steps);
    WorkIsPositive(p.calls);
    if i :| 0 <= i < |p.calls| && !(p.calls[i].caller.Returned? && p.calls[i].worker.Gone?) {
      var step := NextStep(p.calls[i], i);
      OneStep(limit, steps, step);
      StepsAdvance(p.calls[i], step);
      TotalUpdate(p.calls, WorkLeft, i, CallAfter(p.calls[i], step));
      WorkIsPositive(Run(limit, EMPTY, steps + [step]).calls);
      var rest := EveryCallEnds(limit, steps + [step]);
      more := [step] + rest;
      assert steps + more == steps + [step] + rest;
    } else {
      more := [];
      assert steps + more == steps;
      QuietPoolIsEmpty(limit, steps);
    }
  }
}
