/** That the listener does its work: who gets a slot, who becomes a session, and that a drain can end. */
module MilterProgress {
  import opened SeqTotal
  import opened MilterDrain

  lemma OneStep(cap: nat, steps: seq<Step>, step: Step)
    ensures Run(cap, steps + [step]) == Apply(cap, Run(cap, steps), step)
  {
    hide Apply;
    assert (steps + [step])[..|steps|] == steps;
  }

  /** The connections that have not given back their slot. */
  function HeldAt(conns: seq<Conn>): set<nat> {
    set i | 0 <= i < |conns| && !conns[i].released
  }

  lemma SlotsAreHeld(conns: seq<Conn>)
    ensures Total(conns, Holds) == |HeldAt(conns)|
  {
    TotalCounts(conns, Holds, (c: Conn) => !c.released);
    assert HeldAt(conns) == Where(conns, (c: Conn) => !c.released);
  }

  /** In every run an accept gets a slot exactly when fewer connections than the cap hold one; so a slot that is given
      back can be taken again. */
  lemma SlotsAreTakenExactly(cap: nat, steps: seq<Step>)
    ensures var l, m := Run(cap, steps), Run(cap, steps + [TakeSlot]);
            if |HeldAt(l.conns)| < cap then m.conns == l.conns + [Conn(Slotted, false, false)] else m == l
  {
    hide Run;
    RunKeepsInv(cap, steps);
    SlotsAreHeld(Run(cap, steps).conns);
    OneStep(cap, steps, TakeSlot);
  }

  /** A connection that the inner listener accepts becomes a session exactly when the listener is not stopping, and
      holds its slot either way until it is closed. */
  lemma SessionsExactly(cap: nat, steps: seq<Step>, i: nat)
    requires i < |Run(cap, steps).conns| && Run(cap, steps).conns[i].phase.Accepted?
    ensures var l, m := Run(cap, steps), Run(cap, steps + [Register(i)]);
            && |m.conns| == |l.conns| && !m.conns[i].released
            && m.conns[i].phase == (if l.stopping then Refused else Session)
            && OpenAt(m.conns) == (if l.stopping then OpenAt(l.conns) else OpenAt(l.conns) + {i})
            && forall k :: 0 <= k < |l.conns| && k != i ==> m.conns[k] == l.conns[k]
  {
    hide Run, Total;
    RunKeepsInv(cap, steps);
    var l := Run(cap, steps);
    assert ConnOk(l.conns[i]);
    OneStep(cap, steps, Register(i));
  }

  /** A closed connection has given back its slot, and a closed session is counted no more; closing it again changes
      nothing. */
  lemma ClosingIsIdempotent(cap: nat, steps: seq<Step>, i: nat)
    requires i < |Run(cap, steps).conns|
    requires Run(cap, steps).conns[i].phase.Session? || Run(cap, steps).conns[i].phase.Refused?
    ensures var m := Run(cap, steps + [Release(i)] + [Uncount(i)]);
            && i < |m.conns| && m.conns[i].released && i !in HeldAt(m.conns) && i !in OpenAt(m.conns)
            && Apply(cap, Apply(cap, m, Release(i)), Uncount(i)) == m
  {
    hide Run, Total;
    RunKeepsInv(cap, steps);
    var l := Run(cap, steps);
    assert ConnOk(l.conns[i]);
    OneStep(cap, steps, Release(i));
    OneStep(cap, steps + [Release(i)], Uncount(i));
  }

  predicate Closes(step: Step) {
    step.Release? || step.Uncount?
  }

  /** A drain can always end: a stopping listener becomes idle once its sessions have closed. */
  lemma {:induction false} DrainCanEnd(cap: nat, steps: seq<Step>) returns (more: seq<Step>)
    requires Run(cap, steps).stopping
    ensures forall k :: 0 <= k < |more| ==> Closes(more[k])
    ensures Run(cap, steps + more).stopping && Run(cap, steps + more).idled
    decreases |OpenAt(Run(cap, steps).conns)|
  {
    hide Run, Apply, Inv;
    var l := Run(cap, steps);
    if i :| i in OpenAt(l.conns) {
      OpenIsSession(l.conns, i);
      var closed := steps + [Release(i)] + [Uncount(i)];
      ClosingIsIdempotent(cap, steps, i);
      ClosingCloses(cap, steps, i);
      var rest := DrainCanEnd(cap, closed);
      more := [Release(i)] + [Uncount(i)] + rest;
      assert steps + more == closed + rest;
    } else {
      more := [];
      assert steps + more == steps;
      OpenIsExact(cap, steps);
      IdleWhenEmpty(cap, steps);
    }
  }

  lemma OpenIsSession(conns: seq<Conn>, i: nat)
    requires i in OpenAt(conns)
    ensures i < |conns| && conns[i].phase.Session?
  {
  }

  lemma IdleWhenEmpty(cap: nat, steps: seq<Step>)
    requires Run(cap, steps).stopping && Run(cap, steps).open == 0
    ensures Run(cap, steps).idled
  {
    hide Run;
    RunKeepsInv(cap, steps);
  }

  lemma ClosingCloses(cap: nat, steps: seq<Step>, i: nat)
    requires i in OpenAt(Run(cap, steps).conns) && Run(cap, steps).stopping
    ensures var m := Run(cap, steps + [Release(i)] + [Uncount(i)]);
            m.stopping && |OpenAt(m.conns)| < |OpenAt(Run(cap, steps).conns)|
  {
    hide Run, Total;
    RunKeepsInv(cap, steps);
    var l := Run(cap, steps);
    assert ConnOk(l.conns[i]);
    OneStep(cap, steps, Release(i));
    OneStep(cap, steps + [Release(i)], Uncount(i));
    assert OpenAt(Run(cap, steps + [Release(i)] + [Uncount(i)]).conns) == OpenAt(l.conns) - {i};
  }
}
