/** The milter's listeners: a cap on open connections and a drain at shutdown, in every interleaving of
    accepts, closes and the shutdown itself. */
module MilterDrain {
  import opened SeqTotal

  /** A slot was taken and the accept is pending; the inner accept failed; it succeeded; the listener was
      stopping, so the connection is refused; it became a session. */
  datatype Phase = Slotted | Dropped | Accepted | Refused | Session

  /** `released` and `uncounted` are the two once-only guards. */
  datatype Conn = Conn(phase: Phase, released: bool, uncounted: bool)

  /** `slots` are the semaphore's, `open` counts sessions; `idleCloses` counts how often the idle channel was
      closed (a second time would panic). */
  datatype Listener = Listener(slots: int, open: int, stopping: bool, idled: bool, idleCloses: nat, conns: seq<Conn>)

  const FRESH: Listener := Listener(0, 0, false, false, 0, [])

  datatype Step =
    | TakeSlot
    | InnerFails(i: nat)
    | InnerAccepts(i: nat)
    | Register(i: nat)
    | Release(i: nat)     // any call of Close on the connection, any number of times
    | Uncount(i: nat)     // the same call's second half
    | Stop

  /** Closes the idle channel once the listener is stopping with no session open; the caller holds the lock. */
  function SignalIdle(l: Listener): Listener {
    if l.stopping && l.open == 0 && !l.idled then l.(idled := true, idleCloses := l.idleCloses + 1) else l
  }

  function ConnAfter(c: Conn, step: Step, stopping: bool): Conn {
    match step
    case InnerFails(_) => if c.phase.Slotted? then c.(phase := Dropped, released := true) else c
    case InnerAccepts(_) => if c.phase.Slotted? then c.(phase := Accepted) else c
    case Register(_) => if c.phase.Accepted? then c.(phase := if stopping then Refused else Session) else c
    case Release(_) => if c.phase.Refused? || c.phase.Session? then c.(released := true) else c
    case Uncount(_) => if c.phase.Session? && c.released then c.(uncounted := true) else c
    case _ => c
  }

  /** Whether the connection holds a slot, and whether it is a counted session. */
  function Holds(c: Conn): int { if c.released then 0 else 1 }

  predicate OpenSession(c: Conn) { c.phase.Session? && !c.uncounted }

  function Counted(c: Conn): int { if OpenSession(c) then 1 else 0 }

  function Apply(cap: nat, l: Listener, step: Step): Listener {
    match step
    case TakeSlot =>
      if l.slots >= cap then l
      else l.(slots := l.slots + 1, conns := l.conns + [Conn(Slotted, false, false)])
    case Stop => SignalIdle(l.(stopping := true))
    case _ =>
      if step.i >= |l.conns| || ConnAfter(l.conns[step.i], step, l.stopping) == l.conns[step.i] then l
      else
        var c := l.conns[step.i];
        var next := l.(conns := l.conns[step.i := ConnAfter(c, step, l.stopping)]);
        match step
        case InnerFails(_) => next.(slots := l.slots - 1)
        case Release(_) => next.(slots := l.slots - 1)
        case Register(_) => if l.stopping then next else next.(open := l.open + 1)
        case Uncount(_) => SignalIdle(next.(open := l.open - 1))
        case _ => next
  }

  function Run(cap: nat, steps: seq<Step>): Listener {
    if steps == [] then FRESH else Apply(cap, Run(cap, steps[..|steps| - 1]), steps[|steps| - 1])
  }

  /* ---------------------------------------------------------------- invariant */

  predicate ConnOk(c: Conn) {
    && (c.phase.Slotted? || c.phase.Accepted? ==> !c.released)
    && (c.phase.Dropped? ==> c.released)
    && (c.uncounted ==> c.phase.Session? && c.released)
  }

  ghost predicate Inv(cap: nat, l: Listener) {
    && (forall i :: 0 <= i < |l.conns| ==> ConnOk(l.conns[i]))
    && l.slots == Total(l.conns, Holds) <= cap
    && l.open == Total(l.conns, Counted)
    && (l.idled <==> l.stopping && l.open == 0)
    && l.idleCloses == (if l.idled then 1 else 0)
  }

  lemma {:induction false} CountedIsPositive(conns: seq<Conn>)
    ensures Total(conns, Counted) >= 0
    ensures Total(conns, Counted) == 0 <==> forall i :: 0 <= i < |conns| ==> Counted(conns[i]) == 0
  {
    if conns != [] {
      var front, last := conns[..|conns| - 1], conns[|conns| - 1];
      CountedIsPositive(front);
      if forall i :: 0 <= i < |front| ==> Counted(front[i]) == 0 {
      } else {
        var i :| 0 <= i < |front| && Counted(front[i]) != 0;
        assert Counted(conns[i]) != 0;
      }
    }
  }

  lemma StepBalances(c: Conn, step: Step, stopping: bool)
    requires ConnOk(c) && !step.TakeSlot? && !step.Stop? && ConnAfter(c, step, stopping) != c
    ensures var d := ConnAfter(c, step, stopping);
            && ConnOk(d)
            && Holds(d) - Holds(c) == (if step.InnerFails? || step.Release? then -1 else 0)
            && Counted(d) - Counted(c) == (if step.Register? && !stopping then 1 else if step.Uncount? then -1 else 0)
  {
  }

  lemma TakeKeepsInv(cap: nat, l: Listener)
    requires Inv(cap, l)
    ensures Inv(cap, Apply(cap, l, TakeSlot))
  {
    hide Total;
    TotalAppend(l.conns, Holds, Conn(Slotted, false, false));
    TotalAppend(l.conns, Counted, Conn(Slotted, false, false));
  }

  lemma StepKeepsInv(cap: nat, l: Listener, step: Step)
    requires Inv(cap, l)
    ensures Inv(cap, Apply(cap, l, step))
  {
    if step.TakeSlot? {
      TakeKeepsInv(cap, l);
    } else if !step.Stop? && step.i < |l.conns| && ConnAfter(l.conns[step.i], step, l.stopping) != l.conns[step.i] {
      hide ConnAfter, ConnOk, Holds, Counted, Total;
      var c, i := l.conns[step.i], step.i;
      var d := ConnAfter(c, step, l.stopping);
      StepBalances(c, step, l.stopping);
      TotalUpdate(l.conns, Holds, i, d);
      TotalUpdate(l.conns, Counted, i, d);
      if step.Uncount? {
        OpenSessions(l.conns, i, d);
      }
    }
  }

  /** A session that ends was open, so a stopping listener with one was not idle. */
  lemma OpenSessions(conns: seq<Conn>, i: nat, d: Conn)
    requires i < |conns| && Counted(d) - Counted(conns[i]) == -1
    ensures Total(conns, Counted) > 0
  {
    CountedIsPositive(conns);
  }

  lemma {:induction false} RunKeepsInv(cap: nat, steps: seq<Step>)
    ensures Inv(cap, Run(cap, steps))
  {
    hide Apply;
    if steps != [] {
      RunKeepsInv(cap, steps[..|steps| - 1]);
      StepKeepsInv(cap, Run(cap, steps[..|steps| - 1]), steps[|steps| - 1]);
    }
  }

  /* ---------------------------------------------------------------- theorems */

  /** The idle channel is closed exactly when the listener is stopping and every session that was ever accepted
      has closed, and it is never closed twice; slots in use never exceed the cap, however often connections are
      closed. */
  lemma {:induction false} DrainIsExact(cap: nat, steps: seq<Step>)
    ensures var l := Run(cap, steps);
            && l.slots <= cap && l.idleCloses <= 1
            && (l.idleCloses == 1 <==> l.stopping && forall i :: 0 <= i < |l.conns| ==> !OpenSession(l.conns[i]))
  {
    RunKeepsInv(cap, steps);
    var l := Run(cap, steps);
    CountedIsPositive(l.conns);
    if forall i :: 0 <= i < |l.conns| ==> !OpenSession(l.conns[i]) {
      assert forall i :: 0 <= i < |l.conns| ==> Counted(l.conns[i]) == 0;
    } else {
      var i :| 0 <= i < |l.conns| && OpenSession(l.conns[i]);
      assert Counted(l.conns[i]) == 1;
    }
  }

  /** The connections that were accepted and have not closed. */
  function OpenAt(conns: seq<Conn>): set<nat> {
    set i | 0 <= i < |conns| && OpenSession(conns[i])
  }

  /** The number of open sessions is exactly the number of accepted connections that have not closed. */
  lemma {:induction false} OpenIsExact(cap: nat, steps: seq<Step>)
    ensures Run(cap, steps).open == |OpenAt(Run(cap, steps).conns)|
  {
    hide Run;
    RunKeepsInv(cap, steps);
    CountsTheOpen(Run(cap, steps).conns);
  }

  lemma CountsTheOpen(conns: seq<Conn>)
    ensures Total(conns, Counted) == |OpenAt(conns)|
  {
    TotalCounts(conns, Counted, OpenSession);
    assert OpenAt(conns) == Where(conns, OpenSession);
  }

  /** What one step of a stopping listener keeps. */
  lemma StopsOneStep(cap: nat, l: Listener, step: Step)
    requires Inv(cap, l) && l.stopping
    ensures var m := Apply(cap, l, step);
            && m.stopping && (l.idled ==> m.idled) && |l.conns| <= |m.conns|
            && forall i :: 0 <= i < |m.conns| && m.conns[i].phase.Session? ==>
               i < |l.conns| && l.conns[i].phase.Session?
  {
    StepKeepsInv(cap, l, step);
    if l.idled && step.Uncount? && step.i < |l.conns| {
      CountedIsPositive(l.conns);
      assert Counted(l.conns[step.i]) == 0;
    }
  }

  /** Once the listener is stopping, no connection ever becomes a session again, and idle stays idle, whatever
      follows. */
  lemma {:induction false} NoSessionAfterStop(cap: nat, steps: seq<Step>, more: seq<Step>)
    requires Run(cap, steps).stopping
    ensures var l, m := Run(cap, steps), Run(cap, steps + more);
            && m.stopping && (l.idled ==> m.idled) && |l.conns| <= |m.conns|
            && forall i :: 0 <= i < |m.conns| && m.conns[i].phase.Session? ==>
               i < |l.conns| && l.conns[i].phase.Session?
    decreases |more|
  {
    hide Apply, Inv;
    if more == [] {
      assert steps + more == steps;
    } else {
      var front, last := more[..|more| - 1], more[|more| - 1];
      NoSessionAfterStop(cap, steps, front);
      assert (steps + more)[..|steps + more| - 1] == steps + front;
      RunKeepsInv(cap, steps + front);
      StopsOneStep(cap, Run(cap, steps + front), last);
    }
  }
}
