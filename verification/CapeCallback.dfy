/** Replay protection of signed CAPE callbacks.

    A delivery reads the wall clock twice: once for the signing window (`actual`) and once, through the
    store's high-water mark, for the lifetime of its event row (`wall`). */
module CapeCallback {
  import opened Basics
  import opened CapeJob
  import CapePreservation
  import CapeProtocol

  datatype Key = Key(id: string, notBefore: Instant, notAfter: Instant, tenants: set<string>, generations: set<string>)

  /** A callback whose signature is good under `key`. */
  datatype Callback = Callback(key: Key, event: string, seconds: int, tenant: string, job: JobId, generation: string,
                               task: int)

  datatype EventRow = EventRow(tenant: string, keyId: string, accepted: Instant, expires: Instant)

  datatype Ledger = Ledger(
    clock: Option<Instant>, eventClock: Option<Instant>, events: map<string, EventRow>, jobs: map<JobId, Job>)

  const SIGNING_WINDOW: Instant := 5 * MINUTE
  const ROW_LIFETIME: Instant := 11 * MINUTE
  const TOLERANCE: Instant := 5 * SECOND

  predicate EventId(s: string) {
    |s| == 32 && forall i :: 0 <= i < |s| ==> IsDigit(s[i]) || 'a' <= s[i] <= 'f'
  }

  /** What authentication asks of a callback before any table is read. */
  predicate Authentic(c: Callback) {
    && c.seconds > 0 && EventId(c.event) && EventId(c.job)
    && c.tenant in c.key.tenants && c.generation in c.key.generations && 1 <= c.task <= MAX_TASK_ID
  }

  /** The callback names a job of its tenant, and the job's one task. */
  predicate Owns(jobs: map<JobId, Job>, c: Callback) {
    && c.job in jobs && jobs[c.job].identity.tenant == c.tenant && jobs[c.job].identity.generation == c.generation
    && jobs[c.job].taskIds == [c.task]
  }

  function CheckClock(eventClock: Option<Instant>, c: Callback, actual: Instant): Outcome<()> {
    if eventClock.Some? && actual < eventClock.value then Err(ClockRollback)
    else if actual < c.key.notBefore || actual >= c.key.notAfter
            || c.seconds * SECOND < actual - SIGNING_WINDOW || c.seconds * SECOND > actual + SIGNING_WINDOW
    then Err(Coded(Invalid))
    else Ok(())
  }

  function Unexpired(events: map<string, EventRow>, now: Instant): map<string, EventRow> {
    map e | e in events && events[e].expires > now :: events[e]
  }

  predicate OverQuota(events: map<string, EventRow>, c: Callback, now: Instant) {
    || |events| >= 10000
    || |set e | e in events && events[e].tenant == c.tenant| >= 1000
    || |set e | e in events && events[e].keyId == c.key.id && events[e].accepted > now - MINUTE| >= 10
  }

  function Reserve(events: map<string, EventRow>, c: Callback, now: Instant): Outcome<map<string, EventRow>> {
    var kept := Unexpired(events, now);
    if c.event in kept then Err(StateConflict)
    else if OverQuota(kept, c, now) then Err(QuotaExceeded)
    else Ok(kept[c.event := EventRow(c.tenant, c.key.id, now, now + ROW_LIFETIME)])
  }

  /** One callback: authentication, then the transaction that remembers its event and wakes the poll of its job. */
  function Deliver(l: Ledger, c: Callback, actual: Instant, wall: Instant): Outcome<Ledger> {
    if !Authentic(c) then Err(Coded(Unauthorized))
    else
      match CheckClock(l.eventClock, c, actual)
      case Err(e) => Err(e)
      case Ok(_) =>
        match CapeProtocol.ReadClock(l.clock, wall)
        case Err(e) => Err(e)
        case Ok(now) =>
          if !Owns(l.jobs, c) then Err(Coded(Invalid))
          else
            match Reserve(l.events, c, now)
            case Err(e) => Err(e)
            case Ok(events) => Ok(Ledger(Some(now), Some(actual), events,
                                         l.jobs[c.job := WakePoll(l.jobs[c.job], now)]))
  }

  /** The receiver's tables, updated in place by each callback. */
  class EventStore {
    var clock: Option<Instant>
    var eventClock: Option<Instant>
    var events: map<string, EventRow>
    var jobs: map<JobId, Job>

    function View(): Ledger
      reads this
    {
      Ledger(clock, eventClock, events, jobs)
    }

    /** Remembers the event, or reports why not. */
    method ReserveEvent(c: Callback, now: Instant) returns (r: Outcome<()>)
      modifies this`events
      ensures Reserve(old(events), c, now).Ok? ==> r == Ok(()) && events == Reserve(old(events), c, now).value
      ensures Reserve(old(events), c, now).Err? ==>
              r == Err(Reserve(old(events), c, now).error) && events == old(events)
    {
      hide Unexpired, OverQuota;
      var kept := Unexpired(events, now);
      if c.event in kept {
        return Err(StateConflict);
      }
      if OverQuota(kept, c, now) {
        return Err(QuotaExceeded);
      }
      events := kept[c.event := EventRow(c.tenant, c.key.id, now, now + ROW_LIFETIME)];
      return Ok(());
    }

    /** Wakes the poll of a job that is still being analysed. */
    method WakeJob(id: JobId, now: Instant)
      requires id in jobs
      modifies this`jobs
      ensures jobs == old(jobs)[id := WakePoll(old(jobs)[id], now)]
    {
      var j := jobs[id];
      if (j.state != RemotePending && j.state != Fetching) || j.suppressed || now >= j.analysisDeadline {
        assert jobs[id := j] == jobs;
        return;
      }
      jobs := jobs[id := j.(pollWakeAt := Some(now), version := j.version + 1)];
    }

    /** Accepts the callback, or reports why not and leaves every table as it was. */
    method Receive(c: Callback, actual: Instant, wall: Instant) returns (r: Outcome<()>)
      modifies this
      ensures Deliver(old(View()), c, actual, wall).Ok? ==>
              r == Ok(()) && View() == Deliver(old(View()), c, actual, wall).value
      ensures Deliver(old(View()), c, actual, wall).Err? ==>
                r == Err(Deliver(old(View()), c, actual, wall).error) && View() == old(View())
    {
      hide Reserve, WakePoll, Authentic;
      if !Authentic(c) {
        return Err(Coded(Unauthorized));
      }
      if eventClock.Some? && actual < eventClock.value {
        return Err(ClockRollback);
      }
      var signed := c.seconds * SECOND;
      if actual < c.key.notBefore || actual >= c.key.notAfter
         || signed < actual - SIGNING_WINDOW || signed > actual + SIGNING_WINDOW {
        return Err(Coded(Invalid));
      }
      if clock.Some? && wall < clock.value - TOLERANCE {
        return Err(ClockRollback);
      }
      var now := wall;
      if clock.Some? && wall < clock.value {
        now := clock.value;
      }
      if !Owns(jobs, c) {
        return Err(Coded(Invalid));
      }
      r := ReserveEvent(c, now);
      if r.Ok? {
        eventClock := Some(actual);
        clock := Some(now);
        WakeJob(c.job, now);
      }
    }
  }

  /* ---------------------------------------------------------------- runs */

  /** Any other transaction moves the store clock and may change the jobs, but no event. */
  datatype Event =
    | Tick(wall: Instant, jobs: map<JobId, Job>)
    | Delivery(callback: Callback, actual: Instant, wall: Instant)

  datatype Acceptance = Acceptance(callback: Callback, actual: Instant, now: Instant)

  datatype World = World(ledger: Ledger, accepted: seq<Acceptance>)

  const FRESH: World := World(Ledger(None, None, map[], map[]), [])

  function Apply(w: World, e: Event): World {
    match e
    case Tick(wall, jobs) =>
      (match CapeProtocol.ReadClock(w.ledger.clock, wall)
       case Err(_) => w
       case Ok(now) => w.(ledger := w.ledger.(clock := Some(now), jobs := jobs)))
    case Delivery(c, actual, wall) =>
      (match Deliver(w.ledger, c, actual, wall)
       case Err(_) => w
       case Ok(l) => World(l, w.accepted + [Acceptance(c, actual, l.clock.value)]))
  }

  function Run(w: World, events: seq<Event>): World
    decreases |events|
  {
    if events == [] then w else Run(Apply(w, events[0]), events[1..])
  }

  /** The second reading of each delivery is at most `lag` behind and `lead` ahead of the first; all readings lie
      after the epoch. */
  predicate Steady(e: Event, lag: Instant, lead: Instant) {
    e.wall > 0 && (e.Delivery? ==> e.actual > 0 && e.actual - lag <= e.wall <= e.actual + lead)
  }

  ghost predicate AllSteady(events: seq<Event>, lag: Instant, lead: Instant) {
    forall i :: 0 <= i < |events| ==> Steady(events[i], lag, lead)
  }

  predicate SameCallback(a: Acceptance, b: Acceptance) {
    a.callback.event == b.callback.event && a.callback.seconds == b.callback.seconds
  }

  ghost predicate NoReplay(accepted: seq<Acceptance>) {
    forall i, k :: 0 <= i < k < |accepted| ==> !SameCallback(accepted[i], accepted[k])
  }

  /** An acceptance was in its signing window, near its clock reading, and its event row is still there
      unless the store clock has passed the row's lifetime. */
  predicate Remembered(l: Ledger, a: Acceptance, lag: Instant) {
    && a.actual - SIGNING_WINDOW <= a.callback.seconds * SECOND <= a.actual + SIGNING_WINDOW
    && a.actual - lag <= a.now
    && l.clock.Some?
    && (l.clock.value >= a.now + ROW_LIFETIME
        || (a.callback.event in l.events && l.events[a.callback.event].expires >= a.now + ROW_LIFETIME))
  }

  ghost predicate Inv(w: World, lag: Instant) {
    NoReplay(w.accepted) && forall i :: 0 <= i < |w.accepted| ==> Remembered(w.ledger, w.accepted[i], lag)
  }

  /** A second acceptance of the event waits until the store clock has passed the row's lifetime. */
  lemma AcceptedAgainOnlyLate(l: Ledger, a: Acceptance, lag: Instant, c: Callback, actual: Instant, wall: Instant)
    requires Remembered(l, a, lag) && c.event == a.callback.event && Deliver(l, c, actual, wall).Ok?
    ensures Deliver(l, c, actual, wall).value.clock.value >= a.now + ROW_LIFETIME
  {
  }

  lemma RememberedKept(l: Ledger, a: Acceptance, lag: Instant, c: Callback, actual: Instant, wall: Instant)
    requires Remembered(l, a, lag) && Deliver(l, c, actual, wall).Ok?
    ensures Remembered(Deliver(l, c, actual, wall).value, a, lag)
  {
  }

  lemma DeliveryKeepsInv(w: World, e: Event, lag: Instant, lead: Instant)
    requires Inv(w, lag) && e.Delivery? && Steady(e, lag, lead) && lag + lead + TOLERANCE < MINUTE
    ensures Inv(Apply(w, e), lag)
  {
    var r := Deliver(w.ledger, e.callback, e.actual, e.wall);
    if r.Ok? {
      var last := Acceptance(e.callback, e.actual, r.value.clock.value);
      forall i | 0 <= i < |w.accepted|
        ensures Remembered(r.value, w.accepted[i], lag) && !SameCallback(w.accepted[i], last)
      {
        RememberedKept(w.ledger, w.accepted[i], lag, e.callback, e.actual, e.wall);
        if SameCallback(w.accepted[i], last) {
          AcceptedAgainOnlyLate(w.ledger, w.accepted[i], lag, e.callback, e.actual, e.wall);
        }
      }
    }
  }

  lemma {:induction false} RunKeepsInv(w: World, events: seq<Event>, lag: Instant, lead: Instant)
    requires Inv(w, lag) && lag + lead + TOLERANCE < MINUTE
    requires AllSteady(events, lag, lead)
    ensures Inv(Run(w, events), lag)
    decreases |events|
  {
    if events != [] {
      if events[0].Delivery? {
        DeliveryKeepsInv(w, events[0], lag, lead);
      }
      RunKeepsInv(Apply(w, events[0]), events[1..], lag, lead);
    }
  }

  /** No signed callback is accepted twice in any run, for any clock behaviour between transactions, as
      long as the two readings inside one delivery differ by less than the 55 seconds to spare. */
  lemma NeverAcceptedTwice(events: seq<Event>, lag: Instant, lead: Instant)
    requires lag + lead + TOLERANCE < MINUTE
    requires AllSteady(events, lag, lead)
    ensures NoReplay(Run(FRESH, events).accepted)
  {
    RunKeepsInv(FRESH, events, lag, lead);
  }

  lemma FewAreWithinQuota(events: map<string, EventRow>, c: Callback, now: Instant)
    requires |events| < 10
    ensures !OverQuota(events, c, now)
  {
    var own := set e | e in events && events[e].tenant == c.tenant;
    var recent := set e | e in events && events[e].keyId == c.key.id && events[e].accepted > now - MINUTE;
    assert own <= events.Keys && recent <= events.Keys;
    CapePreservation.SubsetIsSmaller(own, events.Keys);
    CapePreservation.SubsetIsSmaller(recent, events.Keys);
  }

  const EVENT_ID: string := "0123456789abcdef0123456789abcdef"

  lemma EventIdIsOne()
    ensures EventId(EVENT_ID)
  {
  }

  /** A job with one task, as it is after a submission and before its report. */
  function WaitingJob(now: Instant): Job {
    Job(EVENT_ID, Identity("t", "d", "g", "p", "r"), "", RemotePending, 3, METADATA_AND_RESULT + 1, 1,
        now, now + INGRESS_LIMIT, now + HOUR, now + 24 * HOUR,
        None, None, Some(now), None, 1, 2, true, [7], [], RemoteDeletePending, false, true, false,
        NoCode, None, None, 0, false)
  }

  /** A callback for that job, signed at `seconds` and good under a key that was valid for an hour around it. */
  function SignedAt(seconds: int): Callback {
    var key := Key("k", seconds * SECOND - HOUR, seconds * SECOND + HOUR, {"t"}, {"g"});
    Callback(key, EVENT_ID, seconds, "t", EVENT_ID, "g", 7)
  }

  /** A delivery that finds no event of that name is accepted. */
  lemma AcceptsFresh(w: World, seconds: int, actual: Instant, wall: Instant, now: Instant)
    requires seconds > 0 && seconds * SECOND - SIGNING_WINDOW <= actual <= seconds * SECOND + SIGNING_WINDOW
    requires w.ledger.eventClock.Some? ==> w.ledger.eventClock.value <= actual
    requires CapeProtocol.ReadClock(w.ledger.clock, wall) == Ok(now)
    requires Unexpired(w.ledger.events, now) == map[] && Owns(w.ledger.jobs, SignedAt(seconds))
    ensures var v := Apply(w, Delivery(SignedAt(seconds), actual, wall));
            && v.accepted == w.accepted + [Acceptance(SignedAt(seconds), actual, now)]
            && v.ledger.clock == Some(now) && v.ledger.eventClock == Some(actual)
            && v.ledger.events == map[EVENT_ID := EventRow("t", "k", now, now + ROW_LIFETIME)]
  {
    hide OverQuota, EventId, EVENT_ID, Unexpired;
    EventIdIsOne();
    FewAreWithinQuota(map[], SignedAt(seconds), now);
  }

  /** The bound is sharp: with more room than that, some run accepts a callback twice. */
  lemma AcceptedTwice(lag: Instant, lead: Instant) returns (events: seq<Event>)
    requires 0 <= lag && 0 <= lead && lag + lead + TOLERANCE >= MINUTE
    ensures AllSteady(events, lag, lead)
    ensures !NoReplay(Run(FRESH, events).accepted)
  {
    hide OverQuota, EventId, EVENT_ID, Deliver;
    // signed late enough for every reading to lie after the epoch
    var seconds := 1_700_000_000 + lag;
    var first, second := seconds * SECOND - SIGNING_WINDOW, seconds * SECOND + SIGNING_WINDOW;
    var c, jobs := SignedAt(seconds), map[EVENT_ID := WaitingJob(first - lag)];
    var e0 := Tick(first - lag, jobs);
    var e1 := Delivery(c, first, first - lag);
    var e2 := Tick(second + lead + TOLERANCE, jobs);
    var e3 := Delivery(c, second, second + lead);
    events := [e0, e1, e2, e3];
    var w0 := Apply(FRESH, e0);
    assert Unexpired(map[], first - lag) == map[];
    AcceptsFresh(w0, seconds, first, first - lag, first - lag);
    var w1 := Apply(w0, e1);
    var w2 := Apply(w1, e2);
    var now := second + lead + TOLERANCE;
    assert Unexpired(w2.ledger.events, now) == map[];
    AcceptsFresh(w2, seconds, second, second + lead, now);
    var w3 := Apply(w2, e3);
    assert |w3.accepted| == 2 && SameCallback(w3.accepted[0], w3.accepted[1]);
    RunsFour(FRESH, e0, e1, e2, e3);
  }

  lemma RunsFour(w: World, a: Event, b: Event, c: Event, d: Event)
    ensures Run(w, [a, b, c, d]) == Apply(Apply(Apply(Apply(w, a), b), c), d)
  {
    hide Apply;
    assert [a, b, c, d][1..] == [b, c, d] && [b, c, d][1..] == [c, d] && [c, d][1..] == [d] && [d][1..] == [];
    var w1 := Apply(w, a);
    var w2 := Apply(w1, b);
    var w3 := Apply(w2, c);
    assert Run(w3, [d]) == Run(Apply(w3, d), []);
    assert Run(w2, [c, d]) == Run(w3, [d]);
    assert Run(w1, [b, c, d]) == Run(w2, [c, d]);
  }

  /** Replay protection holds for every run within the given skew exactly when the skew, together with
      the clock tolerance, stays below the minute by which the row outlives the signing windows. */
  lemma ReplaySafeExactly(lag: Instant, lead: Instant)
    requires 0 <= lag && 0 <= lead
    ensures (forall events :: AllSteady(events, lag, lead) ==> NoReplay(Run(FRESH, events).accepted))
       <==> lag + lead + TOLERANCE < MINUTE
  {
    if lag + lead + TOLERANCE < MINUTE {
      forall events | AllSteady(events, lag, lead) ensures NoReplay(Run(FRESH, events).accepted) {
        NeverAcceptedTwice(events, lag, lead);
      }
    } else {
      var events := AcceptedTwice(lag, lead);
    }
  }
}
