/** Exactly which callbacks are accepted, and how many. */
module CapeAcceptance {
  import opened Basics
  import opened CapeJob
  import opened CapeCallback

  /* ---------------------------------------------------------------- one callback */

  /** The callback speaks for a tenant and a generation of its key, while the key is valid, and was signed within five
      minutes of now. */
  ghost predicate Entitled(c: Callback, actual: Instant) {
    && c.tenant in c.key.tenants && c.generation in c.key.generations
    && c.key.notBefore <= actual < c.key.notAfter
    && actual - 5 * MINUTE <= c.seconds * SECOND <= actual + 5 * MINUTE
    && c.seconds > 0 && EventId(c.event) && EventId(c.job) && 1 <= c.task <= MAX_TASK_ID
  }

  /** The callback names the one task of a job of its tenant and generation. */
  predicate NamesJob(jobs: map<JobId, Job>, c: Callback) {
    && c.job in jobs && jobs[c.job].identity.tenant == c.tenant && jobs[c.job].identity.generation == c.generation
    && |jobs[c.job].taskIds| == 1 && jobs[c.job].taskIds[0] == c.task
  }

  /** The rows that count at `now`: of all, of a tenant, and of a key in the last minute. */
  function RowsAt(events: map<string, EventRow>, now: Instant): set<string> {
    set e | e in events && now < events[e].expires
  }

  function RowsOfTenant(events: map<string, EventRow>, now: Instant, tenant: string): set<string> {
    set e | e in events && now < events[e].expires && events[e].tenant == tenant
  }

  function RecentRowsOfKey(events: map<string, EventRow>, now: Instant, keyId: string): set<string> {
    set e | e in events && now < events[e].expires && events[e].keyId == keyId && now - MINUTE < events[e].accepted
  }

  ghost predicate HasRoom(events: map<string, EventRow>, c: Callback, now: Instant) {
    && |RowsAt(events, now)| < 10000 && |RowsOfTenant(events, now, c.tenant)| < 1000
    && |RecentRowsOfKey(events, now, c.key.id)| < 10
  }

  ghost predicate Acceptable(l: Ledger, c: Callback, actual: Instant, now: Instant) {
    && Entitled(c, actual) && (l.eventClock.Some? ==> l.eventClock.value <= actual)
    && NamesJob(l.jobs, c) && c.event !in RowsAt(l.events, now) && HasRoom(l.events, c, now)
  }

  lemma RoomIs(events: map<string, EventRow>, c: Callback, now: Instant)
    ensures OverQuota(Unexpired(events, now), c, now) <==> !HasRoom(events, c, now)
    ensures c.event in Unexpired(events, now) <==> c.event in RowsAt(events, now)
  {
    var kept := Unexpired(events, now);
    assert kept.Keys == RowsAt(events, now);
    assert (set e | e in kept && kept[e].tenant == c.tenant) == RowsOfTenant(events, now, c.tenant);
    assert (set e | e in kept && kept[e].keyId == c.key.id && kept[e].accepted > now - MINUTE)
        == RecentRowsOfKey(events, now, c.key.id);
  }

  /** A callback is accepted exactly when it is entitled, fresh, about a job of its tenant and within the quotas; then
      its event is remembered for eleven minutes, and only its job is woken. */
  lemma AcceptsExactly(l: Ledger, c: Callback, actual: Instant, wall: Instant)
    ensures var r, clock := Deliver(l, c, actual, wall), CapeProtocol.ReadClock(l.clock, wall);
            && (r.Ok? <==> clock.Ok? && Acceptable(l, c, actual, clock.value))
            && (r.Ok? ==>
                  var now, m := clock.value, r.value;
                  && m.clock == Some(now) && m.eventClock == Some(actual)
                  && m.events.Keys == RowsAt(l.events, now) + {c.event}
                  && m.events[c.event] == EventRow(c.tenant, c.key.id, now, now + 11 * MINUTE)
                  && (forall e :: e in m.events && e != c.event ==> m.events[e] == l.events[e])
                  && m.jobs == l.jobs[c.job := WakePoll(l.jobs[c.job], now)])
  {
    hide EventId, OverQuota, HasRoom, WakePoll;
    var clock := CapeProtocol.ReadClock(l.clock, wall);
    if clock.Ok? {
      RoomIs(l.events, c, clock.value);
    }
    if NamesJob(l.jobs, c) {
      assert l.jobs[c.job].taskIds == [c.task];
    }
  }

  /* ---------------------------------------------------------------- runs */

  /** Event `n` of the run delivered the acceptance: it was acceptable then. */
  ghost predicate AcceptedBy(w: World, events: seq<Event>, n: nat, a: Acceptance) {
    && n < |events| && events[n].Delivery? && events[n].callback == a.callback && events[n].actual == a.actual
    && Acceptable(Run(w, events[..n]).ledger, a.callback, a.actual, a.now)
  }

  ghost predicate AcceptedBySome(w: World, events: seq<Event>, a: Acceptance) {
    exists n: nat :: AcceptedBy(w, events, n, a)
  }

  lemma AcceptedLater(w: World, events: seq<Event>, a: Acceptance)
    requires events != [] && AcceptedBySome(Apply(w, events[0]), events[1..], a)
    ensures AcceptedBySome(w, events, a)
  {
    hide Apply, Acceptable;
    var n: nat :| AcceptedBy(Apply(w, events[0]), events[1..], n, a);
    assert events[..n + 1][1..] == events[1..][..n];
    assert AcceptedBy(w, events, n + 1, a);
  }

  lemma StepAccepts(w: World, e: Event)
    ensures var v := Apply(w, e);
            || v.accepted == w.accepted
            || (&& e.Delivery? && v.ledger.clock.Some?
                && v.accepted == w.accepted + [Acceptance(e.callback, e.actual, v.ledger.clock.value)]
                && Acceptable(w.ledger, e.callback, e.actual, v.ledger.clock.value))
  {
    hide Deliver, Acceptable;
    if e.Delivery? {
      AcceptsExactly(w.ledger, e.callback, e.actual, e.wall);
    }
  }

  lemma {:induction false} RunAccepts(w: World, events: seq<Event>, i: nat)
    requires |w.accepted| <= i < |Run(w, events).accepted|
    ensures AcceptedBySome(w, events, Run(w, events).accepted[i])
    decreases |events|
  {
    hide Apply, Acceptable;
    if events != [] {
      var v := Apply(w, events[0]);
      StepAccepts(w, events[0]);
      AcceptedStay(v, events[1..]);
      if i < |v.accepted| {
        assert events[..0] == [];
        assert AcceptedBy(w, events, 0, v.accepted[i]);
      } else {
        RunAccepts(v, events[1..], i);
        AcceptedLater(w, events, Run(w, events).accepted[i]);
      }
    }
  }

  lemma {:induction false} AcceptedStay(w: World, events: seq<Event>)
    ensures w.accepted <= Run(w, events).accepted
    decreases |events|
  {
    hide Apply;
    if events != [] {
      StepAccepts(w, events[0]);
      AcceptedStay(Apply(w, events[0]), events[1..]);
    }
  }

  /** Every acceptance in every run is for a tenant and a generation of its key, within the key's validity, and named
      the one task of a job of that tenant at the time. */
  lemma EveryAcceptanceIsEntitled(events: seq<Event>, i: nat)
    requires i < |Run(FRESH, events).accepted|
    ensures var a := Run(FRESH, events).accepted[i];
            && Entitled(a.callback, a.actual)
            && exists n: nat :: n < |events| && events[n].Delivery? && events[n].callback == a.callback
                                && NamesJob(Run(FRESH, events[..n]).ledger.jobs, a.callback)
  {
    hide Run, Entitled, NamesJob, HasRoom;
    RunAccepts(FRESH, events, i);
    var a := Run(FRESH, events).accepted[i];
    var n: nat :| AcceptedBy(FRESH, events, n, a);
  }

  /* ---------------------------------------------------------------- how many */

  predicate NotYetExpired(l: Ledger, a: Acceptance) {
    l.clock.Some? && l.clock.value < a.now + ROW_LIFETIME
  }

  /** The row of an acceptance is in the table until it expires. */
  ghost predicate RowIsKept(l: Ledger, a: Acceptance) {
    && l.clock.Some? && a.now <= l.clock.value
    && (NotYetExpired(l, a) ==>
          a.callback.event in l.events
          && l.events[a.callback.event] == EventRow(a.callback.tenant, a.callback.key.id, a.now, a.now + ROW_LIFETIME))
  }

  ghost predicate DistinctEvents(l: Ledger, accepted: seq<Acceptance>) {
    forall i, k :: 0 <= i < k < |accepted| && NotYetExpired(l, accepted[i]) && NotYetExpired(l, accepted[k]) ==>
      accepted[i].callback.event != accepted[k].callback.event
  }

  /** The acceptances under a key in the minute that ends with acceptance `i`, itself included. */
  function Burst(accepted: seq<Acceptance>, i: nat): set<nat>
    requires i < |accepted|
  {
    set k: nat | k <= i && accepted[k].callback.key.id == accepted[i].callback.key.id
                 && accepted[i].now - MINUTE < accepted[k].now
  }

  /** The acceptances under a key in the minute that ends at `now`. */
  function Recent(accepted: seq<Acceptance>, keyId: string, now: Instant): set<nat> {
    set k: nat | k < |accepted| && accepted[k].callback.key.id == keyId && now - MINUTE < accepted[k].now
  }

  function AllOfTenant(events: map<string, EventRow>, tenant: string): set<string> {
    set e | e in events && events[e].tenant == tenant
  }

  ghost predicate RowsAreKept(l: Ledger, accepted: seq<Acceptance>) {
    forall i :: 0 <= i < |accepted| ==> RowIsKept(l, accepted[i])
  }

  ghost predicate WithinQuotas(events: map<string, EventRow>) {
    |events| <= 10000 && forall tenant :: |AllOfTenant(events, tenant)| <= 1000
  }

  ghost predicate BurstsBounded(accepted: seq<Acceptance>) {
    forall i :: 0 <= i < |accepted| ==> |Burst(accepted, i)| <= 10
  }

  ghost predicate Counted(w: World) {
    && RowsAreKept(w.ledger, w.accepted) && DistinctEvents(w.ledger, w.accepted)
    && WithinQuotas(w.ledger.events) && BurstsBounded(w.accepted)
  }

  lemma {:induction false} Injection(ks: set<nat>, accepted: seq<Acceptance>, rows: set<string>)
    requires forall k :: k in ks ==> k < |accepted| && accepted[k].callback.event in rows
    requires forall i, k :: i in ks && k in ks && i != k ==> accepted[i].callback.event != accepted[k].callback.event
    ensures |ks| <= |rows|
    decreases |ks|
  {
    if ks != {} {
      var k :| k in ks;
      Injection(ks - {k}, accepted, rows - {accepted[k].callback.event});
    }
  }

  /** The earlier acceptances of a burst are all remembered. */
  lemma BurstIsRemembered(w: World, c: Callback, now: Instant)
    requires Counted(w) && (w.ledger.clock.Some? ==> w.ledger.clock.value <= now)
    ensures |Recent(w.accepted, c.key.id, now)| <= |RecentRowsOfKey(w.ledger.events, now, c.key.id)|
  {
    var earlier := Recent(w.accepted, c.key.id, now);
    forall k | k in earlier
      ensures NotYetExpired(w.ledger, w.accepted[k])
      ensures w.accepted[k].callback.event in RecentRowsOfKey(w.ledger.events, now, c.key.id)
    {
      assert RowIsKept(w.ledger, w.accepted[k]);
    }
    forall i, k | i in earlier && k in earlier && i != k
      ensures w.accepted[i].callback.event != w.accepted[k].callback.event
    {
      if i < k {
        assert NotYetExpired(w.ledger, w.accepted[i]) && NotYetExpired(w.ledger, w.accepted[k]);
      } else {
        assert NotYetExpired(w.ledger, w.accepted[k]) && NotYetExpired(w.ledger, w.accepted[i]);
      }
    }
    Injection(earlier, w.accepted, RecentRowsOfKey(w.ledger.events, now, c.key.id));
  }

  lemma BurstsAfter(accepted: seq<Acceptance>, last: Acceptance, i: nat)
    requires i <= |accepted|
    ensures var all := accepted + [last];
            if i < |accepted| then Burst(all, i) == Burst(accepted, i)
            else Burst(all, i) == {i} + Recent(accepted, last.callback.key.id, last.now)
  {
    var all := accepted + [last];
    forall k: nat | k < |accepted| ensures all[k] == accepted[k] {
    }
  }

  lemma RowsAfter(l: Ledger, c: Callback, actual: Instant, wall: Instant)
    requires Deliver(l, c, actual, wall).Ok? && WithinQuotas(l.events)
    ensures WithinQuotas(Deliver(l, c, actual, wall).value.events)
  {
    hide Deliver, Entitled, NamesJob, WakePoll, RowsAt, AllOfTenant, RowsOfTenant;
    AcceptsExactly(l, c, actual, wall);
    var m := Deliver(l, c, actual, wall).value;
    assert |m.events.Keys| == |m.events|;
    forall tenant ensures |AllOfTenant(m.events, tenant)| <= 1000 {
      TenantAfter(l.events, m.events, c, m.clock.value, tenant);
    }
  }

  lemma TenantAfter(before: map<string, EventRow>, after: map<string, EventRow>, c: Callback, now: Instant,
                    tenant: string)
    requires after.Keys == RowsAt(before, now) + {c.event} && c.event !in RowsAt(before, now)
    requires after[c.event].tenant == c.tenant && forall e :: e in after && e != c.event ==> after[e] == before[e]
    requires |AllOfTenant(before, tenant)| <= 1000 && |RowsOfTenant(before, now, c.tenant)| < 1000
    ensures |AllOfTenant(after, tenant)| <= 1000
  {
    var all := AllOfTenant(after, tenant);
    if tenant == c.tenant {
      forall e | e in all ensures e in RowsOfTenant(before, now, tenant) + {c.event} {
        assert e == c.event || e in RowsAt(before, now);
      }
      CapePreservation.SubsetIsSmaller(all, RowsOfTenant(before, now, tenant) + {c.event});
    } else {
      forall e | e in all ensures e in AllOfTenant(before, tenant) {
        assert e in RowsAt(before, now);
      }
      CapePreservation.SubsetIsSmaller(all, AllOfTenant(before, tenant));
    }
  }

  lemma RowsStay(l: Ledger, c: Callback, actual: Instant, wall: Instant, a: Acceptance)
    requires Deliver(l, c, actual, wall).Ok? && RowIsKept(l, a)
    ensures var m := Deliver(l, c, actual, wall).value;
            RowIsKept(m, a) && (NotYetExpired(m, a) ==> NotYetExpired(l, a) && a.callback.event != c.event)
  {
    hide Deliver, Entitled, NamesJob, WakePoll, HasRoom;
    AcceptsExactly(l, c, actual, wall);
  }

  lemma DeliveryKeepsRows(l: Ledger, accepted: seq<Acceptance>, c: Callback, actual: Instant, wall: Instant)
    requires Deliver(l, c, actual, wall).Ok? && RowsAreKept(l, accepted) && DistinctEvents(l, accepted)
    ensures var m := Deliver(l, c, actual, wall).value;
            && m.clock.Some?
            && var all := accepted + [Acceptance(c, actual, m.clock.value)];
            RowsAreKept(m, all) && DistinctEvents(m, all)
  {
    hide Deliver, RowIsKept, NotYetExpired;
    NewRowIsKept(l, c, actual, wall);
    var m := Deliver(l, c, actual, wall).value;
    forall i | 0 <= i < |accepted|
      ensures RowIsKept(m, accepted[i])
      ensures NotYetExpired(m, accepted[i]) ==> NotYetExpired(l, accepted[i]) && accepted[i].callback.event != c.event
    {
      RowsStay(l, c, actual, wall, accepted[i]);
    }
  }

  lemma DeliveryKeepsCount(w: World, e: Event)
    requires Counted(w) && e.Delivery?
    ensures Counted(Apply(w, e))
  {
    hide Deliver, Burst, RowsAreKept, DistinctEvents, WithinQuotas;
    var r := Deliver(w.ledger, e.callback, e.actual, e.wall);
    if r.Ok? {
      DeliveryKeepsRows(w.ledger, w.accepted, e.callback, e.actual, e.wall);
      RowsAfter(w.ledger, e.callback, e.actual, e.wall);
      var last := Acceptance(e.callback, e.actual, r.value.clock.value);
      NewBurst(w, e);
      forall i | 0 <= i <= |w.accepted| ensures |Burst(w.accepted + [last], i)| <= 10 {
        BurstsAfter(w.accepted, last, i);
      }
    }
  }

  lemma NewRowIsKept(l: Ledger, c: Callback, actual: Instant, wall: Instant)
    requires Deliver(l, c, actual, wall).Ok?
    ensures var m := Deliver(l, c, actual, wall).value;
            m.clock.Some? && RowIsKept(m, Acceptance(c, actual, m.clock.value))
  {
    hide Deliver, Acceptable, WakePoll;
    AcceptsExactly(l, c, actual, wall);
  }

  lemma NewBurst(w: World, e: Event)
    requires Counted(w) && e.Delivery? && Deliver(w.ledger, e.callback, e.actual, e.wall).Ok?
    ensures Deliver(w.ledger, e.callback, e.actual, e.wall).value.clock.Some?
    ensures var now := Deliver(w.ledger, e.callback, e.actual, e.wall).value.clock.value;
            |Recent(w.accepted, e.callback.key.id, now)| < 10
  {
    hide Deliver, Entitled, NamesJob, WakePoll, Counted;
    AcceptsExactly(w.ledger, e.callback, e.actual, e.wall);
    BurstIsRemembered(w, e.callback, CapeProtocol.ReadClock(w.ledger.clock, e.wall).value);
  }

  lemma TickKeepsCount(w: World, e: Event)
    requires Counted(w) && e.Tick?
    ensures Counted(Apply(w, e))
  {
    hide Burst, AllOfTenant;
    var v := Apply(w, e);
    forall i | 0 <= i < |w.accepted|
      ensures RowIsKept(v.ledger, w.accepted[i])
      ensures NotYetExpired(v.ledger, w.accepted[i]) ==> NotYetExpired(w.ledger, w.accepted[i])
    {
      assert RowIsKept(w.ledger, w.accepted[i]);
    }
  }

  lemma {:induction false} RunKeepsCount(w: World, events: seq<Event>)
    requires Counted(w)
    ensures Counted(Run(w, events))
    decreases |events|
  {
    hide Apply, Counted;
    if events != [] {
      if events[0].Delivery? {
        DeliveryKeepsCount(w, events[0]);
      } else {
        TickKeepsCount(w, events[0]);
      }
      RunKeepsCount(Apply(w, events[0]), events[1..]);
    }
  }

  lemma NothingCounted()
    ensures Counted(FRESH)
  {
    assert forall tenant :: AllOfTenant(map[], tenant) == {};
  }

  /** In every run the table stays within its quotas, in all and of any tenant, and no key has more than ten callbacks
      accepted in any minute of store time. */
  lemma AcceptancesAreBounded(events: seq<Event>, tenant: string, i: nat)
    ensures var w := Run(FRESH, events);
            && |w.ledger.events| <= 10000
            && |set e | e in w.ledger.events && w.ledger.events[e].tenant == tenant| <= 1000
            && (i < |w.accepted| ==> |Burst(w.accepted, i)| <= 10)
  {
    hide Run, Burst;
    NothingCounted();
    RunKeepsCount(FRESH, events);
    var w := Run(FRESH, events);
    assert |AllOfTenant(w.ledger.events, tenant)| <= 1000;
  }
}
