/** The scheduler's queue of outcomes that are not yet durable. */
module CapeScheduler {
  import opened Basics
  import opened CapeJob
  import opened CapeProtocol
  import opened CapeRows
  import opened CapeSafety
  import opened CapeStore

  /** What the environment does while one packet is persisted. */
  datatype Answer = Answer(
    timely: bool, pause: Commit, backoff: Instant, wall: Instant, commit: Commit, unlinked: bool, checkpointed: bool)

  /** `s` with the store's and the queue's part of the state replaced. */
  function Synced(s: System, disk: Disk, live: map<JobId, string>, pending: seq<Packet>): System {
    s.(disk := disk, mem := s.mem.(live := live, pending := pending))
  }

  function PersistStep(k: nat, a: Answer, settled: bool): Step {
    Persist(k, a.backoff, a.wall, a.commit, settled)
  }

  lemma {:induction false} RunTwo(cfg: Config, s: System, first: Step, second: Step)
    ensures Run(cfg, s, [first]) == Apply(cfg, s, first)
    ensures Run(cfg, s, [first, second]) == Apply(cfg, Apply(cfg, s, first), second)
  {
    assert [first, second][1..] == [second] && [first][1..] == [] && [second][1..] == [];
    assert Run(cfg, Apply(cfg, s, first), [second]) == Apply(cfg, Apply(cfg, s, first), second);
  }

  lemma PersistApplies(cfg: Config, s: System, k: nat, a: Answer, settled: bool)
    requires s.mem.running && k < |s.mem.pending| && s.mem.pending[k].id in s.disk.jobs
    requires !Settled(s.disk.jobs[s.mem.pending[k].id], s.mem.pending[k])
    ensures var p := s.mem.pending[k];
            var tx := PacketTx(s.disk, p, a.backoff, a.wall);
            var t := Apply(cfg, s, PersistStep(k, a, settled));
            && (tx.Err? || a.commit.NotApplied? ==> t == s)
            && (tx.Ok? && a.commit.AppliedThenFailed? ==> t == s.(disk := tx.value))
            && (tx.Ok? && a.commit.Committed? ==>
                  t == Synced(s, tx.value, s.mem.live - {p.id},
                              if settled then Without(s.mem.pending, k) else s.mem.pending))
  {
    hide RecordTx, Settled;
  }

  lemma SettledApplies(cfg: Config, s: System, k: nat, a: Answer)
    requires s.mem.running && k < |s.mem.pending| && s.mem.pending[k].id in s.disk.jobs
    requires Settled(s.disk.jobs[s.mem.pending[k].id], s.mem.pending[k])
    ensures Apply(cfg, s, PersistStep(k, a, true)) == s.(mem := s.mem.(pending := Without(s.mem.pending, k)))
  {
    hide RecordTx, Settled;
  }

  function PacketEffect(disk: Disk, live: map<JobId, string>, p: Packet, a: Answer): Effect
    requires p.id in disk.jobs
  {
    RecordEffect(disk, live, p.id, PacketTx(disk, p, a.backoff, a.wall), a.commit, a.unlinked, a.checkpointed)
  }

  /** What trying to persist one outcome comes to; `ok` lets the queue forget it. */
  function Tried(disk: Disk, live: map<JobId, string>, p: Packet, a: Answer): Effect {
    if p.id !in disk.jobs then Effect(disk, live, false)
    else if Settled(disk.jobs[p.id], p) then Effect(disk, live, true)
    else PacketEffect(disk, live, p, a)
  }

  /** The same for an outcome that was refused as unauthorized: first its generation is paused. */
  function TriedPacket(disk: Disk, live: map<JobId, string>, p: Packet, refused: Option<string>, a: Answer): Effect {
    if refused.None? then Tried(disk, live, p, a)
    else
      var paused := if a.pause.NotApplied? then disk else disk.(paused := disk.paused + {refused.value});
      if a.pause.Committed? then Tried(paused, live, p, a) else Effect(paused, live, false)
  }

  function TriedInTime(disk: Disk, live: map<JobId, string>, p: Packet, refused: Option<string>, a: Answer): Effect {
    if a.timely then TriedPacket(disk, live, p, refused, a) else Effect(disk, live, false)
  }

  /** What one pass over the first `n` outcomes comes to. */
  datatype Pass = Pass(disk: Disk, live: map<JobId, string>, kept: seq<Packet>)

  function PassOver(disk: Disk, live: map<JobId, string>, pending: seq<Packet>, refusals: seq<Option<string>>,
                    answers: seq<Answer>, n: nat): Pass
    requires n <= |pending| == |refusals| == |answers|
  {
    if n == 0 then Pass(disk, live, [])
    else
      var before, p := PassOver(disk, live, pending, refusals, answers, n - 1), pending[n - 1];
      var e := TriedInTime(before.disk, before.live, p, refusals[n - 1], answers[n - 1]);
      Pass(e.disk, e.live, if e.ok then before.kept else before.kept + [p])
  }

  /** The job's bytes were taken, or it has ended. */
  predicate IsOver(jobs: map<JobId, Job>, id: JobId) {
    id in jobs && (jobs[id].state == RemotePending || Terminal(jobs[id].state))
  }

  /** An outcome is forgotten exactly when it was durable or not needed already, or is recorded by a clean commit, its
      payload is gone if the attempt is over, and the checkpoint succeeds. */
  lemma ForgottenExactly(disk: Disk, live: map<JobId, string>, p: Packet, a: Answer)
    ensures var tx := if p.id in disk.jobs then PacketTx(disk, p, a.backoff, a.wall) else Err(Coded(NotFound));
            Tried(disk, live, p, a).ok <==>
            && p.id in disk.jobs
            && (|| disk.jobs[p.id].submissionRecorded
                || (p.BeginError? && disk.jobs[p.id].submissionVersion <= p.snapshot)
                || (tx.Ok? && a.commit.Committed? && a.checkpointed && (IsOver(tx.value.jobs, p.id) ==> a.unlinked)))
  {
    hide RecordTx;
  }

  /** Recording an outcome is a `Persist` step, followed by an unlink when the attempt is over. */
  function RecordSteps(disk: Disk, live: map<JobId, string>, p: Packet, a: Answer, k: nat): seq<Step>
    requires p.id in disk.jobs
  {
    var e := PacketEffect(disk, live, p, a);
    if e.disk.files == disk.files then [PersistStep(k, a, e.ok)] else [PersistStep(k, a, e.ok), UnlinkPayload(p.id)]
  }

  lemma UnlinkApplies(cfg: Config, s: System, id: JobId)
    requires s.mem.running && id in s.disk.jobs && NeedsNoPayload(s.disk.jobs[id].state)
    ensures Apply(cfg, s, UnlinkPayload(id)) == s.(disk := s.disk.(files := s.disk.files - {FileName(id, Blob)}))
  {
  }

  lemma RecordReplays(cfg: Config, s: System, k: nat, a: Answer)
    requires s.mem.running && k < |s.mem.pending| && s.mem.pending[k].id in s.disk.jobs
    requires !Settled(s.disk.jobs[s.mem.pending[k].id], s.mem.pending[k])
    ensures var p := s.mem.pending[k];
            var e := PacketEffect(s.disk, s.mem.live, p, a);
            Run(cfg, s, RecordSteps(s.disk, s.mem.live, p, a, k)) ==
            Synced(s, e.disk, e.live, if e.ok then Without(s.mem.pending, k) else s.mem.pending)
  {
    hide Apply, RecordTx, Run, Settled;
    var p := s.mem.pending[k];
    var tx, e := PacketTx(s.disk, p, a.backoff, a.wall), PacketEffect(s.disk, s.mem.live, p, a);
    if tx.Ok? {
      RecordSettles(s.disk, p.id, PacketVersion(s.disk.jobs[p.id], p), PacketSubmission(p), PacketOutcome(p),
                    a.backoff, a.wall);
    }
    PersistApplies(cfg, s, k, a, e.ok);
    RunTwo(cfg, s, PersistStep(k, a, e.ok), UnlinkPayload(p.id));
    if e.disk.files != s.disk.files {
      UnlinkApplies(cfg, Apply(cfg, s, PersistStep(k, a, e.ok)), p.id);
    }
  }

  /** A record transaction settles its row and touches no other. */
  lemma RecordSettles(disk: Disk, id: JobId, version: int, s: Submission, outcome: Code, backoff: Instant,
                      wall: Instant)
    requires RecordTx(disk, id, version, s, outcome, backoff, wall).Ok?
    ensures var d := RecordTx(disk, id, version, s, outcome, backoff, wall).value;
            && id in disk.jobs && id in d.jobs && d.jobs == disk.jobs[id := d.jobs[id]]
            && d.jobs[id].submissionRecorded && d.files == disk.files
  {
    hide RecordSubmission, ReadsClock, RecordGuard;
    var now := ReadClock(disk.clock, wall);
    RecordMarks(disk.jobs[id], s, outcome, backoff, wall, if now.Ok? then now.value else 0);
    RecordMarks(disk.jobs[id], s, outcome, backoff, wall, 0);
  }

  /** What a begin step does, by how its transaction and its commit end. */
  lemma BeginApplies(cfg: Config, s: System, step: Step)
    requires step.BeginAttempt? && s.mem.running && s.mem.pending == [] && step.id !in s.mem.requests
    ensures var tx := BeginTx(cfg, s.disk, s.mem.live, step.tenant, step.id, step.version, step.wall);
            var t := Apply(cfg, s, step);
            var live := if tx.Ok? && step.commit.Committed? then s.mem.live[step.id := step.tenant] else s.mem.live;
            && t.disk == (if tx.Ok? && !step.commit.NotApplied? then tx.value else s.disk)
            && t.mem == if tx.Ok? && step.commit.Committed? && step.checkpointed
                        then s.mem.(live := live,
                                    requests := s.mem.requests[step.id := Request(step.version + 1, Authorized)])
                        else s.mem.(live := live, pending := [] + [BeginError(step.id, step.version)])
  {
    hide BeginTx, Granted;
  }

  lemma BegunClock(cfg: Config, disk: Disk, live: map<JobId, string>, tenant: string, id: JobId, version: int,
                   wall: Instant)
    requires BeginTx(cfg, disk, live, tenant, id, version, wall).Ok?
    ensures var d := BeginTx(cfg, disk, live, tenant, id, version, wall).value;
            d.clock.Some? && id in d.jobs && d.jobs[id].version == version + 1
  {
    hide TakeSubmission;
  }

  /** Rows change only by having their outcome recorded. */
  ghost predicate OnlySettles(before: map<JobId, Job>, after: map<JobId, Job>) {
    && before.Keys == after.Keys
    && forall id :: id in after ==> after[id] == before[id] || after[id].submissionRecorded
  }

  /** Every outcome is still queued or already durable. */
  ghost predicate Accounted(outcomes: seq<Packet>, queue: seq<Packet>, jobs: map<JobId, Job>) {
    forall p :: p in outcomes ==> p in queue || (p.id in jobs && Settled(jobs[p.id], p))
  }

  lemma AccountOneMore(outcomes: seq<Packet>, queue: seq<Packet>, before: map<JobId, Job>, after: map<JobId, Job>,
                       p: Packet, gone: bool)
    requires Accounted(outcomes, queue, before) && OnlySettles(before, after)
    requires gone ==> p.id in after && Settled(after[p.id], p)
    ensures Accounted(outcomes + [p], if gone then queue else queue + [p], after)
  {
  }

  lemma OneSettles(jobs: map<JobId, Job>, id: JobId, j: Job)
    requires id in jobs && j.submissionRecorded
    ensures OnlySettles(jobs, jobs[id := j])
  {
  }

  lemma EffectSettles(disk: Disk, live: map<JobId, string>, p: Packet, a: Answer)
    requires p.id in disk.jobs
    ensures var e := PacketEffect(disk, live, p, a);
            && OnlySettles(disk.jobs, e.disk.jobs)
            && (e.ok ==> p.id in e.disk.jobs && Settled(e.disk.jobs[p.id], p))
  {
    hide RecordTx, OnlySettles;
    NothingSettles(disk.jobs);
    if PacketTx(disk, p, a.backoff, a.wall).Ok? {
      RecordSettles(disk, p.id, PacketVersion(disk.jobs[p.id], p), PacketSubmission(p), PacketOutcome(p), a.backoff,
                    a.wall);
      OneSettles(disk.jobs, p.id, PacketTx(disk, p, a.backoff, a.wall).value.jobs[p.id]);
    }
  }

  class Scheduler {
    const store: Store
    var pending: seq<Packet>
    var requests: map<JobId, Request>

    constructor (store: Store)
      ensures this.store == store && pending == [] && requests == map[]
    {
      this.store := store;
      pending, requests := [], map[];
    }

    /** Starts a submission, or queues the doubt: a request exists only behind a begin that reported success, and
        every other ending leaves a packet that will be reconciled with what became durable. */
    method DispatchSubmit(tenant: string, id: JobId, version: int, wall: Instant, commit: Commit, checkpointed: bool,
                          ghost s: System)
      returns (started: bool)
      requires pending == [] && id !in requests
      requires s.mem.running && s.disk == store.View() && s.mem.live == store.live
      requires s.mem.pending == pending && s.mem.requests == requests
      modifies this`pending, this`requests, store
      ensures var t := Apply(store.cfg, s, BeginAttempt(tenant, id, version, wall, commit, checkpointed));
              && t.disk == store.View()
              && t.mem == s.mem.(live := store.live, pending := pending, requests := requests)
      ensures started ==> id in requests && pending == []
      ensures !started ==> requests == old(requests) && pending == [BeginError(id, version)]
    {
      hide BeginTx, Apply;
      BeginApplies(store.cfg, s, BeginAttempt(tenant, id, version, wall, commit, checkpointed));
      if BeginTx(store.cfg, s.disk, s.mem.live, tenant, id, version, wall).Ok? {
        BegunClock(store.cfg, s.disk, s.mem.live, tenant, id, version, wall);
      }
      assert [] + [BeginError(id, version)] == [BeginError(id, version)];
      var r := store.BeginSubmission(tenant, id, version, wall, commit, checkpointed);
      if r.Err? {
        pending := pending + [BeginError(id, version)];
        return false;
      }
      requests := requests[id := Request(r.value.version, Authorized)];
      return true;
    }

    /** Makes one outcome durable, once the generation that refused it, if any, is paused. */
    method PersistPacket(p: Packet, refused: Option<string>, a: Answer, ghost s: System, ghost k: nat)
      returns (gone: bool, ghost trail: seq<Step>)
      requires p.Submitted? ==> (refused.Some? <==> p.outcome == Unauthorized)
      requires s.mem.running && s.disk == store.View() && s.mem.live == store.live
      requires k < |s.mem.pending| && s.mem.pending[k] == p
      modifies store
      ensures Run(store.cfg, s, trail) ==
              Synced(s, store.View(), store.live, if gone then Without(s.mem.pending, k) else s.mem.pending)
      ensures gone ==> p.id in store.jobs && Settled(store.jobs[p.id], p)
      ensures gone && refused.Some? ==> refused.value in store.paused
      ensures OnlySettles(old(store.jobs), store.jobs)
      ensures Effect(store.View(), store.live, gone) == TriedPacket(old(store.View()), old(store.live), p, refused, a)
    {
      hide Apply, Run, OnlySettles, Without, Settled, Tried;
      trail, gone := [], false;
      StandsStill(store.cfg, s);
      NothingSettles(store.jobs);
      ghost var t := s;
      if refused.Some? {
        PauseApplies(store.cfg, s, refused.value);
        var paused := store.SetGenerationAdmission(refused.value, false, a.pause);
        if !a.pause.NotApplied? {
          t := s.(disk := store.View());
          trail := [Admit(refused.value, false)];
        }
        if !paused {
          return;
        }
      }
      ghost var more;
      gone, more := PersistOutcome(p, a, t, k);
      RunAppend(store.cfg, s, trail, more);
      trail := trail + more;
    }

    /** Tries to make one outcome durable; `gone` lets the queue forget it.  It never forgets an outcome
        that is not durable, and a begin error is reconciled only against an attempt newer than its snapshot. */
    method PersistOutcome(p: Packet, a: Answer, ghost s: System, ghost k: nat)
      returns (gone: bool, ghost trail: seq<Step>)
      requires s.mem.running && s.disk == store.View() && s.mem.live == store.live
      requires k < |s.mem.pending| && s.mem.pending[k] == p
      modifies store
      ensures Run(store.cfg, s, trail) ==
              Synced(s, store.View(), store.live, if gone then Without(s.mem.pending, k) else s.mem.pending)
      ensures gone ==> p.id in store.jobs && Settled(store.jobs[p.id], p)
      ensures OnlySettles(old(store.jobs), store.jobs) && store.paused == old(store.paused)
      ensures Effect(store.View(), store.live, gone) == Tried(old(store.View()), old(store.live), p, a)
    {
      hide Apply, RecordTx, Run, RecordSteps, RecordEffect, OnlySettles, Without;
      trail, gone := [], false;
      StandsStill(store.cfg, s);
      NothingSettles(store.jobs);
      if p.id !in store.jobs {
        return;
      }
      var j := store.jobs[p.id];
      if j.submissionRecorded || (p.BeginError? && j.submissionVersion <= p.snapshot) {
        SettledApplies(store.cfg, s, k, a);
        trail := [PersistStep(k, a, true)];
        RunTwo(store.cfg, s, trail[0], trail[0]);
        return true, trail;
      }
      RecordReplays(store.cfg, s, k, a);
      trail := RecordSteps(s.disk, s.mem.live, p, a, k);
      EffectSettles(s.disk, s.mem.live, p, a);
      EffectKeepsPaused(s.disk, s.mem.live, p, a);
      gone := store.RecordOutcome(p.id, PacketVersion(j, p), PacketSubmission(p), PacketOutcome(p), a.backoff, a.wall,
                                  a.commit, a.unlinked, a.checkpointed);
    }

    /** An outcome that the pass has no time left for stays. */
    method PersistInTime(p: Packet, refused: Option<string>, a: Answer, ghost s: System, ghost k: nat)
      returns (gone: bool, ghost trail: seq<Step>)
      requires p.Submitted? ==> (refused.Some? <==> p.outcome == Unauthorized)
      requires s.mem.running && s.disk == store.View() && s.mem.live == store.live
      requires k < |s.mem.pending| && s.mem.pending[k] == p
      modifies store
      ensures Run(store.cfg, s, trail) ==
              Synced(s, store.View(), store.live, if gone then Without(s.mem.pending, k) else s.mem.pending)
      ensures Effect(store.View(), store.live, gone) == TriedInTime(old(store.View()), old(store.live), p, refused, a)
    {
      hide Apply, Run, OnlySettles, Without, Settled, TriedPacket;
      if !a.timely {
        StandsStill(store.cfg, s);
        return false, [];
      }
      gone, trail := PersistPacket(p, refused, a, s, k);
    }

    /** One pass over the queue.  It drops an outcome only once that is durable, keeps the others in order, and
        is a run of protocol steps; an outcome that became durable behind an error is kept for one more pass. */
    method PersistPending(answers: seq<Answer>, refusals: seq<Option<string>>, ghost s: System)
      returns (ghost trail: seq<Step>)
      requires |answers| == |refusals| == |pending|
      requires forall i :: 0 <= i < |pending| && pending[i].Submitted? ==>
               (refusals[i].Some? <==> pending[i].outcome == Unauthorized)
      requires s.mem.running && s.disk == store.View() && s.mem.live == store.live && s.mem.pending == pending
      modifies this`pending, store
      ensures Run(store.cfg, s, trail) == Synced(s, store.View(), store.live, pending)
      ensures Accounted(old(pending), pending, store.jobs)
      ensures InOrder(pending, old(pending))
      ensures Pass(store.View(), store.live, pending) ==
              PassOver(old(store.View()), old(store.live), old(pending), refusals, answers, |answers|)
    {
      hide Apply, Run, Settled, Accounted, Without, InOrder, TriedInTime, PassOver, Synced;
      trail := [];
      var remaining: seq<Packet> := [];
      var i := 0;
      StandsStill(store.cfg, s);
      SyncedIs(s, store.View(), store.live, [] + pending[0..]);
      PassStarts(store.View(), store.live, pending, refusals, answers);
      while i < |pending|
        invariant 0 <= i <= |pending| && pending == old(pending)
        invariant Run(store.cfg, s, trail) == Synced(s, store.View(), store.live, remaining + pending[i..])
        invariant Pass(store.View(), store.live, remaining) ==
                  PassOver(old(store.View()), old(store.live), pending, refusals, answers, i)
      {
        var p := pending[i];
        ghost var queue := remaining + pending[i..];
        ghost var t, more := Synced(s, store.View(), store.live, queue), [];
        SyncedIs(s, store.View(), store.live, queue);
        QueueMoves(remaining, pending, i);
        PassGoesOn(old(store.View()), old(store.live), pending, refusals, answers, i);
        var gone;
        gone, more := PersistInTime(p, refusals[i], answers[i], t, |remaining|);
        RunAppend(store.cfg, s, trail, more);
        trail := trail + more;
        SyncedTwice(s, t, queue, store.View(), store.live, if gone then Without(queue, |remaining|) else queue);
        if !gone {
          remaining := remaining + [p];
        }
        i := i + 1;
      }
      QueueEnds(remaining, pending);
      PassKeeps(old(store.View()), old(store.live), pending, refusals, answers, |pending|);
      pending := remaining;
    }
  }

  /** `kept` is `all` with some elements left out. */
  predicate InOrder(kept: seq<Packet>, all: seq<Packet>) {
    || kept == []
    || (&& all != []
        && (|| InOrder(kept, all[..|all| - 1])
            || (kept[|kept| - 1] == all[|all| - 1] && InOrder(kept[..|kept| - 1], all[..|all| - 1]))))
  }

  lemma NothingInOrder(all: seq<Packet>)
    ensures InOrder([], all)
  {
  }

  lemma OneMoreInOrder(kept: seq<Packet>, all: seq<Packet>, p: Packet)
    requires InOrder(kept, all)
    ensures InOrder(kept, all + [p]) && InOrder(kept + [p], all + [p])
  {
    assert (all + [p])[..|all|] == all && (kept + [p])[..|kept|] == kept;
  }

  lemma PauseApplies(cfg: Config, s: System, generation: string)
    requires s.mem.running
    ensures Run(cfg, s, [Admit(generation, false)]) == s.(disk := s.disk.(paused := s.disk.paused + {generation}))
  {
    assert [Admit(generation, false)][1..] == [];
  }

  lemma EffectKeepsPaused(disk: Disk, live: map<JobId, string>, p: Packet, a: Answer)
    requires p.id in disk.jobs
    ensures PacketEffect(disk, live, p, a).disk.paused == disk.paused
  {
    hide RecordSubmission, RecordGuard, ReadsClock;
  }

  lemma StandsStill(cfg: Config, s: System)
    ensures Run(cfg, s, []) == s
  {
  }

  lemma QueueMoves(kept: seq<Packet>, pending: seq<Packet>, i: nat)
    requires i < |pending|
    ensures pending[..i + 1] == pending[..i] + [pending[i]]
    ensures (kept + pending[i..])[|kept|] == pending[i]
    ensures Without(kept + pending[i..], |kept|) == kept + pending[i + 1..]
    ensures kept + [pending[i]] + pending[i + 1..] == kept + pending[i..]
  {
  }

  lemma QueueEnds(kept: seq<Packet>, pending: seq<Packet>)
    ensures kept + pending[|pending|..] == kept && pending[..|pending|] == pending
  {
  }

  lemma NothingToAccount(jobs: map<JobId, Job>)
    ensures Accounted([], [], jobs)
  {
  }

  lemma NothingSettles(jobs: map<JobId, Job>)
    ensures OnlySettles(jobs, jobs)
  {
  }

  lemma TriedSettles(disk: Disk, live: map<JobId, string>, p: Packet, refused: Option<string>, a: Answer)
    ensures var e := TriedInTime(disk, live, p, refused, a);
            OnlySettles(disk.jobs, e.disk.jobs) && (e.ok ==> p.id in e.disk.jobs && Settled(e.disk.jobs[p.id], p))
  {
    hide OnlySettles, PacketEffect, Settled;
    NothingSettles(disk.jobs);
    if p.id in disk.jobs {
      EffectSettles(disk, live, p, a);
      if refused.Some? {
        EffectSettles(disk.(paused := disk.paused + {refused.value}), live, p, a);
      }
    }
  }

  /** A pass drops an outcome only once that is durable, and keeps the others in order. */
  lemma {:induction false} PassKeeps(disk: Disk, live: map<JobId, string>, pending: seq<Packet>,
                                     refusals: seq<Option<string>>, answers: seq<Answer>, n: nat)
    requires n <= |pending| == |refusals| == |answers|
    ensures var r := PassOver(disk, live, pending, refusals, answers, n);
            Accounted(pending[..n], r.kept, r.disk.jobs) && InOrder(r.kept, pending[..n])
    ensures pending[..|pending|] == pending
  {
    hide Accounted, InOrder, OnlySettles, Settled, TriedInTime;
    if n == 0 {
      NothingToAccount(disk.jobs);
      NothingInOrder(pending[..0]);
    } else {
      PassKeeps(disk, live, pending, refusals, answers, n - 1);
      var before, p := PassOver(disk, live, pending, refusals, answers, n - 1), pending[n - 1];
      var e := TriedInTime(before.disk, before.live, p, refusals[n - 1], answers[n - 1]);
      TriedSettles(before.disk, before.live, p, refusals[n - 1], answers[n - 1]);
      AccountOneMore(pending[..n - 1], before.kept, before.disk.jobs, e.disk.jobs, p, e.ok);
      OneMoreInOrder(before.kept, pending[..n - 1], p);
      assert pending[..n - 1] + [p] == pending[..n];
    }
  }

  lemma SyncedIs(s: System, disk: Disk, live: map<JobId, string>, queue: seq<Packet>)
    ensures var t := Synced(s, disk, live, queue);
            && t.mem.running == s.mem.running && t.disk == disk && t.mem.live == live && t.mem.pending == queue
            && (disk == s.disk && live == s.mem.live && queue == s.mem.pending ==> t == s)
  {
  }

  lemma SyncedTwice(s: System, t: System, queue: seq<Packet>, disk: Disk, live: map<JobId, string>, rest: seq<Packet>)
    requires t == Synced(s, t.disk, t.mem.live, queue)
    ensures Synced(t, disk, live, rest) == Synced(s, disk, live, rest)
  {
  }

  lemma PassStarts(disk: Disk, live: map<JobId, string>, pending: seq<Packet>, refusals: seq<Option<string>>,
                   answers: seq<Answer>)
    requires |pending| == |refusals| == |answers|
    ensures PassOver(disk, live, pending, refusals, answers, 0) == Pass(disk, live, []) && [] + pending[0..] == pending
  {
  }

  lemma PassGoesOn(disk: Disk, live: map<JobId, string>, pending: seq<Packet>, refusals: seq<Option<string>>,
                   answers: seq<Answer>, i: nat)
    requires i < |pending| == |refusals| == |answers|
    ensures var before := PassOver(disk, live, pending, refusals, answers, i);
            var e := TriedInTime(before.disk, before.live, pending[i], refusals[i], answers[i]);
            PassOver(disk, live, pending, refusals, answers, i + 1) ==
            Pass(e.disk, e.live, if e.ok then before.kept else before.kept + [pending[i]])
  {
  }
}
