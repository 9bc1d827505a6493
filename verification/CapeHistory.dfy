/** What no run of the CAPE protocol can undo. */
module CapeHistory {
  import opened CapeJob
  import opened CapeProtocol
  import opened CapeRows
  import opened CapeInvariant
  import opened CapePreservation
  import opened CapeSafety

  /** Rows keep their debts, end at most once and move forward; only debtless rows vanish; and an ID
      that was ever used never names another row. */
  ghost predicate Evolves(jobs: Jobs, used: set<JobId>, after: Jobs, usedAfter: set<JobId>) {
    && used <= usedAfter
    && (forall id :: id in jobs && id in after ==> Descends(jobs[id], after[id]))
    && (forall id :: id in jobs && id !in after ==> jobs[id].taskIds == [])
    && (forall id :: id in after && id !in jobs ==> id !in used)
  }

  lemma RowEvolves(jobs: Jobs, used: set<JobId>, id: JobId, k: Job)
    requires id in jobs && Descends(jobs[id], k)
    ensures Evolves(jobs, used, jobs[id := k], used)
  {
  }

  lemma DescendsFurther(i: Job, j: Job, k: Job)
    requires Descends(i, j) && Descends(j, k)
    ensures Descends(i, k)
  {
  }

  lemma EvolvesFurther(a: Jobs, usedA: set<JobId>, b: Jobs, usedB: set<JobId>, c: Jobs, usedC: set<JobId>)
    requires a.Keys <= usedA && b.Keys <= usedB && Evolves(a, usedA, b, usedB) && Evolves(b, usedB, c, usedC)
    ensures Evolves(a, usedA, c, usedC)
  {
    forall id | id in a && id in c ensures Descends(a[id], c[id]) {
      assert id in b;
      DescendsFurther(a[id], b[id], c[id]);
    }
  }

  lemma SchedulerStepEvolves(cfg: Config, s: System, step: Step)
    requires Inv(cfg, s) && s.mem.running && (step.BeginAttempt? || step.Persist?)
    ensures var t := ApplyRunning(cfg, s, step);
            Evolves(s.disk.jobs, s.past.used, t.disk.jobs, t.past.used) && t.past.sent == s.past.sent
  {
    hide UniqueOk, SentOk, RequestsOk, PendingOk, BucketsOk, QuotaOk, LiveOk, PayloadsOk, FilesOwned, WritersOk;
    hide StepBegin, StepPersist, RecordTx;
    var t := ApplyRunning(cfg, s, step);
    if step.BeginAttempt? {
      BeginCases(cfg, s, t, step);
      if t.disk != s.disk {
        assert RowInv(s.disk.jobs[step.id]);
        BeginRow(s.disk.jobs[step.id], t.disk.clock.value);
        RowEvolves(s.disk.jobs, s.past.used, step.id, t.disk.jobs[step.id]);
      }
    } else if step.k < |s.mem.pending| && s.mem.pending[step.k].id in s.disk.jobs {
      var p := s.mem.pending[step.k];
      PersistCases(s, t, step);
      if t.disk != s.disk {
        assert RowInv(s.disk.jobs[p.id]);
        RecordTxRecords(s.disk, t.disk, p.id, PacketVersion(s.disk.jobs[p.id], p), PacketSubmission(p),
                        PacketOutcome(p), step.backoff, step.wall);
        RowEvolves(s.disk.jobs, s.past.used, p.id, t.disk.jobs[p.id]);
      }
    }
  }

  lemma LifecycleStepEvolves(cfg: Config, s: System, step: Step)
    requires Inv(cfg, s) && s.mem.running && (step.UpdateRow? || step.ReadRemote? || step.Forget?)
    ensures var t := ApplyRunning(cfg, s, step);
            Evolves(s.disk.jobs, s.past.used, t.disk.jobs, t.past.used) && t.past.sent == s.past.sent
  {
    hide UniqueOk, SentOk, RequestsOk, PendingOk, BucketsOk, QuotaOk, LiveOk, PayloadsOk, FilesOwned, WritersOk,
         RowOutcome;
    var t := ApplyRunning(cfg, s, step);
    if t.disk != s.disk {
      var j := s.disk.jobs[step.id];
      assert RowInv(j);
      if step.UpdateRow? {
        RowOpIsQuiet(step.op, j, RowClock(step.op, s.disk.clock, step.wall).value);
        RowEvolves(s.disk.jobs, s.past.used, step.id, t.disk.jobs[step.id]);
      } else if step.ReadRemote? {
        ReserveReadIsQuiet(j, step.delay, t.disk.clock.value);
        RowEvolves(s.disk.jobs, s.past.used, step.id, t.disk.jobs[step.id]);
      }
    }
  }

  lemma ReservationEvolves(cfg: Config, s: System, step: Step)
    requires Inv(cfg, s) && s.mem.running && step.Reserve?
    ensures var t := ApplyRunning(cfg, s, step);
            Evolves(s.disk.jobs, s.past.used, t.disk.jobs, t.past.used) && t.past.sent == s.past.sent
  {
    hide UniqueOk, SentOk, RequestsOk, PendingOk, BucketsOk, QuotaOk, LiveOk, PayloadsOk, FilesOwned, WritersOk,
         OldDebt, Reserved;
  }

  lemma PublicationEvolves(cfg: Config, s: System, step: Step)
    requires Inv(cfg, s) && s.mem.running && step.PublishUpload?
    ensures var t := ApplyRunning(cfg, s, step);
            Evolves(s.disk.jobs, s.past.used, t.disk.jobs, t.past.used) && t.past.sent == s.past.sent
  {
    hide UniqueOk, SentOk, RequestsOk, PendingOk, BucketsOk, QuotaOk, LiveOk, PayloadsOk, FilesOwned, HasReusable,
         OldDebt;
    var t := ApplyRunning(cfg, s, step);
    if t.disk != s.disk {
      var w := s.mem.writers[step.id];
      PublishRow(s.disk.jobs[step.id], w.digest, w.size, step.verdict);
      RowEvolves(s.disk.jobs, s.past.used, step.id, t.disk.jobs[step.id]);
    }
  }

  lemma StepEvolves(cfg: Config, s: System, step: Step)
    requires Inv(cfg, s)
    ensures var t := Apply(cfg, s, step);
            Evolves(s.disk.jobs, s.past.used, t.disk.jobs, t.past.used) && s.past.sent <= t.past.sent
  {
    hide UniqueOk, SentOk, RequestsOk, PendingOk, BucketsOk, QuotaOk, LiveOk, PayloadsOk, FilesOwned, WritersOk;
    hide StepBegin, StepPersist, StepPublish, StepReserve, StepRead, RowTx, StepForget;
    if step.RecoverAttempt? {
      var id := step.id;
      if Apply(cfg, s, step) != s {
        MakeUncertainRow(s.disk.jobs[id]);
        RowEvolves(s.disk.jobs, s.past.used, id, MakeUncertain(s.disk.jobs[id]));
      }
    } else if step.BeginAttempt? || step.Persist? {
      if s.mem.running { SchedulerStepEvolves(cfg, s, step); }
    } else if step.UpdateRow? || step.ReadRemote? || step.Forget? {
      if s.mem.running { LifecycleStepEvolves(cfg, s, step); }
    } else if step.PublishUpload? {
      if s.mem.running { PublicationEvolves(cfg, s, step); }
    } else if step.Reserve? {
      if s.mem.running { ReservationEvolves(cfg, s, step); }
    }
  }

  lemma {:induction false} RunEvolves(cfg: Config, s: System, steps: seq<Step>)
    requires cfg.Valid() && Inv(cfg, s)
    ensures var t := Run(cfg, s, steps);
            Evolves(s.disk.jobs, s.past.used, t.disk.jobs, t.past.used) && s.past.sent <= t.past.sent
    decreases |steps|
  {
    hide Apply, UniqueOk, SentOk, RequestsOk, PendingOk, BucketsOk, QuotaOk, LiveOk, PayloadsOk, FilesOwned, WritersOk;
    if steps != [] {
      var m := Apply(cfg, s, steps[0]);
      StepKeepsInv(cfg, s, steps[0]);
      StepEvolves(cfg, s, steps[0]);
      RunEvolves(cfg, m, steps[1..]);
      var t := Run(cfg, m, steps[1..]);
      EvolvesFurther(s.disk.jobs, s.past.used, m.disk.jobs, m.past.used, t.disk.jobs, t.past.used);
    }
  }

  /** Remote debt is conserved.  Between any two points of any run a row that owns remote tasks, or
      that may have sent bytes, stays; its tasks are never forgotten; a terminal row stays terminal from
      its first terminal instant on; and a result is stored only on an unsuppressed completed row. */
  lemma {:induction false} DebtConserved(cfg: Config, before: seq<Step>, after: seq<Step>, id: JobId)
    requires cfg.Valid() && id in Run(cfg, EMPTY, before).disk.jobs
    ensures var s := Run(cfg, EMPTY, before); var t := Run(cfg, s, after);
            && (s.disk.jobs[id].taskIds != [] || !NeverSent(s.past.sent, id) ==> id in t.disk.jobs)
            && (id in t.disk.jobs ==>
                  var j, k := s.disk.jobs[id], t.disk.jobs[id];
                  && j.taskIds <= k.taskIds
                  && (Terminal(j.state) ==> Terminal(k.state) && k.terminalAt == j.terminalAt)
                  && (k.result.Some? ==> k.state == Completed && !k.suppressed)
                  && j.version <= k.version && (j.version == k.version ==> j == k))
  {
    hide Apply, UniqueOk, RequestsOk, PendingOk, BucketsOk, QuotaOk, LiveOk, PayloadsOk, FilesOwned, WritersOk;
    EmptyIsFine(cfg);
    RunKeepsInv(cfg, EMPTY, before);
    var s := Run(cfg, EMPTY, before);
    RunKeepsInv(cfg, s, after);
    RunEvolves(cfg, s, after);
    assert id in Run(cfg, s, after).disk.jobs ==> RowInv(Run(cfg, s, after).disk.jobs[id]);
  }
}
