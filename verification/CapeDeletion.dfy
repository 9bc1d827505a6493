/** In every run a row counts as deleted remotely only when all its tasks are acknowledged. */
module CapeDeletion {
  import opened Basics
  import opened CapeJob
  import opened CapeProtocol
  import opened CapeRows
  import opened CapeInvariant
  import opened CapeSafety
  import opened CapeTransitions

  /** Acknowledged are only the row's own tasks; and a row that counts as deleted owes no other. */
  ghost predicate DebtOk(j: Job) {
    AcksOk(j) && (j.cleanup == DeleteAcknowledgedUnverified ==>
      j.taskIds != [] && !j.unknownDebt && AllAcknowledged(j))
  }

  ghost predicate DebtsOk(jobs: map<JobId, Job>) {
    forall id :: id in jobs ==> DebtOk(jobs[id])
  }

  /** `k` has the tasks and acknowledgements of `j`, and counts as deleted only if `j` did. */
  predicate SameDebt(j: Job, k: Job) {
    && k.taskIds == j.taskIds && k.deleteAcknowledgedIds == j.deleteAcknowledgedIds
    && (k.cleanup == DeleteAcknowledgedUnverified ==> k.cleanup == j.cleanup && k.unknownDebt == j.unknownDebt)
  }

  lemma EndingLeavesDebt(j: Job, state: JobState, reason: Code, now: Instant, result: Option<ResultBytes>)
    ensures SameDebt(j, Bump(Terminate(j, state, reason, now)))
    ensures SameDebt(j, Stamped(Terminate(j, state, reason, now)))
    ensures SameDebt(j, Stamped(Terminate(j, state, reason, now).(result := result)))
  {
  }

  lemma PollLeavesDebt(j: Job, reason: Code)
    ensures SameDebt(j, Stamped(j)) && SameDebt(j, Stamped(j.(state := Fetching)))
    ensures SameDebt(j, Stamped(j.(reason := reason)))
  {
  }

  lemma ReportLeavesDebt(op: RowOp, j: Job, now: Instant)
    requires op.StatusRow? || op.CompleteRow? || op.ReportErrorRow?
    requires RowOutcome(op, j, now).Ok?
    ensures SameDebt(j, RowOutcome(op, j, now).value)
  {
    hide SameDebt, Terminate, Stamped, ReportGuard, FailedStatus;
    EndingLeavesDebt(j, Failed, Remote, now, None);
    EndingLeavesDebt(j, Failed, Protocol, now, None);
    EndingLeavesDebt(j, Completed, NoCode, now, if op.CompleteRow? then op.mapped else None);
    PollLeavesDebt(j, if op.ReportErrorRow? && op.code != NoCode then op.code else Transport);
  }

  lemma HintLeavesDebt(j: Job, delay: Instant, now: Instant)
    ensures SameDebt(j, ExtendRetry(j, delay, now)) && SameDebt(j, WakePoll(j, now))
  {
  }

  lemma RetentionLeavesDebt(j: Job, now: Instant)
    ensures SameDebt(j, j) && SameDebt(j, Minimize(j)) && SameDebt(j, MarkCleanupDeadline(j, now))
  {
  }

  lemma OtherOpLeavesDebt(op: RowOp, j: Job, now: Instant)
    requires !op.DeletionRow? && !op.StatusRow? && !op.CompleteRow? && !op.ReportErrorRow?
    requires RowOutcome(op, j, now).Ok?
    ensures SameDebt(j, RowOutcome(op, j, now).value)
  {
    hide SameDebt, Terminate, Bump, RetentionElapsed, Forgettable, DeadlinePassed, ExtendRetry, WakePoll, Minimize,
         MarkCleanupDeadline;
    EndingLeavesDebt(j, Cancelled, NoCode, now, None);
    EndingLeavesDebt(j, Expired, Deadline, now, None);
    RetentionLeavesDebt(j, now);
    HintLeavesDebt(j, if op.RetryRow? then op.delay else 0, now);
  }

  lemma RowOpKeepsDebt(op: RowOp, j: Job, now: Instant)
    requires RowInv(j) && DebtOk(j) && RowOutcome(op, j, now).Ok?
    ensures DebtOk(RowOutcome(op, j, now).value)
  {
    hide AcksOk, AllAcknowledged, RowInv;
    if op.DeletionRow? {
      DeletionDecides(j, op.version, op.task, op.acknowledged);
    } else {
      hide RowOutcome;
      if op.StatusRow? || op.CompleteRow? || op.ReportErrorRow? {
        ReportLeavesDebt(op, j, now);
      } else {
        OtherOpLeavesDebt(op, j, now);
      }
      SameTasks(j, RowOutcome(op, j, now).value);
    }
  }

  lemma SameTasks(j: Job, k: Job)
    requires k.taskIds == j.taskIds && k.deleteAcknowledgedIds == j.deleteAcknowledgedIds
    ensures AcksOk(k) <==> AcksOk(j)
    ensures AllAcknowledged(k) <==> AllAcknowledged(j)
  {
  }

  lemma NoTasksNoAcks(j: Job)
    requires AcksOk(j) && j.taskIds == []
    ensures j.deleteAcknowledgedIds == []
  {
    if |j.deleteAcknowledgedIds| > 0 {
      FirstAck(j);
    }
  }

  lemma FirstAck(j: Job)
    requires AcksOk(j) && |j.deleteAcknowledgedIds| > 0
    ensures j.deleteAcknowledgedIds[0] in j.taskIds
  {
  }

  lemma LateKeepsTasks(h: Job, previous: Job, s: Submission, outcome: Code, invalid: bool)
    ensures var k := LateOutcome(h, previous, s, outcome, invalid);
            && k.taskIds == h.taskIds && k.deleteAcknowledgedIds == h.deleteAcknowledgedIds
            && k.cleanup != DeleteAcknowledgedUnverified
  {
  }

  lemma InTimeKeepsTasks(h: Job, s: Submission, outcome: Code, invalid: bool, backoff: Instant, wall: Instant,
                         now: Instant)
    ensures var k := InTimeOutcome(h, s, outcome, invalid, backoff, wall, now);
            && k.taskIds == h.taskIds && k.deleteAcknowledgedIds == h.deleteAcknowledgedIds
            && k.cleanup != DeleteAcknowledgedUnverified
  {
    hide ClampBackoff, CleanSuccess, MustRetry, BeforeTime;
    var k := InTimeOutcome(h, s, outcome, invalid, backoff, wall, now);
    if |s.tasks| > 1 {
      assert k.state == Failed;
    } else if CleanSuccess(h, s, outcome, invalid) {
      assert k.state == RemotePending;
    } else if MustRetry(s, outcome, invalid) {
      assert k.state == Queued;
    }
  }

  lemma RecordedTasks(j: Job, version: int, s: Submission, outcome: Code, backoff: Instant, wall: Instant,
                      now: Instant)
    requires RowInv(j) && RecordGuard(j, version)
    ensures var k := RecordSubmission(j, s, outcome, backoff, wall, now);
            && j.taskIds == [] && Distinct(k.taskIds) && k.deleteAcknowledgedIds == j.deleteAcknowledgedIds
            && k.cleanup != DeleteAcknowledgedUnverified
  {
    hide HarvestIncomplete, LateOutcome, InTimeOutcome;
    var ids := Harvested(s.tasks, j.identity.generation, HarvestLimit(s.tasks));
    assert j.taskIds + ids == ids;
    var h, invalid := Harvest(j, s, outcome), HarvestIncomplete(s.tasks, j.identity.generation);
    LateKeepsTasks(h, j, s, outcome, invalid);
    InTimeKeepsTasks(h, s, outcome, invalid, backoff, wall, now);
  }

  lemma RecordKeepsDebt(j: Job, version: int, s: Submission, outcome: Code, backoff: Instant, wall: Instant,
                        now: Instant)
    requires RowInv(j) && DebtOk(j) && RecordGuard(j, version)
    ensures DebtOk(RecordSubmission(j, s, outcome, backoff, wall, now))
  {
    hide RecordSubmission, RowInv, RecordGuard;
    RecordedTasks(j, version, s, outcome, backoff, wall, now);
    NoTasksNoAcks(j);
  }

  lemma StepKeepsDebts(cfg: Config, s: System, step: Step)
    requires RowsOk(s.disk.jobs, s.past.used) && DebtsOk(s.disk.jobs)
    ensures DebtsOk(Apply(cfg, s, step).disk.jobs)
  {
    hide StepBegin, StepPersist, StepRead, StepSpend, StepReserve, StepPublish, RowTx, RecoveryAccepts, DebtOk, RowInv,
         MakeUncertain;
    if step.RecoverAttempt? && step.id in s.disk.jobs {
      UncertainKeepsDebt(s.disk.jobs[step.id]);
    } else if s.mem.running {
      if step.UpdateRow? {
        UpdateKeepsDebts(cfg, s, step);
      } else if step.Persist? {
        PersistKeepsDebts(cfg, s, step);
      } else if step.BeginAttempt? || step.ReadRemote? || step.SpendRequest? {
        AttemptKeepsDebts(cfg, s, step);
      } else if step.Reserve? || step.PublishUpload? {
        IngressKeepsDebts(cfg, s, step);
      }
    }
  }

  lemma UncertainKeepsDebt(j: Job)
    requires DebtOk(j)
    ensures DebtOk(MakeUncertain(j))
  {
    hide AcksOk, AllAcknowledged;
    SameTasks(j, MakeUncertain(j));
  }

  lemma UpdateKeepsDebts(cfg: Config, s: System, step: Step)
    requires RowsOk(s.disk.jobs, s.past.used) && DebtsOk(s.disk.jobs) && s.mem.running && step.UpdateRow?
    ensures DebtsOk(ApplyRunning(cfg, s, step).disk.jobs)
  {
    hide RowOutcome, DebtOk, RowInv;
    if ApplyRunning(cfg, s, step).disk != s.disk {
      RowOpKeepsDebt(step.op, s.disk.jobs[step.id], RowClock(step.op, s.disk.clock, step.wall).value);
    }
  }

  lemma PersistKeepsDebts(cfg: Config, s: System, step: Step)
    requires RowsOk(s.disk.jobs, s.past.used) && DebtsOk(s.disk.jobs) && s.mem.running && step.Persist?
    ensures DebtsOk(ApplyRunning(cfg, s, step).disk.jobs)
  {
    hide RecordSubmission, Settled, RecordGuard, ReadsClock, DebtOk, RowInv, PacketVersion;
    if step.k < |s.mem.pending| && s.mem.pending[step.k].id in s.disk.jobs {
      var p := s.mem.pending[step.k];
      var j := s.disk.jobs[p.id];
      if RecordGuard(j, PacketVersion(j, p)) {
        forall now {
          RecordKeepsDebt(j, PacketVersion(j, p), PacketSubmission(p), PacketOutcome(p), step.backoff, step.wall, now);
        }
      }
    }
  }

  lemma AttemptKeepsDebts(cfg: Config, s: System, step: Step)
    requires DebtsOk(s.disk.jobs) && s.mem.running && (step.BeginAttempt? || step.ReadRemote? || step.SpendRequest?)
    ensures DebtsOk(ApplyRunning(cfg, s, step).disk.jobs)
  {
    hide TakeSubmission, TakeFrom, Owned, Granted, ReadGuard, AcksOk, AllAcknowledged;
    var t := ApplyRunning(cfg, s, step);
    if !step.SpendRequest? && t.disk != s.disk {
      SameTasks(s.disk.jobs[step.id], t.disk.jobs[step.id]);
    }
  }

  lemma IngressKeepsDebts(cfg: Config, s: System, step: Step)
    requires DebtsOk(s.disk.jobs) && s.mem.running && (step.Reserve? || step.PublishUpload?)
    ensures DebtsOk(ApplyRunning(cfg, s, step).disk.jobs)
  {
    hide HasReusable, Reserved, OldDebt, RowsOf, AcksOk, AllAcknowledged;
    var t := ApplyRunning(cfg, s, step);
    if step.PublishUpload? && t.disk != s.disk {
      SameTasks(s.disk.jobs[step.id], t.disk.jobs[step.id]);
    } else if t.disk != s.disk {
      NothingAcknowledged(t.disk.jobs[step.id]);
    }
  }

  lemma NothingAcknowledged(j: Job)
    requires j.taskIds == [] && j.deleteAcknowledgedIds == []
    ensures AcksOk(j)
  {
  }

  lemma {:induction false} RunKeepsDebts(cfg: Config, s: System, steps: seq<Step>)
    requires cfg.Valid() && Inv(cfg, s) && DebtsOk(s.disk.jobs)
    ensures DebtsOk(Run(cfg, s, steps).disk.jobs)
    decreases |steps|
  {
    hide Apply, DebtsOk, UniqueOk, SentOk, RequestsOk, PendingOk, BucketsOk, QuotaOk, LiveOk, PayloadsOk, FilesOwned,
         WritersOk;
    if steps != [] {
      StepKeepsInv(cfg, s, steps[0]);
      StepKeepsDebts(cfg, s, steps[0]);
      RunKeepsDebts(cfg, Apply(cfg, s, steps[0]), steps[1..]);
    }
  }

  /** A row counts as deleted only when it has remote tasks, every one of them is acknowledged and no debt is unknown;
      and nothing but its own tasks is ever acknowledged. */
  lemma {:induction false} DeletedMeansAcknowledged(cfg: Config, steps: seq<Step>, id: JobId)
    requires cfg.Valid() && id in Run(cfg, EMPTY, steps).disk.jobs
    ensures var j := Run(cfg, EMPTY, steps).disk.jobs[id];
            && (forall x :: x in j.deleteAcknowledgedIds ==> x in j.taskIds)
            && (j.cleanup == DeleteAcknowledgedUnverified ==>
                  j.taskIds != [] && !j.unknownDebt && forall x :: x in j.taskIds ==> x in j.deleteAcknowledgedIds)
  {
    hide Run, Inv;
    EmptyIsFine(cfg);
    RunKeepsDebts(cfg, EMPTY, steps);
    assert DebtOk(Run(cfg, EMPTY, steps).disk.jobs[id]);
  }
}
