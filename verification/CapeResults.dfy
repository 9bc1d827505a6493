/** Where a stored result comes from, and how long it stays. */
module CapeResults {
  import opened Basics
  import opened CapeJob
  import opened CapeProtocol
  import opened CapeRows
  import opened CapeInvariant
  import opened CapeSafety
  import opened CapeTransitions

  ghost predicate Over(j: Job, clock: Option<Instant>) {
    clock.Some? && RetentionElapsed(j, clock.value)
  }

  /** `k` is the completed `j`, with its result unless its retention is over. */
  ghost predicate StillCompleted(j: Job, k: Job, clock: Option<Instant>) {
    && k.state == Completed && k.terminalAt == j.terminalAt
    && (k.result == j.result || (k.result.None? && Over(j, clock)))
  }

  /** Nothing about completion happened between `j` and `k`. */
  ghost predicate NotCompleted(j: Job, k: Job, clock: Option<Instant>) {
    if j.state == Completed then StillCompleted(j, k, clock) else k.state != Completed
  }

  predicate NoEarlierClock(before: Option<Instant>, after: Option<Instant>) {
    before.Some? ==> after.Some? && before.value <= after.value
  }

  predicate IsCancel(step: Step, id: JobId) {
    step.UpdateRow? && step.id == id && step.op.CancelRow?
  }

  predicate IsComplete(step: Step, id: JobId) {
    step.UpdateRow? && step.id == id && step.op.CompleteRow?
  }

  /** What a step may do to the completion of row `id`. */
  ghost predicate StepResult(s: System, step: Step, t: System, id: JobId) {
    && NoEarlierClock(s.disk.clock, t.disk.clock)
    && (id !in s.disk.jobs && id in t.disk.jobs ==> t.disk.jobs[id].state != Completed)
    && (id in s.disk.jobs && id !in t.disk.jobs && s.disk.jobs[id].state == Completed ==>
          Over(s.disk.jobs[id], t.disk.clock))
    && (id in s.disk.jobs && id in t.disk.jobs ==>
          var j, k := s.disk.jobs[id], t.disk.jobs[id];
          || NotCompleted(j, k, t.disk.clock)
          || (IsCancel(step, id) && k.state == Cancelled)
          || (IsComplete(step, id) && step.op.mapped.Some? && j.state == Fetching
              && k.state == Completed && k.result == step.op.mapped))
  }

  lemma RowOpResult(op: RowOp, j: Job, now: Instant, clock: Option<Instant>)
    requires RowOutcome(op, j, now).Ok? && (op.MinimizeRow? ==> clock == Some(now))
    ensures var k := RowOutcome(op, j, now).value;
            || NotCompleted(j, k, clock)
            || (op.CancelRow? && k.state == Cancelled)
            || (op.CompleteRow? && op.mapped.Some? && j.state == Fetching
                && k.state == Completed && k.result == op.mapped)
  {
  }

  lemma RecordResult(j: Job, s: Submission, outcome: Code, backoff: Instant, wall: Instant, now: Instant,
                     clock: Option<Instant>)
    ensures NotCompleted(j, RecordSubmission(j, s, outcome, backoff, wall, now), clock)
  {
    hide Harvested, ClampBackoff, HarvestIncomplete;
  }

  lemma UpdateResult(cfg: Config, s: System, step: Step, id: JobId)
    requires s.mem.running && step.UpdateRow?
    ensures StepResult(s, step, ApplyRunning(cfg, s, step), id)
  {
    hide RowOutcome;
    var t := ApplyRunning(cfg, s, step);
    if t.disk != s.disk {
      var now := RowClock(step.op, s.disk.clock, step.wall).value;
      RowOpResult(step.op, s.disk.jobs[step.id], now, t.disk.clock);
    }
  }

  lemma PersistResult(cfg: Config, s: System, step: Step, id: JobId)
    requires s.mem.running && step.Persist?
    ensures StepResult(s, step, ApplyRunning(cfg, s, step), id)
  {
    hide RecordSubmission, Settled, RecordGuard, ReadsClock;
    if step.k < |s.mem.pending| && s.mem.pending[step.k].id in s.disk.jobs {
      var p := s.mem.pending[step.k];
      var j := s.disk.jobs[p.id];
      var t := ApplyRunning(cfg, s, step);
      forall now {
        RecordResult(j, PacketSubmission(p), PacketOutcome(p), step.backoff, step.wall, now, t.disk.clock);
      }
    }
  }

  lemma BeginResult(cfg: Config, s: System, step: Step, id: JobId)
    requires s.mem.running && step.BeginAttempt?
    ensures StepResult(s, step, ApplyRunning(cfg, s, step), id)
  {
    hide TakeSubmission, Owned, Granted;
  }

  lemma ReadResult(cfg: Config, s: System, step: Step, id: JobId)
    requires s.mem.running && (step.ReadRemote? || step.SpendRequest?)
    ensures StepResult(s, step, ApplyRunning(cfg, s, step), id)
  {
    hide TakeFrom, Granted, ReadGuard;
  }

  lemma ReserveResult(cfg: Config, s: System, step: Step, id: JobId)
    requires s.mem.running && step.Reserve?
    ensures StepResult(s, step, ApplyRunning(cfg, s, step), id)
  {
    hide Reserved, OldDebt, RowsOf;
  }

  lemma PublishResult(cfg: Config, s: System, step: Step, id: JobId)
    requires s.mem.running && step.PublishUpload?
    ensures StepResult(s, step, ApplyRunning(cfg, s, step), id)
  {
    hide HasReusable;
  }

  lemma StepResultIs(cfg: Config, s: System, step: Step, id: JobId)
    ensures StepResult(s, step, Apply(cfg, s, step), id)
  {
    hide StepBegin, StepPersist, StepRead, StepSpend, StepReserve, StepPublish, RowTx, RecoveryAccepts;
    if s.mem.running {
      if step.UpdateRow? {
        UpdateResult(cfg, s, step, id);
      } else if step.Persist? {
        PersistResult(cfg, s, step, id);
      } else if step.BeginAttempt? {
        BeginResult(cfg, s, step, id);
      } else if step.ReadRemote? || step.SpendRequest? {
        ReadResult(cfg, s, step, id);
      } else if step.Reserve? {
        ReserveResult(cfg, s, step, id);
      } else if step.PublishUpload? {
        PublishResult(cfg, s, step, id);
      }
    }
  }

  /* ---------------------------------------------------------------- runs */

  /** Some step of the run cancels row `id`. */
  predicate Cancels(steps: seq<Step>, id: JobId) {
    exists n :: 0 <= n < |steps| && IsCancel(steps[n], id)
  }

  lemma StillOver(j: Job, before: Option<Instant>, after: Option<Instant>)
    requires Over(j, before) && NoEarlierClock(before, after)
    ensures Over(j, after)
  {
  }

  lemma {:induction false} ClockNeverGoesBack(cfg: Config, s: System, steps: seq<Step>)
    ensures NoEarlierClock(s.disk.clock, Run(cfg, s, steps).disk.clock)
    decreases |steps|
  {
    hide Apply;
    if steps != [] {
      StepResultIs(cfg, s, steps[0], "");
      ClockNeverGoesBack(cfg, Apply(cfg, s, steps[0]), steps[1..]);
    }
  }

  /** In every run a completed row keeps its result until it is cancelled or its retention is over. */
  lemma {:induction false} ResultStays(cfg: Config, s: System, steps: seq<Step>, id: JobId)
    requires id in s.disk.jobs && s.disk.jobs[id].state == Completed
    ensures var j, t := s.disk.jobs[id], Run(cfg, s, steps);
            || (id in t.disk.jobs && t.disk.jobs[id].state == Completed && t.disk.jobs[id].result == j.result)
            || Cancels(steps, id)
            || Over(j, t.disk.clock)
    decreases |steps|
  {
    hide Apply, RetentionElapsed;
    if steps != [] {
      var j, m := s.disk.jobs[id], Apply(cfg, s, steps[0]);
      StepResultIs(cfg, s, steps[0], id);
      ClockNeverGoesBack(cfg, m, steps[1..]);
      if Over(j, m.disk.clock) {
        StillOver(j, m.disk.clock, Run(cfg, m, steps[1..]).disk.clock);
      } else if !IsCancel(steps[0], id) {
        ResultStays(cfg, m, steps[1..], id);
        OverAgain(j, m.disk.jobs[id], Run(cfg, m, steps[1..]).disk.clock);
        CancelsLater(steps, id);
      }
    }
  }

  lemma OverAgain(j: Job, k: Job, clock: Option<Instant>)
    requires k.terminalAt == j.terminalAt
    ensures Over(k, clock) <==> Over(j, clock)
  {
  }

  lemma CancelsLater(steps: seq<Step>, id: JobId)
    requires steps != []
    ensures Cancels(steps[1..], id) ==> Cancels(steps, id)
  {
    if n :| 0 <= n < |steps| - 1 && IsCancel(steps[1..][n], id) {
      assert steps[n + 1] == steps[1..][n];
    }
  }

  /** Step `n` of the run completes row `id`, which was being fetched, with result `r`. */
  ghost predicate CompletedBy(cfg: Config, s: System, steps: seq<Step>, id: JobId, n: nat, r: ResultBytes) {
    && n < |steps| && IsComplete(steps[n], id) && steps[n].op.mapped == Some(r)
    && var before := Run(cfg, s, steps[..n]);
    && id in before.disk.jobs && before.disk.jobs[id].state == Fetching
  }

  /** The completed row has result `r`, unless its retention is over. */
  ghost predicate Carries(j: Job, r: ResultBytes, clock: Option<Instant>) {
    j.state == Completed && (j.result == Some(r) || (j.result.None? && Over(j, clock)))
  }

  /** A row that is completed at the end of a run was so at its start, or was completed by a step of the run that
      carried the row's result. */
  lemma {:induction false} ResultIsCarried(cfg: Config, s: System, steps: seq<Step>, id: JobId)
    requires id in Run(cfg, s, steps).disk.jobs && Run(cfg, s, steps).disk.jobs[id].state == Completed
    ensures var t := Run(cfg, s, steps);
            || (id in s.disk.jobs && s.disk.jobs[id].state == Completed
                && StillCompleted(s.disk.jobs[id], t.disk.jobs[id], t.disk.clock))
            || exists n: nat, r :: CompletedBy(cfg, s, steps, id, n, r) && Carries(t.disk.jobs[id], r, t.disk.clock)
    decreases |steps|
  {
    hide Apply, RetentionElapsed, NotCompleted, CompletedBy;
    if steps != [] {
      var m := Apply(cfg, s, steps[0]);
      var t := Run(cfg, m, steps[1..]);
      ResultIsCarried(cfg, m, steps[1..], id);
      if n: nat, r :| CompletedBy(cfg, m, steps[1..], id, n, r) && Carries(t.disk.jobs[id], r, t.disk.clock) {
        CompletedLater(cfg, s, steps, id, n, r);
      } else {
        StepResultIs(cfg, s, steps[0], id);
        ClockNeverGoesBack(cfg, m, steps[1..]);
        CompletedFirst(cfg, s, steps, id, t);
      }
    }
  }

  lemma CompletedLater(cfg: Config, s: System, steps: seq<Step>, id: JobId, n: nat, r: ResultBytes)
    requires steps != [] && CompletedBy(cfg, Apply(cfg, s, steps[0]), steps[1..], id, n, r)
    ensures CompletedBy(cfg, s, steps, id, n + 1, r)
  {
    hide Apply;
    assert steps[..n + 1][1..] == steps[1..][..n] && steps[..n + 1][0] == steps[0];
  }

  lemma CompletedFirst(cfg: Config, s: System, steps: seq<Step>, id: JobId, t: System)
    requires steps != [] && id in t.disk.jobs
    requires var m := Apply(cfg, s, steps[0]);
             && StepResult(s, steps[0], m, id) && NoEarlierClock(m.disk.clock, t.disk.clock)
             && id in m.disk.jobs && m.disk.jobs[id].state == Completed
             && StillCompleted(m.disk.jobs[id], t.disk.jobs[id], t.disk.clock)
    ensures || (id in s.disk.jobs && s.disk.jobs[id].state == Completed
                && StillCompleted(s.disk.jobs[id], t.disk.jobs[id], t.disk.clock))
            || exists n: nat, r :: CompletedBy(cfg, s, steps, id, n, r) && Carries(t.disk.jobs[id], r, t.disk.clock)
  {
    hide Apply;
    var m := Apply(cfg, s, steps[0]);
    var j, k := s.disk.jobs[id], m.disk.jobs[id];
    OverAgain(k, t.disk.jobs[id], t.disk.clock);
    if NotCompleted(j, k, m.disk.clock) {
      OverAgain(j, k, t.disk.clock);
    } else {
      assert steps[..0] == [];
      assert CompletedBy(cfg, s, steps, id, 0, steps[0].op.mapped.value);
    }
  }

  /** In every run from an empty store the result of a completed row is the one that its completing step carried. */
  lemma {:induction false} ResultsAreCarried(cfg: Config, steps: seq<Step>, id: JobId)
    requires id in Run(cfg, EMPTY, steps).disk.jobs && Run(cfg, EMPTY, steps).disk.jobs[id].state == Completed
    ensures var t := Run(cfg, EMPTY, steps);
            exists n: nat, r :: CompletedBy(cfg, EMPTY, steps, id, n, r) && Carries(t.disk.jobs[id], r, t.disk.clock)
  {
    hide Run, CompletedBy, Carries;
    ResultIsCarried(cfg, EMPTY, steps, id);
  }

  /** A report for a row as it is, in time, is stored: in every reachable state its step leaves the row completed with
      that result. */
  lemma {:induction false} ReportIsStored(cfg: Config, steps: seq<Step>, id: JobId, version: int, task: TaskRef,
                                          r: ResultBytes, wall: Instant)
    requires cfg.Valid()
    requires var s := Run(cfg, EMPTY, steps);
             && s.mem.running && id in s.disk.jobs && Reportable(s.disk.jobs[id], version, task, Fetching)
             && ReadClock(s.disk.clock, wall).Ok?
             && ReadClock(s.disk.clock, wall).value < s.disk.jobs[id].analysisDeadline
    ensures var t := Run(cfg, EMPTY, steps + [UpdateRow(id, CompleteRow(version, task, Some(r)), wall)]);
            id in t.disk.jobs && t.disk.jobs[id].state == Completed && t.disk.jobs[id].result == Some(r)
  {
    hide Run, CompleteReport, RowInv;
    var s := Run(cfg, EMPTY, steps);
    var step := UpdateRow(id, CompleteRow(version, task, Some(r)), wall);
    RunThen(cfg, EMPTY, steps, step);
    RowInReach(cfg, steps, id);
    CompletesExactly(s.disk.jobs[id], version, task, Some(r), ReadClock(s.disk.clock, wall).value);
  }

  lemma RowInReach(cfg: Config, steps: seq<Step>, id: JobId)
    requires cfg.Valid() && id in Run(cfg, EMPTY, steps).disk.jobs
    ensures RowInv(Run(cfg, EMPTY, steps).disk.jobs[id])
  {
    hide Run, UniqueOk, SentOk, RequestsOk, PendingOk, BucketsOk, QuotaOk, LiveOk, PayloadsOk, FilesOwned, WritersOk;
    ReachableIsFine(cfg, steps);
  }
}
