/** When each transition of one job row is taken, and what it makes of the row. */
module CapeTransitions {
  import opened Basics
  import opened CapeJob
  import opened CapeRows

  /* ---------------------------------------------------------------- endings */

  predicate MayHaveSent(j: Job) {
    j.state == Submitting || j.state == SubmitUncertain
  }

  /** `k` is `j`, ended: its result is gone, its first end counts, and a row that may have sent bytes owes a debt
      of unknown size. */
  predicate Ended(j: Job, k: Job, state: JobState, reason: Code, now: Instant) {
    && k.state == state && k.reason == reason && k.result.None? && k.version == j.version + 1
    && k.terminalAt == (if Terminal(j.state) then j.terminalAt else Some(now))
    && (if MayHaveSent(j) then k.unknownDebt && k.dedupBarrier && k.cleanup == RemoteDeleteUnknown
        else (k.unknownDebt, k.dedupBarrier, k.cleanup) == (j.unknownDebt, j.dedupBarrier, j.cleanup))
    && (k.suppressed <==> j.suppressed || state == Cancelled)
    && k == j.(state := k.state, reason := k.reason, result := k.result, version := k.version,
               terminalAt := k.terminalAt, unknownDebt := k.unknownDebt, dedupBarrier := k.dedupBarrier,
               cleanup := k.cleanup, suppressed := k.suppressed)
  }

  /** The deadline that binds a row: a queued one has two, one that is under way has one, the others have none. */
  predicate Overdue(j: Job, now: Instant) {
    match j.state
    case Queued => j.queueDeadline <= now || j.analysisDeadline <= now
    case Submitting => j.analysisDeadline <= now
    case SubmitUncertain => j.analysisDeadline <= now
    case RemotePending => j.analysisDeadline <= now
    case Fetching => j.analysisDeadline <= now
    case _ => false
  }

  /** A row expires exactly when it is overdue. */
  lemma ExpiresExactly(j: Job, now: Instant)
    requires RowInv(j)
    ensures if Overdue(j, now) then Ended(j, Expire(j, now), Expired, Deadline, now) else Expire(j, now) == j
  {
  }

  /** Everything but a staged or cancelled row can be cancelled. */
  lemma CancelsExactly(j: Job, now: Instant)
    requires RowInv(j)
    ensures if j.state == Staging || j.state == Cancelled then Cancel(j, now) == j
            else Ended(j, Cancel(j, now), Cancelled, NoCode, now)
  {
  }

  /* ---------------------------------------------------------------- reports */

  /** The row is in the expected state, under the expected version, and `task` is its only remote task. */
  predicate Reportable(j: Job, version: int, task: TaskRef, expected: JobState) {
    && j.version == version && j.state == expected && !j.suppressed && !j.unknownDebt
    && j.taskIds == [task.id] && j.identity.generation == task.generation
  }

  /** A poll or report is refused exactly when it is not about the row as it is, or comes too late. */
  lemma ReportsExactly(j: Job, version: int, task: TaskRef, expected: JobState, now: Instant)
    ensures ReportGuard(j, version, task, expected, now) ==
            if !Reportable(j, version, task, expected) then Err(StateConflict)
            else if j.analysisDeadline <= now then Err(Coded(Deadline)) else Ok(())
  {
    if |j.taskIds| == 1 {
      assert j.taskIds == [j.taskIds[0]];
    }
  }

  /** `k` is `j` after a poll or report: a new version, and no poll hint. */
  predicate Polled(j: Job, k: Job, state: JobState, reason: Code) {
    k == j.(state := state, reason := reason, version := j.version + 1, pollWakeAt := None)
  }

  /** `k` is `j`, ended by a report. */
  predicate Concluded(j: Job, k: Job, state: JobState, reason: Code, result: Option<ResultBytes>, now: Instant) {
    && k.result == result && k.pollWakeAt.None?
    && Ended(j, k.(result := None, pollWakeAt := j.pollWakeAt), state, reason, now)
  }

  /** A report completes the job with its own result; one that does not normalize fails it without a result. */
  lemma CompletesExactly(j: Job, version: int, task: TaskRef, mapped: Option<ResultBytes>, now: Instant)
    requires RowInv(j)
    ensures var r := CompleteReport(j, version, task, mapped, now);
            && (r.Ok? <==> Reportable(j, version, task, Fetching) && now < j.analysisDeadline)
            && (r.Ok? && mapped.Some? ==> Concluded(j, r.value, Completed, NoCode, mapped, now))
            && (r.Ok? && mapped.None? ==> Concluded(j, r.value, Failed, Protocol, None, now))
  {
    hide Terminate, Concluded, RowInv, ReportGuard;
    ReportsExactly(j, version, task, Fetching, now);
    TerminateConcludes(j, Completed, NoCode, mapped, now);
    TerminateConcludes(j, Failed, Protocol, None, now);
  }

  lemma TerminateConcludes(j: Job, state: JobState, reason: Code, result: Option<ResultBytes>, now: Instant)
    requires RowInv(j)
    ensures Concluded(j, Stamped(Terminate(j, state, reason, now).(result := result)), state, reason, result, now)
    ensures result.None? ==> Terminate(j, state, reason, now).(result := result) == Terminate(j, state, reason, now)
  {
  }

  predicate Active(status: Status) {
    status in {Pending, Running, Distributed, RemoteCompleted, Recovered, DistributedCompleted}
  }

  predicate Fails(status: Status) {
    status in {Banned, FailedAnalysis, FailedProcessing, FailedReporting}
  }

  /** Only `reported` permits fetching, the four failures end the job, the six active statuses leave it as it is, and
      an unknown one is an error. */
  lemma StatusDecides(j: Job, version: int, task: TaskRef, status: Status, now: Instant)
    requires RowInv(j)
    ensures var r := RecordStatus(j, version, task, status, now);
            var mine := Reportable(j, version, task, RemotePending) && now < j.analysisDeadline;
            && (r.Ok? <==> mine && (status == Reported || Active(status) || Fails(status)))
            && (r == Err(Coded(Protocol)) <==> mine && status == UnknownStatus)
            && (r.Ok? && status == Reported ==> Polled(j, r.value, Fetching, j.reason))
            && (r.Ok? && Active(status) ==> Polled(j, r.value, RemotePending, j.reason))
            && (r.Ok? && Fails(status) ==> Concluded(j, r.value, Failed, Remote, None, now))
  {
    hide Terminate, Concluded, RowInv, ReportGuard;
    ReportsExactly(j, version, task, RemotePending, now);
    TerminateConcludes(j, Failed, Remote, None, now);
  }

  /** A failed fetch only leaves its code. */
  lemma ReportErrorDecides(j: Job, version: int, task: TaskRef, code: Code, now: Instant)
    ensures var r := RecordReportError(j, version, task, code, now);
            && (r.Ok? <==> Reportable(j, version, task, Fetching) && now < j.analysisDeadline)
            && (r.Ok? ==> r.value.reason != NoCode && (code != NoCode ==> r.value.reason == code))
            && (r.Ok? ==> Polled(j, r.value, Fetching, r.value.reason))
  {
    ReportsExactly(j, version, task, Fetching, now);
  }

  /* ---------------------------------------------------------------- remote deletion */

  ghost predicate Distinct(ids: seq<int>) {
    forall i, k :: 0 <= i < k < |ids| ==> ids[i] != ids[k]
  }

  /** Acknowledged are only the row's own tasks, each once. */
  ghost predicate AcksOk(j: Job) {
    && Distinct(j.taskIds) && Distinct(j.deleteAcknowledgedIds)
    && forall i :: 0 <= i < |j.deleteAcknowledgedIds| ==> j.deleteAcknowledgedIds[i] in j.taskIds
  }

  ghost predicate AllAcknowledged(j: Job) {
    forall i :: 0 <= i < |j.taskIds| ==> j.taskIds[i] in j.deleteAcknowledgedIds
  }

  lemma {:induction false} ElementsOf(ids: seq<int>)
    requires Distinct(ids)
    ensures |set x | x in ids| == |ids|
  {
    if ids != [] {
      var front, last := ids[..|ids| - 1], ids[|ids| - 1];
      ElementsOf(front);
      assert ids == front + [last];
      assert (set x | x in ids) == (set x | x in front) + {last};
    }
  }

  lemma SubsetOfSameSize(a: set<int>, b: set<int>)
    requires a <= b
    ensures |a| <= |b|
    ensures |a| == |b| ==> a == b
  {
    assert b == a + (b - a);
    assert |b| == |a| + |b - a|;
  }

  /** As many acknowledgements as tasks means that every task is acknowledged. */
  lemma CountIsEnough(tasks: seq<int>, acks: seq<int>)
    requires Distinct(tasks) && Distinct(acks) && forall i :: 0 <= i < |acks| ==> acks[i] in tasks
    ensures |acks| == |tasks| <==> forall i :: 0 <= i < |tasks| ==> tasks[i] in acks
  {
    var t, a := set x | x in tasks, set x | x in acks;
    ElementsOf(tasks);
    ElementsOf(acks);
    assert a <= t;
    SubsetOfSameSize(a, t);
    if forall i :: 0 <= i < |tasks| ==> tasks[i] in acks {
      assert a == t;
    }
    if |acks| == |tasks| {
      assert a == t;
      assert forall i :: 0 <= i < |tasks| ==> tasks[i] in t;
    }
  }

  /** A deletion response is taken exactly for an owned task of a terminal row; the row counts as deleted exactly when
      this response and those before it acknowledge every task and no debt is unknown. */
  lemma DeletionDecides(j: Job, version: int, task: TaskRef, acknowledged: bool)
    requires AcksOk(j)
    ensures var r := RecordDeletion(j, version, task, acknowledged);
            && (r.Ok? <==> j.version == version && Terminal(j.state) && task.id in j.taskIds
                           && task.generation == j.identity.generation)
            && (r.Ok? ==>
                  var k := r.value;
                  && AcksOk(k) && k.version == j.version + 1 && k.dedupBarrier
                  && (forall x :: x in k.deleteAcknowledgedIds <==>
                        x in j.deleteAcknowledgedIds || (acknowledged && x == task.id))
                  && (k.cleanup == DeleteAcknowledgedUnverified <==>
                        acknowledged && !j.unknownDebt && AllAcknowledged(k))
                  && (k.cleanup == RemoteDeletePending <==> acknowledged && !j.unknownDebt && !AllAcknowledged(k))
                  && (k.cleanup == RemoteDeleteUnknown <==> !acknowledged || j.unknownDebt)
                  && k == j.(version := k.version, deleteAcknowledgedIds := k.deleteAcknowledgedIds,
                             cleanup := k.cleanup, dedupBarrier := true))
  {
    var r := RecordDeletion(j, version, task, acknowledged);
    if r.Ok? {
      CountIsEnough(j.taskIds, r.value.deleteAcknowledgedIds);
    }
  }

  /* ---------------------------------------------------------------- retention */

  /** A terminal row may be dropped exactly when nothing stops a later upload: it never held a remote task. */
  lemma ForgettableExactly(j: Job)
    requires RowInv(j)
    ensures Forgettable(j) <==> !j.dedupBarrier
  {
  }

  /** What retention leaves of a row that still owes: everything but its result and its verdict. */
  lemma MinimizesExactly(j: Job)
    ensures var k := Minimize(j);
            && k.result.None? && k.suppressed && k.dedupBarrier && k.staticVerdict == ""
            && k == j.(result := None, suppressed := true, dedupBarrier := true, staticVerdict := "",
                       version := k.version)
            && (k.version == j.version <==> k == j) && j.version <= k.version <= j.version + 1
  {
  }

  /** A debt of a terminal row is reported overdue once, two days after its attempt. */
  lemma DebtBecomesOverdue(j: Job, now: Instant)
    requires RowInv(j)
    ensures var k := MarkCleanupDeadline(j, now);
            && (k.cleanupDeadlineExceeded <==>
                  || j.cleanupDeadlineExceeded
                  || (Terminal(j.state) && j.cleanup != NotSubmitted && j.attemptAt.Some?
                      && j.attemptAt.value + 48 * HOUR <= now))
            && (if k.cleanupDeadlineExceeded == j.cleanupDeadlineExceeded then k == j
                else k == j.(cleanupDeadlineExceeded := true, version := j.version + 1))
  {
  }

  /* ---------------------------------------------------------------- reads */

  /** When the row may next be asked about: at its own time, or at once after a callback, but never before a time that
      the remote side asked for. */
  predicate ReadDue(j: Job, now: Instant) {
    && (j.retryAfterUntil.Some? && now < j.retryAfterUntil.value && j.nextAttempt.Some? ==> j.nextAttempt.value <= now)
    && (j.nextAttempt.Some? && now < j.nextAttempt.value ==> j.pollWakeAt.Some? && j.pollWakeAt.value <= now)
  }

  /** A read is allowed exactly when it is due, for a row that is being polled and not overdue, or for a terminal row
      within two days of its attempt. */
  lemma ReadsExactly(j: Job, version: int, state: JobState, now: Instant)
    ensures ReadGuard(j, version, state, now).Ok? <==>
            && j.version == version && j.state == state && ReadDue(j, now)
            && (if Terminal(j.state) then j.attemptAt.Some? && now < j.attemptAt.value + 48 * HOUR
                else (j.state == RemotePending || j.state == Fetching) && now < j.analysisDeadline && !j.suppressed)
  {
  }

  /** A read takes its hint with it and puts the next one off. */
  lemma ReadIsPaced(j: Job, delay: Instant, now: Instant)
    requires delay > 0
    ensures var k := ReserveRead(j, delay, now);
            && k.pollWakeAt.None? && k.retryAfterUntil.None? && k.version == j.version + 1
            && (forall later :: now <= later ==> (ReadDue(k, later) <==> now + delay <= later))
            && k.readAttempts == (if j.readAttempts >= 16 then j.readAttempts else j.readAttempts + 1)
            && k == j.(nextAttempt := k.nextAttempt, retryAfterUntil := None, readAttempts := k.readAttempts,
                       pollWakeAt := None, version := k.version)
  {
  }

  predicate Latest(before: Option<Instant>, next: Instant, after: Option<Instant>) {
    after == Some(if before.Some? && next <= before.value then before.value else next)
  }

  /** A retry hint moves both retry times to the later of what they were and what it asks for. */
  lemma RetryExtends(j: Job, delay: Instant, now: Instant)
    ensures var k := ExtendRetry(j, delay, now);
            && Latest(j.nextAttempt, now + delay, k.nextAttempt)
            && Latest(j.retryAfterUntil, now + delay, k.retryAfterUntil)
            && k == j.(nextAttempt := k.nextAttempt, retryAfterUntil := k.retryAfterUntil, version := k.version)
            && k.version == (if (k.nextAttempt, k.retryAfterUntil) == (j.nextAttempt, j.retryAfterUntil)
                             then j.version else j.version + 1)
  {
  }

  /** A callback wakes exactly a row that is being polled; then a read is due unless the remote side asked to wait. */
  lemma WakesExactly(j: Job, now: Instant)
    ensures var k := WakePoll(j, now);
            if (j.state == RemotePending || j.state == Fetching) && !j.suppressed && now < j.analysisDeadline
            then && k == j.(pollWakeAt := Some(now), version := j.version + 1)
                 && (ReadDue(k, now) <==>
                       (BeforeTime(now, j.nextAttempt) ==> !BeforeTime(now, j.retryAfterUntil)))
            else k == j
  {
  }

  /* ---------------------------------------------------------------- submission */

  /** Publication keeps what was measured and reserves just that. */
  lemma PublishesExactly(j: Job, digest: string, size: nat, verdict: string)
    ensures var k := Publish(j, digest, size, verdict);
            && k.state == Queued && k.payloadBytes == size && k.reservedBytes == size + METADATA_AND_RESULT
            && k.staticVerdict == verdict && k.version == j.version + 1
            && k.identity.digest == digest && k.identity.(digest := "") == j.identity.(digest := "")
            && k == j.(state := k.state, payloadBytes := k.payloadBytes, reservedBytes := k.reservedBytes,
                       staticVerdict := k.staticVerdict, version := k.version, identity := k.identity)
  {
  }

  /** An attempt is dated, counted and named by the row's new version. */
  lemma BeginsAttempt(j: Job, now: Instant)
    ensures var k := Begin(j, now);
            && k.state == Submitting && k.version == j.version + 1 && k.submissionVersion == k.version
            && !k.submissionRecorded && k.attempts == j.attempts + 1 && k.attemptAt == Some(now) && k.nextAttempt.None?
            && k == j.(state := k.state, version := k.version, submissionVersion := k.submissionVersion,
                       submissionRecorded := false, attempts := k.attempts, attemptAt := k.attemptAt,
                       nextAttempt := None)
  {
  }

  /** Task `i` is the first valid one with its ID. */
  ghost predicate FirstAt(tasks: seq<TaskRef>, generation: string, i: nat, x: int) {
    && i < |tasks| && HarvestableTask(tasks[i], generation) && tasks[i].id == x
    && forall k :: 0 <= k < i && HarvestableTask(tasks[k], generation) ==> tasks[k].id != x
  }

  ghost predicate Occurs(tasks: seq<TaskRef>, generation: string, n: nat, x: int) {
    exists i :: 0 <= i < n && FirstAt(tasks, generation, i, x)
  }

  ghost predicate Before(tasks: seq<TaskRef>, generation: string, x: int, y: int) {
    forall i, k :: FirstAt(tasks, generation, i, x) && FirstAt(tasks, generation, k, y) ==> i < k
  }

  /** Kept are exactly the IDs of the valid tasks among the first `n`, in the order in which they first occur. */
  lemma {:induction false} HarvestsExactly(tasks: seq<TaskRef>, generation: string, n: nat)
    requires n <= |tasks|
    ensures var ids := Harvested(tasks, generation, n);
            && (forall x :: x in ids <==> Occurs(tasks, generation, n, x))
            && (forall a, b :: 0 <= a < b < |ids| ==> Before(tasks, generation, ids[a], ids[b]))
  {
    if n > 0 {
      HarvestsExactly(tasks, generation, n - 1);
      var front, last := Harvested(tasks, generation, n - 1), tasks[n - 1];
      var ids := Harvested(tasks, generation, n);
      var isNew := HarvestableTask(last, generation) && last.id !in front;
      if HarvestableTask(last, generation) {
        EarlierIsKept(tasks, generation, n - 1, last.id);
        var i :| 0 <= i <= n - 1 && FirstAt(tasks, generation, i, last.id);
        assert i < n - 1 ==> Occurs(tasks, generation, n - 1, last.id);
        assert isNew ==> i == n - 1;
      }
      forall x ensures Occurs(tasks, generation, n, x) <==>
                       Occurs(tasks, generation, n - 1, x) || (isNew && x == last.id) {
        if Occurs(tasks, generation, n, x) {
          var i :| 0 <= i < n && FirstAt(tasks, generation, i, x);
          assert i < n - 1 || x == last.id;
        }
      }
      if isNew {
        forall a | 0 <= a < |front| ensures Before(tasks, generation, front[a], last.id) {
          assert front[a] in front;
          OnlyOneFirst(tasks, generation);
        }
      }
    }
  }

  lemma OnlyOneFirst(tasks: seq<TaskRef>, generation: string)
    ensures forall i, k, x :: FirstAt(tasks, generation, i, x) && FirstAt(tasks, generation, k, x) ==> i == k
  {
  }

  /** A valid ID among the first `n` tasks occurs there for the first time somewhere. */
  lemma {:induction false} EarlierIsKept(tasks: seq<TaskRef>, generation: string, n: nat, x: int)
    requires n < |tasks| && HarvestableTask(tasks[n], generation) && tasks[n].id == x
    ensures exists i :: 0 <= i <= n && FirstAt(tasks, generation, i, x)
    decreases n
  {
    if k :| 0 <= k < n && HarvestableTask(tasks[k], generation) && tasks[k].id == x {
      EarlierIsKept(tasks, generation, k, x);
    } else {
      assert FirstAt(tasks, generation, n, x);
    }
  }

  /** A harvest is incomplete exactly when there are too many tasks, or an invalid one, or a repeated one. */
  lemma {:induction false} IncompleteExactly(tasks: seq<TaskRef>, generation: string)
    ensures HarvestIncomplete(tasks, generation) <==>
            || |tasks| > MAX_TASK_IDS
            || (exists i :: 0 <= i < |tasks| && !HarvestableTask(tasks[i], generation))
            || (exists i, k :: 0 <= i < k < |tasks| && tasks[i].id == tasks[k].id)
  {
    if |tasks| <= MAX_TASK_IDS {
      FullHarvest(tasks, generation, |tasks|);
    }
  }

  lemma {:induction false} FullHarvest(tasks: seq<TaskRef>, generation: string, n: nat)
    requires n <= |tasks|
    ensures |Harvested(tasks, generation, n)| == n <==>
            && (forall i :: 0 <= i < n ==> HarvestableTask(tasks[i], generation))
            && (forall i, k :: 0 <= i < k < n ==> tasks[i].id != tasks[k].id)
  {
    hide HarvestableTask;
    if n > 0 {
      FullHarvest(tasks, generation, n - 1);
      var front := Harvested(tasks, generation, n - 1);
      if |front| == n - 1 {
        HarvestKeepsAll(tasks, generation, n - 1);
        assert tasks[n - 1].id in front <==> exists i :: 0 <= i < n - 1 && tasks[i].id == tasks[n - 1].id;
      }
    }
  }

  /** Success, with one task that is known for certain. */
  predicate Certain(j: Job, s: Submission, outcome: Code) {
    outcome == NoCode && !s.unknownDebt && |s.tasks| == 1 && HarvestableTask(s.tasks[0], j.identity.generation)
  }

  /** Proof that nothing was sent. */
  predicate Unsent(s: Submission) {
    s.noBytesSent && !s.unknownDebt && s.tasks == []
  }

  /** Several tasks fail the row, at the time at hand but not before its attempt. */
  predicate FailedBySeveral(j: Job, k: Job, wall: Instant) {
    && k.state == Failed && k.reason == Protocol && k.cleanup == RemoteDeleteUnknown && k.unknownDebt
    && k.terminalAt.Some? && wall <= k.terminalAt.value && !BeforeTime(k.terminalAt.value, j.attemptAt)
    && (k.terminalAt.value == wall || k.terminalAt == j.attemptAt)
  }

  predicate MadePollable(k: Job, task: int) {
    && k.state == RemotePending && k.cleanup == RemoteDeletePending && !k.unknownDebt && k.dedupBarrier
    && k.taskIds == [task] && k.reason == NoCode
  }

  predicate QueuedAgain(k: Job, outcome: Code) {
    && k.state == Queued && k.cleanup == NotSubmitted && !k.unknownDebt && !k.dedupBarrier
    && k.reason == outcome && k.taskIds == []
  }

  predicate LeftUncertain(k: Job, outcome: Code) {
    && k.state == SubmitUncertain && k.cleanup == RemoteDeleteUnknown && k.unknownDebt && k.dedupBarrier
    && k.reason == if outcome == NoCode then Protocol else outcome
  }

  /** The row with the outcome harvested. */
  lemma HarvestIs(j: Job, s: Submission, outcome: Code)
    requires j.taskIds == []
    ensures var h := Harvest(j, s, outcome);
            && h.submissionRecorded && h.version == j.version + 1 && h.reason == outcome && h.dedupBarrier
            && h.taskIds == Harvested(s.tasks, j.identity.generation, HarvestLimit(s.tasks))
            && (h.unknownDebt <==> s.unknownDebt || HarvestIncomplete(s.tasks, j.identity.generation))
            && h.attemptAt == j.attemptAt
  {
  }

  /** Whether the harvest of at most one task is complete. */
  lemma HarvestOfOne(s: Submission, generation: string)
    requires |s.tasks| <= 1
    ensures var ids := Harvested(s.tasks, generation, HarvestLimit(s.tasks));
            if |s.tasks| == 1 && HarvestableTask(s.tasks[0], generation)
            then ids == [s.tasks[0].id] && !HarvestIncomplete(s.tasks, generation)
            else ids == [] && (HarvestIncomplete(s.tasks, generation) <==> |s.tasks| == 1)
  {
    OneTask(s.tasks, generation);
  }

  lemma SeveralFail(h: Job, s: Submission, outcome: Code, invalid: bool, backoff: Instant, wall: Instant, now: Instant)
    requires |s.tasks| > 1
    ensures FailedBySeveral(h, InTimeOutcome(h, s, outcome, invalid, backoff, wall, now), wall)
  {
  }

  lemma FewDecide(h: Job, s: Submission, outcome: Code, invalid: bool, backoff: Instant, wall: Instant, now: Instant)
    requires |s.tasks| <= 1 && h.reason == outcome && h.dedupBarrier && (h.unknownDebt <==> s.unknownDebt || invalid)
    ensures var k := InTimeOutcome(h, s, outcome, invalid, backoff, wall, now);
            && (outcome == NoCode && !invalid && !s.unknownDebt && !s.noBytesSent && |h.taskIds| == 1 ==>
                  MadePollable(k, h.taskIds[0]))
            && (outcome != NoCode && !invalid && Unsent(s) && h.taskIds == [] ==> QueuedAgain(k, outcome))
            && (!CleanSuccess(h, s, outcome, invalid) && !MustRetry(s, outcome, invalid) ==> LeftUncertain(k, outcome))
  {
    hide ClampBackoff;
  }

  /** What the outcome of an attempt makes of a row that waits for it: several tasks fail it, one certain task makes it
      pollable, a failure without a byte sent queues it again, and everything else is uncertain for ever. */
  lemma OutcomeDecides(j: Job, s: Submission, outcome: Code, backoff: Instant, wall: Instant, now: Instant)
    requires RowInv(j) && RecordGuard(j, j.submissionVersion) && !Terminal(j.state)
    ensures var k := RecordSubmission(j, s, outcome, backoff, wall, now);
            && k.submissionRecorded && k.version == j.version + 1
            && (if |s.tasks| > 1 then FailedBySeveral(j, k, wall)
                else if Certain(j, s, outcome) && !s.noBytesSent then MadePollable(k, s.tasks[0].id)
                else if outcome != NoCode && Unsent(s) then QueuedAgain(k, outcome)
                else LeftUncertain(k, outcome))
  {
    assert j.taskIds == [];
    hide InTimeOutcome, Harvest, HarvestIncomplete, Harvested, RowInv, FailedBySeveral, MadePollable, QueuedAgain,
         LeftUncertain;
    var h, invalid := Harvest(j, s, outcome), HarvestIncomplete(s.tasks, j.identity.generation);
    HarvestIs(j, s, outcome);
    InTimeKeepsRecord(h, s, outcome, invalid, backoff, wall, now);
    if |s.tasks| > 1 {
      SeveralFail(h, s, outcome, invalid, backoff, wall, now);
      SameAttempt(j, h, RecordSubmission(j, s, outcome, backoff, wall, now), wall);
    } else {
      HarvestOfOne(s, j.identity.generation);
      FewDecide(h, s, outcome, invalid, backoff, wall, now);
    }
  }

  lemma SameAttempt(j: Job, h: Job, k: Job, wall: Instant)
    requires FailedBySeveral(h, k, wall) && h.attemptAt == j.attemptAt
    ensures FailedBySeveral(j, k, wall)
  {
  }

  /** What a late outcome makes of a row that has ended: its end stands, and it owes nothing, one known task, or an
      unknown debt. */
  lemma LateOutcomeDecides(j: Job, s: Submission, outcome: Code, backoff: Instant, wall: Instant, now: Instant)
    requires RowInv(j) && RecordGuard(j, j.submissionVersion) && Terminal(j.state)
    ensures var k := RecordSubmission(j, s, outcome, backoff, wall, now);
            && k.submissionRecorded && k.version == j.version + 1
            && (k.state, k.reason, k.terminalAt, k.result) == (j.state, j.reason, j.terminalAt, j.result)
            && (if Unsent(s) then k.cleanup == NotSubmitted && !k.unknownDebt && !k.dedupBarrier
                else if Certain(j, s, outcome) then
                  k.cleanup == RemoteDeletePending && !k.unknownDebt && k.dedupBarrier && k.taskIds == [s.tasks[0].id]
                else k.cleanup == RemoteDeleteUnknown && k.unknownDebt && k.dedupBarrier)
  {
    hide Harvested;
    OneTask(s.tasks, j.identity.generation);
    assert j.taskIds == [];
  }

  /** A retry waits as long as it is told to, but never less than five seconds nor more than five minutes. */
  lemma RetryWaitsAsTold(j: Job, s: Submission, outcome: Code, backoff: Instant, wall: Instant, now: Instant)
    requires !Terminal(j.state) && outcome != NoCode && Unsent(s)
    ensures var k := RecordSubmission(j, s, outcome, backoff, wall, now);
            && k.nextAttempt.Some? && now + 5 * SECOND <= k.nextAttempt.value <= now + 5 * MINUTE
            && (5 * SECOND <= backoff <= 5 * MINUTE ==> k.nextAttempt.value == now + backoff)
            && (backoff < 5 * SECOND ==> k.nextAttempt.value == now + 5 * SECOND)
            && (5 * MINUTE < backoff ==> k.nextAttempt.value == now + 5 * MINUTE)
  {
    assert s == Submission([], true, false);
    RetryWaits(j, s, outcome, backoff, wall, now);
  }
}
