/** The invariant of one job row and what each lifecycle transition may do to it. */
module CapeRows {
  import opened Basics
  import opened CapeJob
  import opened CapeProtocol

  /** The attempt's outcome is not durable yet. */
  predicate Unresolved(j: Job) {
    j.submissionVersion >= 1 && !j.submissionRecorded
  }

  /** The remote side may hold a task for this row: the row must neither be resubmitted nor dropped. */
  predicate Held(j: Job) {
    j.state == Submitting || j.dedupBarrier
  }

  /** The row stops every later upload with its identity. */
  predicate Blocking(j: Job) {
    j.state == Queued || Held(j)
  }

  predicate NeedsPayload(j: Job) {
    j.state == Queued || j.state == Submitting || j.state == SubmitUncertain
  }

  predicate RowInv(j: Job) {
    && 0 <= j.submissionVersion <= j.version
    && j.cleanup != RemotePurgeConfirmed
    && (j.dedupBarrier <==> j.cleanup != NotSubmitted)
    && (j.unknownDebt ==> j.dedupBarrier)
    && (j.taskIds != [] ==> j.dedupBarrier && j.submissionRecorded)
    && (Terminal(j.state) <==> j.terminalAt.Some?)
    && (j.result.Some? ==> j.state == Completed && !j.suppressed)
    && (j.suppressed ==> Terminal(j.state))
    && (Unresolved(j) ==> j.state == Submitting || (j.dedupBarrier && j.unknownDebt))
    && (match j.state
        case Staging => !j.dedupBarrier && j.submissionVersion == 0
        case Queued => !j.dedupBarrier
        case Submitting => !j.dedupBarrier && Unresolved(j)
        case SubmitUncertain => j.unknownDebt
        case RemotePending => j.dedupBarrier && !j.unknownDebt && |j.taskIds| == 1
        case Fetching => j.dedupBarrier && !j.unknownDebt && |j.taskIds| == 1
        case Completed => j.dedupBarrier && j.submissionRecorded
        case _ => true)
  }

  /** What no transition may undo: remote tasks, terminality, its first instant, and version order. */
  predicate Descends(j: Job, k: Job) {
    && j.taskIds <= k.taskIds
    && (Terminal(j.state) ==> Terminal(k.state) && k.terminalAt == j.terminalAt)
    && (j.version < k.version || j == k)
  }

  /** A transition that decides nothing about the submission protocol. */
  predicate Quiet(j: Job, k: Job) {
    && RowInv(k) && Descends(j, k)
    && k.identity == j.identity && k.payloadBytes == j.payloadBytes && k.reservedBytes == j.reservedBytes
    && k.submissionVersion == j.submissionVersion && k.submissionRecorded == j.submissionRecorded
    && (Held(j) ==> Held(k)) && (Blocking(k) ==> Blocking(j)) && (NeedsPayload(k) ==> NeedsPayload(j))
    && (k.state == Staging <==> j.state == Staging)
  }

  predicate QuietOutcome(j: Job, r: Outcome<Job>) {
    r.Ok? ==> Quiet(j, r.value)
  }

  /** Under the row invariant the time limit in `Reusable` never matters: a row is offered for reuse
      exactly when it may still be submitted or may have been. */
  lemma ReusableIsBlocking(j: Job, now: Instant)
    requires RowInv(j)
    ensures Reusable(j, now) <==> Blocking(j)
  {
  }

  /** Ending a row keeps its debt; only a row that owns its one known task may complete. */
  lemma TerminateIsQuiet(j: Job, state: JobState, reason: Code, now: Instant, mapped: Option<ResultBytes>)
    requires RowInv(j) && Terminal(state) && j.state != Staging
    requires state == Completed ==> j.state == Fetching
    requires mapped.Some? ==> state == Completed
    ensures Quiet(j, Stamped(Terminate(j, state, reason, now).(result := mapped)))
    ensures mapped.None? ==> Quiet(j, Bump(Terminate(j, state, reason, now)))
  {
  }

  lemma PollIsQuiet(j: Job, reason: Code)
    requires RowInv(j) && (j.state == RemotePending || j.state == Fetching)
    ensures Quiet(j, Stamped(j)) && Quiet(j, Stamped(j.(state := Fetching))) && Quiet(j, Stamped(j.(reason := reason)))
  {
  }

  lemma NoResult(j: Job, state: JobState, reason: Code, now: Instant)
    ensures Terminate(j, state, reason, now).(result := None) == Terminate(j, state, reason, now)
  {
  }

  lemma DeletionIsQuiet(j: Job, version: int, task: TaskRef, acknowledged: bool)
    requires RowInv(j)
    ensures QuietOutcome(j, RecordDeletion(j, version, task, acknowledged))
  {
  }

  lemma StatusIsQuiet(j: Job, version: int, task: TaskRef, status: Status, now: Instant)
    requires RowInv(j)
    ensures QuietOutcome(j, RecordStatus(j, version, task, status, now))
  {
    hide Quiet, RowInv, Stamped, SingleOwnedTask, FailedStatus;
    if j.state == RemotePending {
      TerminateIsQuiet(j, Failed, Remote, now, None);
      PollIsQuiet(j, NoCode);
      NoResult(j, Failed, Remote, now);
    }
  }

  lemma CompleteIsQuiet(j: Job, version: int, task: TaskRef, mapped: Option<ResultBytes>, now: Instant)
    requires RowInv(j)
    ensures QuietOutcome(j, CompleteReport(j, version, task, mapped, now))
  {
    hide Quiet, RowInv, Stamped, SingleOwnedTask, Terminate;
    if j.state == Fetching {
      TerminateIsQuiet(j, Failed, Protocol, now, None);
      TerminateIsQuiet(j, Completed, NoCode, now, mapped);
      NoResult(j, Failed, Protocol, now);
    }
  }

  lemma EndingIsQuiet(j: Job, now: Instant)
    requires RowInv(j)
    ensures Quiet(j, Cancel(j, now)) && Quiet(j, Expire(j, now))
  {
    if j.state != Staging {
      TerminateIsQuiet(j, Cancelled, NoCode, now, None);
      TerminateIsQuiet(j, Expired, Deadline, now, None);
    }
  }

  lemma MinimizeIsQuiet(j: Job, now: Instant)
    requires RowInv(j)
    ensures QuietOutcome(j, RowOutcome(MinimizeRow, j, now))
  {
  }

  lemma CleanupDeadlineIsQuiet(j: Job, now: Instant)
    requires RowInv(j)
    ensures Quiet(j, MarkCleanupDeadline(j, now))
  {
  }

  lemma ReportErrorIsQuiet(j: Job, version: int, task: TaskRef, code: Code, now: Instant)
    requires RowInv(j)
    ensures QuietOutcome(j, RecordReportError(j, version, task, code, now))
  {
    hide Quiet, RowInv, Stamped, SingleOwnedTask;
    if j.state == Fetching {
      PollIsQuiet(j, if code == NoCode then Transport else code);
    }
  }

  lemma RetryIsQuiet(j: Job, delay: Instant, now: Instant)
    requires RowInv(j)
    ensures Quiet(j, ExtendRetry(j, delay, now))
  {
  }

  lemma WakeIsQuiet(j: Job, now: Instant)
    requires RowInv(j)
    ensures Quiet(j, WakePoll(j, now))
  {
  }

  /** No lifecycle transition releases a row, revives it or forgets what it owes. */
  lemma RowOpIsQuiet(op: RowOp, j: Job, now: Instant)
    requires RowInv(j)
    ensures QuietOutcome(j, RowOutcome(op, j, now))
  {
    hide Quiet;
    match op
    case CancelRow => EndingIsQuiet(j, now);
    case ExpireRow => EndingIsQuiet(j, now);
    case MinimizeRow => MinimizeIsQuiet(j, now);
    case DeletionRow(version, task, acknowledged) => DeletionIsQuiet(j, version, task, acknowledged);
    case StatusRow(version, task, status) => StatusIsQuiet(j, version, task, status, now);
    case CompleteRow(version, task, mapped) => CompleteIsQuiet(j, version, task, mapped, now);
    case ReportErrorRow(version, task, code) => ReportErrorIsQuiet(j, version, task, code, now);
    case RetryRow(delay) => RetryIsQuiet(j, delay, now);
    case CleanupDeadlineRow => CleanupDeadlineIsQuiet(j, now);
    case WakeRow => WakeIsQuiet(j, now);
  }

  lemma ReserveReadIsQuiet(j: Job, delay: Instant, now: Instant)
    requires RowInv(j)
    ensures Quiet(j, ReserveRead(j, delay, now))
  {
  }

  lemma PublishRow(j: Job, digest: string, size: nat, verdict: string)
    requires RowInv(j) && j.state == Staging
    ensures var k := Publish(j, digest, size, verdict);
            RowInv(k) && Descends(j, k) && Blocking(k) && !Held(k) && k.state == Queued
  {
  }

  lemma BeginRow(j: Job, now: Instant)
    requires RowInv(j) && j.state == Queued
    ensures var k := Begin(j, now);
            && RowInv(k) && Descends(j, k) && Held(k) && k.submissionVersion == j.version + 1
            && k.identity == j.identity
  {
  }

  lemma MakeUncertainRow(j: Job)
    requires RowInv(j) && j.state == Submitting
    ensures Quiet(j, MakeUncertain(j)) && MakeUncertain(j).state == SubmitUncertain
  {
  }

  /** When no task was rejected, every returned task is kept, in order. */
  lemma {:induction false} HarvestKeepsAll(tasks: seq<TaskRef>, generation: string, n: nat)
    requires n <= |tasks| && |Harvested(tasks, generation, n)| == n
    ensures forall i :: 0 <= i < n ==> Harvested(tasks, generation, n)[i] == tasks[i].id
  {
    if n > 0 {
      HarvestKeepsAll(tasks, generation, n - 1);
    }
  }

  /** A returned task is either kept on the row or makes the harvest incomplete. */
  lemma HarvestAccountsForTasks(tasks: seq<TaskRef>, generation: string, t: TaskRef)
    requires t in tasks
    ensures HarvestIncomplete(tasks, generation) || t.id in Harvested(tasks, generation, HarvestLimit(tasks))
  {
    if !HarvestIncomplete(tasks, generation) {
      HarvestKeepsAll(tasks, generation, |tasks|);
      var i :| 0 <= i < |tasks| && tasks[i] == t;
      assert Harvested(tasks, generation, |tasks|)[i] == t.id;
    }
  }

  lemma LateKeepsRecord(h: Job, previous: Job, s: Submission, outcome: Code, invalid: bool)
    ensures var k := LateOutcome(h, previous, s, outcome, invalid);
            k.submissionRecorded == h.submissionRecorded && k.version == h.version
  {
  }

  lemma InTimeKeepsRecord(h: Job, s: Submission, outcome: Code, invalid: bool, backoff: Instant, wall: Instant,
                          now: Instant)
    ensures var k := InTimeOutcome(h, s, outcome, invalid, backoff, wall, now);
            k.submissionRecorded == h.submissionRecorded && k.version == h.version
  {
    hide ClampBackoff, CleanSuccess, MustRetry, BeforeTime;
  }

  lemma RecordMarks(j: Job, s: Submission, outcome: Code, backoff: Instant, wall: Instant, now: Instant)
    ensures RecordSubmission(j, s, outcome, backoff, wall, now).submissionRecorded
  {
    hide InTimeOutcome, LateOutcome, HarvestIncomplete, Harvested;
    var h, invalid := Harvest(j, s, outcome), HarvestIncomplete(s.tasks, j.identity.generation);
    LateKeepsRecord(h, j, s, outcome, invalid);
    InTimeKeepsRecord(h, s, outcome, invalid, backoff, wall, now);
  }

  /** What recording any outcome of the attempt guarantees about the row. */
  predicate Recorded(j: Job, k: Job, s: Submission) {
    && RowInv(k) && Descends(j, k) && k.submissionRecorded
    && k.identity == j.identity && k.payloadBytes == j.payloadBytes && k.reservedBytes == j.reservedBytes
    && k.submissionVersion == j.submissionVersion && k.state != Staging
    && (Held(k) || s.noBytesSent)
    && (NeedsPayload(k) ==> NeedsPayload(j))
  }

  lemma RecordLate(j: Job, s: Submission, outcome: Code, backoff: Instant, wall: Instant, now: Instant)
    requires RowInv(j) && RecordGuard(j, j.submissionVersion) && Terminal(j.state)
    ensures Recorded(j, RecordSubmission(j, s, outcome, backoff, wall, now), s)
  {
  }

  lemma RecordInTime(j: Job, s: Submission, outcome: Code, backoff: Instant, wall: Instant, now: Instant)
    requires RowInv(j) && RecordGuard(j, j.submissionVersion) && !Terminal(j.state)
    ensures Recorded(j, RecordSubmission(j, s, outcome, backoff, wall, now), s)
  {
  }

  /** Recording an outcome releases the row only on a proof that nothing was sent, and it loses no
      returned task: each one is kept, or the row is marked as owing an unknown debt. */
  lemma RecordRow(j: Job, s: Submission, outcome: Code, backoff: Instant, wall: Instant, now: Instant)
    requires RowInv(j) && RecordGuard(j, j.submissionVersion)
    ensures Recorded(j, RecordSubmission(j, s, outcome, backoff, wall, now), s)
    ensures var k := RecordSubmission(j, s, outcome, backoff, wall, now);
            k.unknownDebt || forall t :: t in s.tasks ==> t.id in k.taskIds
  {
    if Terminal(j.state) {
      RecordLate(j, s, outcome, backoff, wall, now);
    } else {
      RecordInTime(j, s, outcome, backoff, wall, now);
    }
    var k := RecordSubmission(j, s, outcome, backoff, wall, now);
    forall t | t in s.tasks ensures k.unknownDebt || t.id in k.taskIds {
      HarvestAccountsForTasks(s.tasks, j.identity.generation, t);
    }
  }

  predicate NoEarlier(before: Option<Instant>, after: Option<Instant>) {
    before.None? || (after.Some? && before.value <= after.value)
  }

  /** A retry hint never moves a durable retry time earlier, never moves a deadline, and is honoured in full. */
  lemma RetryOnlyPostpones(j: Job, delay: Instant, now: Instant)
    ensures var k := ExtendRetry(j, delay, now);
            && NoEarlier(j.nextAttempt, k.nextAttempt) && NoEarlier(j.retryAfterUntil, k.retryAfterUntil)
            && NoEarlier(Some(now + delay), k.nextAttempt) && NoEarlier(Some(now + delay), k.retryAfterUntil)
            && k.queueDeadline == j.queueDeadline && k.analysisDeadline == j.analysisDeadline
            && k.state == j.state && k.attempts == j.attempts
  {
  }

  /** An attempt that provably sent nothing is queued again, between five seconds and five minutes later, and
      counts as never submitted. */
  lemma RetryWaits(j: Job, s: Submission, outcome: Code, backoff: Instant, wall: Instant, now: Instant)
    requires !Terminal(j.state) && outcome != NoCode && s == Submission([], true, false)
    ensures var k := RecordSubmission(j, s, outcome, backoff, wall, now);
            && k.state == Queued && !k.dedupBarrier && !k.unknownDebt && k.cleanup == NotSubmitted &&
               k.taskIds == j.taskIds
            && k.nextAttempt.Some? && now + 5 * SECOND <= k.nextAttempt.value <= now + 5 * MINUTE
  {
    assert Harvested([], j.identity.generation, 0) == [];
    assert j.taskIds + [] == j.taskIds;
  }

  /** Only one kind of outcome makes a job pollable: success, with exactly one task that is known for certain. */
  lemma PollableExactly(j: Job, s: Submission, outcome: Code, backoff: Instant, wall: Instant, now: Instant)
    requires RowInv(j) && RecordGuard(j, j.submissionVersion) && !Terminal(j.state)
    ensures var k := RecordSubmission(j, s, outcome, backoff, wall, now);
            k.state == RemotePending <==>
            && outcome == NoCode && !s.noBytesSent && !s.unknownDebt && |s.tasks| == 1
            && HarvestableTask(s.tasks[0], j.identity.generation)
  {
    hide Harvested, ClampBackoff;
    OneTask(s.tasks, j.identity.generation);
  }

  lemma OneTask(tasks: seq<TaskRef>, generation: string)
    ensures |tasks| == 1 ==>
              Harvested(tasks, generation, 1) == if HarvestableTask(tasks[0], generation) then [tasks[0].id] else []
    ensures |tasks| == 0 ==> Harvested(tasks, generation, 0) == []
  {
    if |tasks| == 1 {
      assert Harvested(tasks, generation, 0) == [];
    }
  }
}
