/** The durable CAPE job row and the row-level transitions of its ten-state lifecycle.

    Every function here changes one row; `CapeProtocol` composes them into transactions,
    crashes and recovery.  Instants are nanoseconds; an unset Go time is `None`. */
module CapeJob {
  import opened Basics

  /** The result of a fallible store operation. */
  datatype Outcome<+T> = Ok(value: T) | Err(error: Error)

  datatype Error = StoreUnavailable | QuotaExceeded | StateConflict | ClockRollback | Coded(code: Code)

  datatype Code =
    | NoCode | Invalid | Closed | Credential | Unauthorized | Throttled | Transport
    | Deadline | Protocol | TooLarge | Remote | NotFound

  datatype JobState =
    | Staging | Queued | Submitting | SubmitUncertain | RemotePending
    | Fetching | Completed | Failed | Expired | Cancelled

  datatype Cleanup =
    | NotSubmitted | RemoteDeletePending | RemoteDeleteUnknown
    | DeleteAcknowledgedUnverified | RemotePurgeConfirmed

  type Instant = int
  type JobId = string
  type ResultBytes = seq<nat>

  const SECOND: Instant := 1_000_000_000
  const MINUTE: Instant := 60 * SECOND
  const HOUR: Instant := 60 * MINUTE
  const INGRESS_LIMIT: Instant := 30 * SECOND
  const MAX_ATTACHMENT: nat := 10 * 1024 * 1024
  const METADATA_AND_RESULT: nat := 20 * 1024
  const MAX_TASK_IDS: nat := 16
  const MAX_TASK_ID: int := 0x7fff_ffff

  /** What deduplication compares: two published rows with equal identities describe one detonation. */
  datatype Identity = Identity(
    tenant: string, digest: string, generation: string, submissionPolicy: string, resultPolicy: string)

  datatype TaskRef = TaskRef(id: int, generation: string)

  /** What the CAPE client reports about one submission attempt. */
  datatype Submission = Submission(tasks: seq<TaskRef>, noBytesSent: bool, unknownDebt: bool)

  datatype Job = Job(
    id: JobId, identity: Identity, staticVerdict: string,
    state: JobState, version: int,
    reservedBytes: nat, payloadBytes: nat,
    createdAt: Instant, ingressDeadline: Instant, queueDeadline: Instant, analysisDeadline: Instant,
    terminalAt: Option<Instant>, nextAttempt: Option<Instant>,
    attemptAt: Option<Instant>, retryAfterUntil: Option<Instant>,
    attempts: nat, submissionVersion: int, submissionRecorded: bool,
    taskIds: seq<int>, deleteAcknowledgedIds: seq<int>,
    cleanup: Cleanup, unknownDebt: bool, dedupBarrier: bool, suppressed: bool,
    reason: Code, result: Option<ResultBytes>,
    pollWakeAt: Option<Instant>, readAttempts: nat, cleanupDeadlineExceeded: bool)

  predicate Terminal(state: JobState) {
    state == Completed || state == Failed || state == Expired || state == Cancelled
  }

  /** `now.Before(t)`, where an unset time lies before every instant. */
  predicate BeforeTime(now: Instant, t: Option<Instant>) {
    t.Some? && now < t.value
  }

  /* ---------------------------------------------------------------- lifecycle */

  function Terminate(j: Job, state: JobState, reason: Code, now: Instant): Job {
    var uncertain := j.state == Submitting || j.state == SubmitUncertain;
    j.(terminalAt := if j.terminalAt.None? then Some(now) else j.terminalAt,
       unknownDebt := j.unknownDebt || uncertain,
       dedupBarrier := j.dedupBarrier || uncertain,
       cleanup := if uncertain then RemoteDeleteUnknown else j.cleanup,
       state := state, reason := reason, result := None,
       suppressed := j.suppressed || state == Cancelled)
  }

  function Bump(j: Job): Job {
    j.(version := j.version + 1)
  }

  /** Whether an existing row satisfies a new upload with the same identity. */
  predicate Reusable(j: Job, now: Instant) {
    j.dedupBarrier
    || (match j.state
        case Queued => true
        case Submitting => true
        case SubmitUncertain => true
        case RemotePending => true
        case Fetching => true
        case Completed => !j.suppressed && j.terminalAt.Some? && now < j.terminalAt.value + 24 * HOUR
        case _ => false)
  }

  /** Whether retention may drop the row outright once its day is over. */
  predicate Forgettable(j: Job) {
    !j.unknownDebt && (j.cleanup == NotSubmitted || j.cleanup == RemotePurgeConfirmed)
  }

  predicate RetentionElapsed(j: Job, now: Instant) {
    j.terminalAt.Some? && now >= j.terminalAt.value + 24 * HOUR
  }

  function Cancel(j: Job, now: Instant): Job {
    if j.state == Staging || j.state == Cancelled then j
    else Bump(Terminate(j, Cancelled, NoCode, now))
  }

  predicate DeadlinePassed(j: Job, now: Instant) {
    && j.state != Staging && !Terminal(j.state)
    && (now >= j.analysisDeadline || (j.state == Queued && now >= j.queueDeadline))
  }

  function Expire(j: Job, now: Instant): Job {
    if DeadlinePassed(j, now) then Bump(Terminate(j, Expired, Deadline, now)) else j
  }

  /** Retention of a row that still carries remote debt: keep the barrier, drop everything else. */
  function Minimize(j: Job): Job {
    var m := j.(result := None, suppressed := true, dedupBarrier := true, staticVerdict := "");
    if m == j then j else Bump(m)
  }

  function RecordDeletion(j: Job, version: int, task: TaskRef, acknowledged: bool): Outcome<Job> {
    if j.version != version || task.generation != j.identity.generation || !Terminal(j.state)
       || task.id !in j.taskIds then Err(StateConflict)
    else
      var acks := if acknowledged && task.id !in j.deleteAcknowledgedIds
                  then j.deleteAcknowledgedIds + [task.id] else j.deleteAcknowledgedIds;
      var cleanup :=
        if j.unknownDebt || !acknowledged then RemoteDeleteUnknown
        else if |acks| == |j.taskIds| then DeleteAcknowledgedUnverified
        else RemoteDeletePending;
      Ok(Bump(j.(deleteAcknowledgedIds := acks, cleanup := cleanup, dedupBarrier := true)))
  }

  function MarkCleanupDeadline(j: Job, now: Instant): Job {
    if Terminal(j.state) && !j.cleanupDeadlineExceeded && j.attemptAt.Some?
       && now >= j.attemptAt.value + 48 * HOUR && j.dedupBarrier
    then Bump(j.(cleanupDeadlineExceeded := true)) else j
  }

  /* ---------------------------------------------------------------- reports */

  predicate SingleOwnedTask(j: Job, task: TaskRef) {
    |j.taskIds| == 1 && j.taskIds[0] == task.id && j.identity.generation == task.generation && !j.unknownDebt
  }

  /** The guard shared by every authoritative poll and report transition. */
  function ReportGuard(j: Job, version: int, task: TaskRef, expected: JobState, now: Instant): Outcome<()> {
    if j.version != version || j.state != expected || j.suppressed || !SingleOwnedTask(j, task)
    then Err(StateConflict)
    else if now >= j.analysisDeadline then Err(Coded(Deadline))
    else Ok(())
  }

  datatype Status =
    | Reported
    | Pending | Running | Distributed | RemoteCompleted | Recovered | DistributedCompleted
    | Banned | FailedAnalysis | FailedProcessing | FailedReporting
    | UnknownStatus

  /** The changed row with its poll hint cleared and its version advanced. */
  function Stamped(j: Job): Job {
    j.(pollWakeAt := None, version := j.version + 1)
  }

  /** The transition shared by every poll and report; `changed` is what the response makes of the row. */
  function TransitionReport(j: Job, version: int, task: TaskRef, expected: JobState, changed: Option<Job>,
                            now: Instant): Outcome<Job> {
    match ReportGuard(j, version, task, expected, now)
    case Err(e) => Err(e)
    case Ok(_) => if changed.None? then Err(Coded(Protocol)) else Ok(Stamped(changed.value))
  }

  predicate FailedStatus(status: Status) {
    status.Banned? || status.FailedAnalysis? || status.FailedProcessing? || status.FailedReporting?
  }

  /** An unknown status changes nothing and is an error. */
  function StatusChange(j: Job, status: Status, now: Instant): Option<Job> {
    if status.UnknownStatus? then None
    else if status.Reported? then Some(j.(state := Fetching))
    else if FailedStatus(status) then Some(Terminate(j, Failed, Remote, now))
    else Some(j)
  }

  /** `mapped` is the normalized result, or `None` when identity checks or normalization failed. */
  function ReportChange(j: Job, mapped: Option<ResultBytes>, now: Instant): Job {
    if mapped.None? then Terminate(j, Failed, Protocol, now)
    else Terminate(j, Completed, NoCode, now).(result := mapped)
  }

  function RecordStatus(j: Job, version: int, task: TaskRef, status: Status, now: Instant): Outcome<Job> {
    TransitionReport(j, version, task, RemotePending, StatusChange(j, status, now), now)
  }

  function CompleteReport(j: Job, version: int, task: TaskRef, mapped: Option<ResultBytes>,
                          now: Instant): Outcome<Job> {
    TransitionReport(j, version, task, Fetching, Some(ReportChange(j, mapped, now)), now)
  }

  function RecordReportError(j: Job, version: int, task: TaskRef, code: Code, now: Instant): Outcome<Job> {
    TransitionReport(j, version, task, Fetching, Some(j.(reason := if code == NoCode then Transport else code)), now)
  }

  /* ---------------------------------------------------------------- read scheduling */

  predicate ReadThrottled(j: Job, now: Instant) {
    var callbackWake := j.pollWakeAt.Some? && now >= j.pollWakeAt.value;
    BeforeTime(now, j.nextAttempt) && (!callbackWake || BeforeTime(now, j.retryAfterUntil))
  }

  function ReadGuard(j: Job, version: int, state: JobState, now: Instant): Outcome<()> {
    if j.version != version || j.state != state then Err(StateConflict)
    else if ReadThrottled(j, now) then Err(Coded(Throttled))
    else if Terminal(j.state) then
      if j.attemptAt.None? || now >= j.attemptAt.value + 48 * HOUR then Err(Coded(Deadline)) else Ok(())
    else if (j.state != RemotePending && j.state != Fetching) || now >= j.analysisDeadline || j.suppressed
    then Err(StateConflict)
    else Ok(())
  }

  function ReserveRead(j: Job, delay: Instant, now: Instant): Job {
    Bump(j.(nextAttempt := Some(now + delay), retryAfterUntil := None,
            readAttempts := if j.readAttempts < 16 then j.readAttempts + 1 else j.readAttempts,
            pollWakeAt := None))
  }

  function ExtendRetry(j: Job, delay: Instant, now: Instant): Job {
    var next := now + delay;
    var later := j.nextAttempt.None? || next > j.nextAttempt.value;
    var longer := j.retryAfterUntil.None? || next > j.retryAfterUntil.value;
    if !later && !longer then j
    else Bump(j.(nextAttempt := if later then Some(next) else j.nextAttempt,
                 retryAfterUntil := if longer then Some(next) else j.retryAfterUntil))
  }

  /** The poll hint left by an accepted callback. */
  function WakePoll(j: Job, now: Instant): Job {
    if (j.state != RemotePending && j.state != Fetching) || j.suppressed || now >= j.analysisDeadline then j
    else Bump(j.(pollWakeAt := Some(now)))
  }

  /* ---------------------------------------------------------------- submission */

  function Publish(j: Job, digest: string, size: nat, staticVerdict: string): Job {
    Bump(j.(staticVerdict := staticVerdict, state := Queued, payloadBytes := size,
            reservedBytes := size + METADATA_AND_RESULT, identity := j.identity.(digest := digest)))
  }

  function BeginAdmission(j: Job, version: int, paused: set<string>): Outcome<()> {
    if j.state != Queued || j.version != version then Err(StateConflict)
    else if j.identity.generation in paused then Err(Coded(Unauthorized))
    else Ok(())
  }

  function BeginTiming(j: Job, now: Instant): Outcome<()> {
    if now >= j.queueDeadline || now >= j.analysisDeadline then Err(Coded(Deadline))
    else if BeforeTime(now, j.nextAttempt) then Err(Coded(Throttled))
    else Ok(())
  }

  function Begin(j: Job, now: Instant): Job {
    j.(state := Submitting, version := j.version + 1, submissionVersion := j.version + 1,
       submissionRecorded := false, attempts := j.attempts + 1, attemptAt := Some(now), nextAttempt := None)
  }

  predicate HarvestableTask(task: TaskRef, generation: string) {
    1 <= task.id <= MAX_TASK_ID && task.generation == generation
  }

  /** The task IDs kept from the first `n` returned tasks: valid ones, first occurrence only, in order. */
  function Harvested(tasks: seq<TaskRef>, generation: string, n: nat): (ids: seq<int>)
    requires n <= |tasks|
    ensures |ids| <= n
    ensures forall i :: 0 <= i < |ids| ==> 1 <= ids[i] <= MAX_TASK_ID
    ensures forall i, k :: 0 <= i < k < |ids| ==> ids[i] != ids[k]
  {
    if n == 0 then []
    else
      var ids := Harvested(tasks, generation, n - 1);
      if HarvestableTask(tasks[n - 1], generation) && tasks[n - 1].id !in ids
      then ids + [tasks[n - 1].id] else ids
  }

  function HarvestLimit(tasks: seq<TaskRef>): (n: nat)
    ensures n <= |tasks| && n <= MAX_TASK_IDS
  {
    if |tasks| <= MAX_TASK_IDS then |tasks| else MAX_TASK_IDS
  }

  /** True when some returned task could not be kept. */
  predicate HarvestIncomplete(tasks: seq<TaskRef>, generation: string) {
    |tasks| > MAX_TASK_IDS || |Harvested(tasks, generation, HarvestLimit(tasks))| < |tasks|
  }

  predicate RecordGuard(j: Job, version: int) {
    && version >= 1 && !j.submissionRecorded
    && (j.state == Submitting || Terminal(j.state) || j.state == SubmitUncertain)
    && (j.submissionVersion == version
        || (j.submissionVersion == 0 && j.state == Submitting && j.version == version))
  }

  /** The row after its attempt's outcome is recorded, before the outcome decides the state. */
  function Harvest(j: Job, s: Submission, outcome: Code): Job {
    var invalid := HarvestIncomplete(s.tasks, j.identity.generation);
    Bump(j.(submissionRecorded := true, reason := outcome,
            taskIds := j.taskIds + Harvested(s.tasks, j.identity.generation, HarvestLimit(s.tasks)),
            unknownDebt := s.unknownDebt || invalid, dedupBarrier := true))
  }

  function LateOutcome(h: Job, previous: Job, s: Submission, outcome: Code, invalid: bool): Job {
    var noSend := s.noBytesSent && |s.tasks| == 0 && !invalid;
    var debt := h.unknownDebt || (!noSend && (outcome != NoCode || |h.taskIds| != 1));
    if noSend && !s.unknownDebt then
      h.(reason := previous.reason, unknownDebt := false, dedupBarrier := false, cleanup := NotSubmitted)
    else
      h.(reason := previous.reason, unknownDebt := debt,
         cleanup := if debt then RemoteDeleteUnknown else RemoteDeletePending)
  }

  function ClampBackoff(backoff: Instant): Instant {
    var b := if backoff < 5 * MINUTE then backoff else 5 * MINUTE;
    if b > 5 * SECOND then b else 5 * SECOND
  }

  predicate MustRetry(s: Submission, outcome: Code, invalid: bool) {
    outcome != NoCode && s.noBytesSent && !invalid && !s.unknownDebt && |s.tasks| == 0
  }

  predicate CleanSuccess(h: Job, s: Submission, outcome: Code, invalid: bool) {
    outcome == NoCode && !invalid && !s.unknownDebt && !s.noBytesSent && |h.taskIds| == 1
  }

  /** What a job that is still waiting for its outcome becomes; `h` is its row with the outcome harvested.
      `wall` is the unprotected wall clock; `now` is the store clock, read only by a retry. */
  function InTimeOutcome(h: Job, s: Submission, outcome: Code, invalid: bool, backoff: Instant, wall: Instant,
                         now: Instant): Job {
    if |s.tasks| > 1 then
      h.(state := Failed, unknownDebt := true, reason := Protocol, cleanup := RemoteDeleteUnknown,
         terminalAt := Some(if BeforeTime(wall, h.attemptAt) then h.attemptAt.value else wall))
    else if CleanSuccess(h, s, outcome, invalid) then
      h.(state := RemotePending, cleanup := RemoteDeletePending)
    else if MustRetry(s, outcome, invalid) then
      h.(state := Queued, cleanup := NotSubmitted, dedupBarrier := false,
         nextAttempt := Some(now + ClampBackoff(backoff)))
    else
      h.(state := SubmitUncertain, unknownDebt := true, cleanup := RemoteDeleteUnknown,
         reason := if h.reason == NoCode then Protocol else h.reason)
  }

  function RecordSubmission(j: Job, s: Submission, outcome: Code, backoff: Instant, wall: Instant, now: Instant): Job {
    var invalid := HarvestIncomplete(s.tasks, j.identity.generation);
    var h := Harvest(j, s, outcome);
    if Terminal(j.state) then LateOutcome(h, j, s, outcome, invalid)
    else InTimeOutcome(h, s, outcome, invalid, backoff, wall, now)
  }

  /** Startup turns an attempt whose process died into a permanent barrier. */
  function MakeUncertain(j: Job): Job {
    Bump(j.(state := SubmitUncertain, unknownDebt := true, dedupBarrier := true,
            cleanup := RemoteDeleteUnknown, reason := Transport))
  }
}
