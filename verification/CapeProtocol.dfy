/** The CAPE store, its scheduler and its environment as one transition system.

    A step is one atomic effect: a committed transaction, an unlink or rename, a network action or a
    crash.  Every operation of the store is a sequence of such steps, so the states between them are
    exactly the states a crash can leave behind.  A step whose guard fails changes nothing. */
module CapeProtocol {
  import opened Basics
  import opened CapeJob
  import opened TokenBucket
  import opened MapSum

  /* ---------------------------------------------------------------- state */

  datatype FileKind = Tmp | Blob

  datatype FileName = FileName(id: JobId, kind: FileKind)

  datatype BucketName = RequestBucket | SubmitBucket | TenantBucket(tenant: string)

  /** What survives a crash. */
  datatype Disk = Disk(
    jobs: map<JobId, Job>, files: map<FileName, nat>, clock: Option<Instant>,
    buckets: map<BucketName, Bucket>, paused: set<string>)

  /** How far a submit request has come; only `Sent` may have moved bytes. */
  datatype Phase = Authorized | Opened | Sent

  datatype Request = Request(version: int, phase: Phase)

  /** A scheduler outcome waiting to be persisted. */
  datatype Packet =
    | Submitted(id: JobId, version: int, submission: Submission, outcome: Code)
    | BeginError(id: JobId, snapshot: int)

  datatype Writer = Writing | Renamed(size: nat, digest: string) | Stopping

  /** What a crash loses; `running` is false until startup recovery has finished. */
  datatype Memory = Memory(
    running: bool, live: map<JobId, string>, requests: map<JobId, Request>,
    pending: seq<Packet>, writers: map<JobId, Writer>)

  /** One submission attempt of one row. */
  datatype Attempt = Attempt(id: JobId, identity: Identity, version: int)

  /** What happened in the outside world; no operation reads it. */
  datatype History = History(sent: set<Attempt>, used: set<JobId>, grants: map<BucketName, seq<Instant>>)

  datatype System = System(disk: Disk, mem: Memory, past: History)

  datatype Config = Config(
    maxAttachment: nat, maxJobs: nat, tenantJobs: nat, maxBytes: nat, tenantBytes: nat,
    submitPerMinute: nat, tenantSubmitPerMinute: nat, requestsPerMinute: nat,
    submissionConcurrency: nat, tenantSubmissionConcurrency: nat)
  {
    /** The limits a store accepts at startup. */
    predicate Valid() {
      && 1 <= maxAttachment <= MAX_ATTACHMENT
      && 1 <= tenantJobs <= maxJobs <= 10000
      && 1 <= tenantBytes <= maxBytes
      && 1 <= tenantSubmitPerMinute <= submitPerMinute <= requestsPerMinute <= 10000
      && 1 <= tenantSubmissionConcurrency <= submissionConcurrency <= 100
    }
  }

  const COLD: Memory := Memory(false, map[], map[], [], map[])
  const EMPTY: System := System(Disk(map[], map[], None, map[], {}), COLD, History({}, {}, map[]))

  /** How a commit ends: an error may follow a commit that was in fact applied. */
  datatype Commit = Committed | AppliedThenFailed | NotApplied

  /* ---------------------------------------------------------------- shared pieces */

  function ReadClock(clock: Option<Instant>, wall: Instant): Outcome<Instant> {
    if clock.Some? && wall < clock.value - 5 * SECOND then Err(ClockRollback)
    else Ok(if clock.Some? && wall < clock.value then clock.value else wall)
  }

  function Lookup(disk: Disk, tenant: string, id: JobId): Outcome<Job> {
    if id in disk.jobs && disk.jobs[id].identity.tenant == tenant then Ok(disk.jobs[id])
    else Err(Coded(NotFound))
  }

  function Put(disk: Disk, id: JobId, j: Job, now: Instant): Disk {
    disk.(jobs := disk.jobs[id := j], clock := Some(now))
  }

  function Row(buckets: map<BucketName, Bucket>, name: BucketName): Option<Bucket> {
    if name in buckets then Some(buckets[name]) else None
  }

  function TakeFrom(buckets: map<BucketName, Bucket>, name: BucketName, rate: nat, now: Instant)
    : Outcome<map<BucketName, Bucket>>
  {
    match Take(Row(buckets, name), rate, now)
    case Err(e) => Err(e)
    case Ok(b) => Ok(buckets[name := b])
  }

  function Rate(cfg: Config, name: BucketName): nat {
    match name
    case RequestBucket => cfg.requestsPerMinute
    case SubmitBucket => cfg.submitPerMinute
    case TenantBucket(_) => cfg.tenantSubmitPerMinute
  }

  /** All three submission tokens, or an error and none of them. */
  function TakeSubmission(cfg: Config, buckets: map<BucketName, Bucket>, tenant: string, now: Instant)
    : Outcome<map<BucketName, Bucket>>
  {
    match TakeFrom(buckets, RequestBucket, cfg.requestsPerMinute, now)
    case Err(e) => Err(e)
    case Ok(b1) =>
      match TakeFrom(b1, SubmitBucket, cfg.submitPerMinute, now)
      case Err(e) => Err(e)
      case Ok(b2) => TakeFrom(b2, TenantBucket(tenant), cfg.tenantSubmitPerMinute, now)
  }

  function Granted(grants: map<BucketName, seq<Instant>>, name: BucketName, now: Instant)
    : map<BucketName, seq<Instant>>
  {
    grants[name := (if name in grants then grants[name] else []) + [now]]
  }

  function Owned(live: map<JobId, string>, tenant: string): set<JobId> {
    set id | id in live && live[id] == tenant
  }

  function Share(j: Job, tenant: Option<string>): nat {
    if tenant.None? || j.identity.tenant == tenant.value then j.reservedBytes else 0
  }

  function Shares(jobs: map<JobId, Job>, tenant: Option<string>): map<JobId, nat> {
    map id | id in jobs :: Share(jobs[id], tenant)
  }

  /** Summed reservations of the rows that `tenant` owns, or of all rows. */
  ghost function Reserved(jobs: map<JobId, Job>, tenant: Option<string>): nat {
    Sum(Shares(jobs, tenant))
  }

  /** Remote debt of the tenant that is more than a week old. */
  predicate IsOldDebt(j: Job, tenant: string, now: Instant) {
    && j.identity.tenant == tenant && j.cleanup != NotSubmitted && j.cleanup != RemotePurgeConfirmed
    && now >= (if j.attemptAt.Some? then j.attemptAt.value else j.createdAt) + 7 * 24 * HOUR
  }

  ghost predicate OldDebt(jobs: map<JobId, Job>, tenant: string, now: Instant) {
    exists id :: id in jobs && IsOldDebt(jobs[id], tenant, now)
  }

  /* ---------------------------------------------------------------- transactions */

  datatype Upload = Upload(
    tenant: string, generation: string, submissionPolicy: string, resultPolicy: string, staticVerdict: string)

  function StagedRow(cfg: Config, up: Upload, id: JobId, now: Instant): Job {
    Job(id, Identity(up.tenant, "", up.generation, up.submissionPolicy, up.resultPolicy), up.staticVerdict,
        Staging, 1, cfg.maxAttachment + METADATA_AND_RESULT, 0,
        now, now + INGRESS_LIMIT, now + HOUR, now + 24 * HOUR,
        None, None, None, None, 0, 0, false, [], [], NotSubmitted, false, false, false,
        NoCode, None, None, 0, false)
  }

  /** The rows of one tenant. */
  function RowsOf(jobs: map<JobId, Job>, tenant: string): set<JobId> {
    set k | k in jobs && jobs[k].identity.tenant == tenant
  }

  /** Admission of one upload; `capacity` is the filesystem's answer. */
  ghost function ReserveTx(cfg: Config, disk: Disk, up: Upload, id: JobId, wall: Instant,
                           capacity: bool): Outcome<Disk> {
    match ReadClock(disk.clock, wall)
    case Err(e) => Err(e)
    case Ok(now) =>
      var j := StagedRow(cfg, up, id, now);
      if up.generation in disk.paused then Err(Coded(Unauthorized))
      else if |disk.jobs| >= cfg.maxJobs || |RowsOf(disk.jobs, up.tenant)| >= cfg.tenantJobs
              || Reserved(disk.jobs, None) + j.reservedBytes > cfg.maxBytes
              || Reserved(disk.jobs, Some(up.tenant)) + j.reservedBytes > cfg.tenantBytes
      then Err(QuotaExceeded)
      else if OldDebt(disk.jobs, up.tenant, now) then Err(QuotaExceeded)
      else if !capacity then Err(QuotaExceeded)
      else if id in disk.jobs then Err(StoreUnavailable)
      else Ok(Put(disk, id, j, now))
  }

  ghost predicate HasReusable(jobs: map<JobId, Job>, identity: Identity, now: Instant) {
    exists id :: id in jobs && jobs[id].identity == identity && Reusable(jobs[id], now)
  }

  /** Publication of a staged upload: `Ok(None)` when an existing row is reused instead. */
  ghost function PublishTx(disk: Disk, id: JobId, size: nat, digest: string, verdict: string, wall: Instant)
    : Outcome<Option<Disk>>
  {
    if id !in disk.jobs then Err(StateConflict)
    else
      var j := disk.jobs[id];
      match ReadClock(disk.clock, wall)
      case Err(e) => Err(e)
      case Ok(now) =>
        if now >= j.ingressDeadline then Err(Coded(Deadline))
        else if HasReusable(disk.jobs, j.identity.(digest := digest), now) then Ok(None)
        else if j.state != Staging then Err(StateConflict)
        else Ok(Some(Put(disk, id, Publish(j, digest, size, verdict), now)))
  }

  function BeginTx(cfg: Config, disk: Disk, live: map<JobId, string>, tenant: string, id: JobId, version: int,
                   wall: Instant)
    : Outcome<Disk>
  {
    match Lookup(disk, tenant, id)
    case Err(e) => Err(e)
    case Ok(j) =>
      match BeginAdmission(j, version, disk.paused)
      case Err(e) => Err(e)
      case Ok(_) =>
        match ReadClock(disk.clock, wall)
        case Err(e) => Err(e)
        case Ok(now) =>
          match BeginTiming(j, now)
          case Err(e) => Err(e)
          case Ok(_) =>
            if |live| >= cfg.submissionConcurrency || |Owned(live, tenant)| >= cfg.tenantSubmissionConcurrency
            then Err(Coded(Throttled))
            else
              match TakeSubmission(cfg, disk.buckets, tenant, now)
              case Err(e) => Err(e)
              case Ok(buckets) => Ok(Put(disk, id, Begin(j, now), now).(buckets := buckets))
  }

  predicate ReadsClock(j: Job, s: Submission, outcome: Code) {
    !Terminal(j.state) && MustRetry(s, outcome, HarvestIncomplete(s.tasks, j.identity.generation))
  }

  function RecordTx(disk: Disk, id: JobId, version: int, s: Submission, outcome: Code, backoff: Instant, wall: Instant)
    : Outcome<Disk>
  {
    if id !in disk.jobs then Err(Coded(NotFound))
    else
      var j := disk.jobs[id];
      if !RecordGuard(j, version) then Err(StateConflict)
      else if ReadsClock(j, s, outcome) then
        match ReadClock(disk.clock, wall)
        case Err(e) => Err(e)
        case Ok(now) => Ok(Put(disk, id, RecordSubmission(j, s, outcome, backoff, wall, now), now))
      else Ok(disk.(jobs := disk.jobs[id := RecordSubmission(j, s, outcome, backoff, wall, 0)]))
  }

  /** The single-row lifecycle transactions. */
  datatype RowOp =
    | CancelRow
    | ExpireRow
    | MinimizeRow
    | DeletionRow(version: int, task: TaskRef, acknowledged: bool)
    | StatusRow(version: int, task: TaskRef, status: Status)
    | CompleteRow(version: int, task: TaskRef, mapped: Option<ResultBytes>)
    | ReportErrorRow(version: int, task: TaskRef, code: Code)
    | RetryRow(delay: Instant)
    | CleanupDeadlineRow
    | WakeRow

  function RowOutcome(op: RowOp, j: Job, now: Instant): Outcome<Job> {
    match op
    case CancelRow => Ok(Cancel(j, now))
    case ExpireRow => Ok(Expire(j, now))
    case MinimizeRow => Ok(if Terminal(j.state) && RetentionElapsed(j, now) && !Forgettable(j) then Minimize(j) else j)
    case DeletionRow(version, task, acknowledged) => RecordDeletion(j, version, task, acknowledged)
    case StatusRow(version, task, status) => RecordStatus(j, version, task, status, now)
    case CompleteRow(version, task, mapped) => CompleteReport(j, version, task, mapped, now)
    case ReportErrorRow(version, task, code) => RecordReportError(j, version, task, code, now)
    case RetryRow(delay) => Ok(ExtendRetry(j, delay, now))
    case CleanupDeadlineRow => Ok(MarkCleanupDeadline(j, now))
    case WakeRow => Ok(WakePoll(j, now))
  }

  /** A deletion response needs no clock.  Cancellation alone proceeds on a rolled-back clock, at the
      persisted high-water mark. */
  function RowClock(op: RowOp, clock: Option<Instant>, wall: Instant): Outcome<Instant> {
    if op.DeletionRow? then Ok(0)
    else
      match ReadClock(clock, wall)
      case Ok(now) => Ok(now)
      case Err(e) => if op.CancelRow? && clock.Some? then Ok(clock.value) else Err(e)
  }

  /** A cancellation with nothing to cancel does not even read the clock. */
  function RowTx(disk: Disk, id: JobId, op: RowOp, wall: Instant): Outcome<Disk> {
    if id !in disk.jobs then Err(Coded(NotFound))
    else if op.CancelRow? && (disk.jobs[id].state == Staging || disk.jobs[id].state == Cancelled) then Ok(disk)
    else
      match RowClock(op, disk.clock, wall)
      case Err(e) => Err(e)
      case Ok(now) =>
        match RowOutcome(op, disk.jobs[id], now)
        case Err(e) => Err(e)
        case Ok(k) => Ok(if op.DeletionRow? then disk.(jobs := disk.jobs[id := k]) else Put(disk, id, k, now))
  }

  function ReserveReadTx(cfg: Config, disk: Disk, id: JobId, version: int, state: JobState, delay: Instant,
                         wall: Instant)
    : Outcome<Disk>
  {
    if id !in disk.jobs then Err(Coded(NotFound))
    else if disk.jobs[id].version != version || disk.jobs[id].state != state then Err(StateConflict)
    else
      match ReadClock(disk.clock, wall)
      case Err(e) => Err(e)
      case Ok(now) =>
        match ReadGuard(disk.jobs[id], version, state, now)
        case Err(e) => Err(e)
        case Ok(_) =>
          match TakeFrom(disk.buckets, RequestBucket, cfg.requestsPerMinute, now)
          case Err(e) => Err(e)
          case Ok(buckets) => Ok(Put(disk, id, ReserveRead(disk.jobs[id], delay, now), now).(buckets := buckets))
  }

  predicate NeedsNoPayload(state: JobState) {
    state == RemotePending || state == Fetching || Terminal(state)
  }

  /* ---------------------------------------------------------------- steps */

  datatype Step =
    // ingress
    | Reserve(up: Upload, id: JobId, wall: Instant, capacity: bool, commit: Commit)
    | WriteTmp(id: JobId, size: nat)
    | RenameTmp(id: JobId, digest: string)
    | StopWriter(id: JobId)
    | UnlinkStaged(file: FileName)
    | DropStaged(id: JobId)
    | WriterDone(id: JobId)
    | PublishUpload(id: JobId, verdict: string, wall: Instant, commit: Commit)
    // scheduler and network
    | BeginAttempt(tenant: string, id: JobId, version: int, wall: Instant, commit: Commit, checkpointed: bool)
    | OpenPayload(id: JobId)
    | SendBytes(id: JobId)
    | ReturnRequest(id: JobId, submission: Submission, outcome: Code)
    | Persist(k: nat, backoff: Instant, wall: Instant, commit: Commit, settled: bool)
    | ReadRemote(id: JobId, version: int, state: JobState, delay: Instant, wall: Instant)
    | SpendRequest(wall: Instant)
    | Admit(generation: string, enabled: bool)
    // lifecycle
    | UpdateRow(id: JobId, op: RowOp, wall: Instant)
    | Forget(id: JobId, wall: Instant)
    | UnlinkPayload(id: JobId)
    | Tick(wall: Instant)
    // crash and recovery
    | Crash
    | RecoverAttempt(id: JobId)
    | RecoverUnlink(file: FileName)
    | FinishRecovery

  ghost function StepReserve(cfg: Config, s: System, step: Step): System
    requires step.Reserve?
  {
    match ReserveTx(cfg, s.disk, step.up, step.id, step.wall, step.capacity)
    case Err(_) => s
    case Ok(d) =>
      if step.commit.NotApplied? || step.id in s.past.used then s
      else s.(disk := d, past := s.past.(used := s.past.used + {step.id}),
              mem := if step.commit.Committed? then s.mem.(writers := s.mem.writers[step.id := Writing]) else s.mem)
  }

  function StepRename(cfg: Config, s: System, id: JobId, digest: string): System {
    var tmp, blob := FileName(id, Tmp), FileName(id, Blob);
    if id in s.mem.writers && s.mem.writers[id].Writing? && tmp in s.disk.files && blob !in s.disk.files
       && 1 <= s.disk.files[tmp] <= cfg.maxAttachment
    then
      var size := s.disk.files[tmp];
      s.(disk := s.disk.(files := (s.disk.files - {tmp})[blob := size]),
         mem := s.mem.(writers := s.mem.writers[id := Renamed(size, digest)]))
    else s
  }

  predicate CleaningUp(s: System, id: JobId) {
    && id in s.disk.jobs && s.disk.jobs[id].state == Staging
    && (!s.mem.running || (id in s.mem.writers && s.mem.writers[id].Stopping?))
  }

  ghost function StepPublish(s: System, id: JobId, verdict: string, wall: Instant, commit: Commit): System {
    if id !in s.mem.writers || !s.mem.writers[id].Renamed? then s
    else
      var w := s.mem.writers[id];
      var stopping := s.mem.(writers := s.mem.writers[id := Stopping]);
      match PublishTx(s.disk, id, w.size, w.digest, verdict, wall)
      case Err(_) => s.(mem := stopping)
      case Ok(None) => s.(mem := stopping)
      case Ok(Some(d)) =>
        match commit
        case NotApplied => s.(mem := stopping)
        case AppliedThenFailed => s.(disk := d, mem := stopping)
        case Committed => s.(disk := d, mem := s.mem.(writers := s.mem.writers - {id}))
  }

  function StepBegin(cfg: Config, s: System, step: Step): System
    requires step.BeginAttempt?
  {
    var failed := s.mem.(pending := s.mem.pending + [BeginError(step.id, step.version)]);
    if s.mem.pending != [] || step.id in s.mem.requests then s
    else
      match BeginTx(cfg, s.disk, s.mem.live, step.tenant, step.id, step.version, step.wall)
      case Err(_) => s.(mem := failed)
      case Ok(d) =>
        if step.commit.NotApplied? then s.(mem := failed)
        else
          var now := d.clock.value;
          var grants := Granted(Granted(Granted(s.past.grants, RequestBucket, now), SubmitBucket, now),
                                TenantBucket(step.tenant), now);
          var live := if step.commit.Committed? then s.mem.live[step.id := step.tenant] else s.mem.live;
          var mem :=
            if step.commit.Committed? && step.checkpointed
            then s.mem.(live := live, requests := s.mem.requests[step.id := Request(step.version + 1, Authorized)])
            else failed.(live := live);
          System(d, mem, s.past.(grants := grants))
  }

  function StepOpen(s: System, id: JobId): System {
    if && id in s.mem.requests && s.mem.requests[id].phase.Authorized? && id in s.disk.jobs
       && s.disk.jobs[id].state == Submitting && s.disk.jobs[id].version == s.mem.requests[id].version
       && FileName(id, Blob) in s.disk.files
    then s.(mem := s.mem.(requests := s.mem.requests[id := s.mem.requests[id].(phase := Opened)]))
    else s
  }

  function StepSend(s: System, id: JobId): System {
    if id in s.mem.requests && s.mem.requests[id].phase.Opened? && id in s.disk.jobs
    then
      var r := s.mem.requests[id];
      s.(mem := s.mem.(requests := s.mem.requests[id := r.(phase := Sent)]),
         past := s.past.(sent := s.past.sent + {Attempt(id, s.disk.jobs[id].identity, r.version)}))
    else s
  }

  /** The client claims `noBytesSent` only when it never invoked the transport. */
  function StepReturn(s: System, id: JobId, submission: Submission, outcome: Code): System {
    if id !in s.mem.requests || (submission.noBytesSent && s.mem.requests[id].phase.Sent?) then s
    else
      var packet := Submitted(id, s.mem.requests[id].version, submission, outcome);
      s.(mem := s.mem.(requests := s.mem.requests - {id}, pending := s.mem.pending + [packet]))
  }

  function Without<T>(xs: seq<T>, k: nat): seq<T>
    requires k < |xs|
  {
    xs[..k] + xs[k + 1..]
  }

  /** Whether the packet's outcome already is, or need not be, durable. */
  predicate Settled(j: Job, p: Packet) {
    j.submissionRecorded || (p.BeginError? && j.submissionVersion <= p.snapshot)
  }

  /** What a packet that is not settled is recorded as. */
  function PacketVersion(j: Job, p: Packet): int {
    if p.BeginError? then j.submissionVersion else p.version
  }

  function PacketSubmission(p: Packet): Submission {
    if p.BeginError? then Submission([], false, true) else p.submission
  }

  function PacketOutcome(p: Packet): Code {
    if p.BeginError? then Transport else p.outcome
  }

  function PacketTx(disk: Disk, p: Packet, backoff: Instant, wall: Instant): Outcome<Disk>
    requires p.id in disk.jobs
  {
    RecordTx(disk, p.id, PacketVersion(disk.jobs[p.id], p), PacketSubmission(p), PacketOutcome(p), backoff, wall)
  }

  function StepPersist(s: System, step: Step): System
    requires step.Persist? && step.k < |s.mem.pending| && s.mem.pending[step.k].id in s.disk.jobs
  {
    var p := s.mem.pending[step.k];
    var j := s.disk.jobs[p.id];
    var rest := s.mem.(pending := Without(s.mem.pending, step.k));
    if Settled(j, p) then s.(mem := rest)
    else
      match PacketTx(s.disk, p, step.backoff, step.wall)
      case Err(_) => s
      case Ok(d) =>
        match step.commit
        case NotApplied => s
        case AppliedThenFailed => s.(disk := d)
        case Committed =>
          s.(disk := d, mem := (if step.settled then rest else s.mem).(live := s.mem.live - {p.id}))
  }

  function StepRead(cfg: Config, s: System, step: Step): System
    requires step.ReadRemote?
  {
    match ReserveReadTx(cfg, s.disk, step.id, step.version, step.state, step.delay, step.wall)
    case Err(_) => s
    case Ok(d) => s.(disk := d, past := s.past.(grants := Granted(s.past.grants, RequestBucket, d.clock.value)))
  }

  function StepSpend(cfg: Config, s: System, wall: Instant): System {
    match ReadClock(s.disk.clock, wall)
    case Err(_) => s
    case Ok(now) =>
      match TakeFrom(s.disk.buckets, RequestBucket, cfg.requestsPerMinute, now)
      case Err(_) => s
      case Ok(buckets) =>
        s.(disk := s.disk.(buckets := buckets, clock := Some(now)),
           past := s.past.(grants := Granted(s.past.grants, RequestBucket, now)))
  }

  function StepForget(s: System, id: JobId, wall: Instant): System {
    match ReadClock(s.disk.clock, wall)
    case Err(_) => s
    case Ok(now) =>
      if && id in s.disk.jobs && Terminal(s.disk.jobs[id].state) && RetentionElapsed(s.disk.jobs[id], now)
         && Forgettable(s.disk.jobs[id]) && FileName(id, Blob) !in s.disk.files
      then s.(disk := s.disk.(jobs := s.disk.jobs - {id}, clock := Some(now)))
      else s
  }

  /** Startup keeps only the payloads of rows that may still be submitted or inspected. */
  predicate KeptByRecovery(disk: Disk, file: FileName) {
    && file.kind == Blob && file.id in disk.jobs
    && (disk.jobs[file.id].state == Queued || disk.jobs[file.id].state == SubmitUncertain)
  }

  predicate RecoveryAccepts(disk: Disk) {
    && |disk.jobs| <= 10000 && |disk.files| <= 20000
    && (forall id :: id in disk.jobs ==> disk.jobs[id].state != Staging && disk.jobs[id].state != Submitting)
    && (forall f :: f in disk.files ==>
          (KeptByRecovery(disk, f) && disk.files[f] == disk.jobs[f.id].payloadBytes &&
           1 <= disk.files[f] <= MAX_ATTACHMENT))
    && (forall id :: id in disk.jobs && (disk.jobs[id].state == Queued || disk.jobs[id].state == SubmitUncertain) ==>
          FileName(id, Blob) in disk.files)
  }

  function StepRecoverAttempt(s: System, id: JobId): System {
    if !s.mem.running && id in s.disk.jobs && s.disk.jobs[id].state == Submitting
    then s.(disk := s.disk.(jobs := s.disk.jobs[id := MakeUncertain(s.disk.jobs[id])]))
    else s
  }

  /** A file is unlinked at startup when no row keeps it; an unreconciled attempt still does. */
  function StepRecoverUnlink(s: System, file: FileName): System {
    if && !s.mem.running && file in s.disk.files && !KeptByRecovery(s.disk, file)
       && !(file.kind == Blob && file.id in s.disk.jobs && s.disk.jobs[file.id].state == Submitting)
    then s.(disk := s.disk.(files := s.disk.files - {file}))
    else s
  }

  ghost function Apply(cfg: Config, s: System, step: Step): System {
    if step.Crash? then s.(mem := COLD)
    else if step.RecoverAttempt? then StepRecoverAttempt(s, step.id)
    else if step.RecoverUnlink? then StepRecoverUnlink(s, step.file)
    else if step.UnlinkStaged? then
      if CleaningUp(s, step.file.id) then s.(disk := s.disk.(files := s.disk.files - {step.file})) else s
    else if step.DropStaged? then
      if CleaningUp(s, step.id) && FileName(step.id, Tmp) !in s.disk.files && FileName(step.id, Blob) !in s.disk.files
      then s.(disk := s.disk.(jobs := s.disk.jobs - {step.id}), mem := s.mem.(writers := s.mem.writers - {step.id}))
      else s
    else if step.FinishRecovery? then
      if !s.mem.running && RecoveryAccepts(s.disk) then s.(mem := s.mem.(running := true)) else s
    else if !s.mem.running then s
    else ApplyRunning(cfg, s, step)
  }

  ghost function ApplyRunning(cfg: Config, s: System, step: Step): System {
    match step
    case Reserve(_, _, _, _, _) => StepReserve(cfg, s, step)
    case WriteTmp(id, size) =>
      if id in s.mem.writers && s.mem.writers[id].Writing? && FileName(id, Blob) !in s.disk.files
      then s.(disk := s.disk.(files := s.disk.files[FileName(id, Tmp) := size])) else s
    case RenameTmp(id, digest) => StepRename(cfg, s, id, digest)
    case StopWriter(id) =>
      if id in s.mem.writers then s.(mem := s.mem.(writers := s.mem.writers[id := Stopping])) else s
    case WriterDone(id) =>
      if id in s.mem.writers && s.mem.writers[id].Stopping?
      then s.(mem := s.mem.(writers := s.mem.writers - {id})) else s
    case PublishUpload(id, verdict, wall, commit) => StepPublish(s, id, verdict, wall, commit)
    case BeginAttempt(_, _, _, _, _, _) => StepBegin(cfg, s, step)
    case OpenPayload(id) => StepOpen(s, id)
    case SendBytes(id) => StepSend(s, id)
    case ReturnRequest(id, submission, outcome) => StepReturn(s, id, submission, outcome)
    case Persist(k, _, _, _, _) =>
      if k < |s.mem.pending| && s.mem.pending[k].id in s.disk.jobs then StepPersist(s, step) else s
    case ReadRemote(_, _, _, _, _) => StepRead(cfg, s, step)
    case SpendRequest(wall) => StepSpend(cfg, s, wall)
    case Admit(generation, enabled) =>
      s.(disk := s.disk.(paused := if enabled then s.disk.paused - {generation} else s.disk.paused + {generation}))
    case UpdateRow(id, op, wall) =>
      (match RowTx(s.disk, id, op, wall)
       case Err(_) => s
       case Ok(d) => s.(disk := d))
    case Forget(id, wall) => StepForget(s, id, wall)
    case UnlinkPayload(id) =>
      if id in s.disk.jobs && NeedsNoPayload(s.disk.jobs[id].state)
      then s.(disk := s.disk.(files := s.disk.files - {FileName(id, Blob)})) else s
    case Tick(wall) =>
      (match ReadClock(s.disk.clock, wall)
       case Err(_) => s
       case Ok(now) => s.(disk := s.disk.(clock := Some(now))))
    case _ => s
  }

  ghost function Run(cfg: Config, s: System, steps: seq<Step>): System
    decreases |steps|
  {
    if steps == [] then s else Run(cfg, Apply(cfg, s, steps[0]), steps[1..])
  }
}
