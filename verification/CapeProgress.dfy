/** That work is admitted and gets done: when each transaction succeeds, and that a job can be carried through. */
module CapeProgress {
  import opened Basics
  import opened CapeJob
  import opened CapeProtocol
  import opened CapeRows
  import opened CapeInvariant
  import opened CapeSafety
  import opened CapeTransitions

  /* ---------------------------------------------------------------- admission */

  /** Remote debt of the tenant is more than a week old. */
  ghost predicate OwesTooLong(jobs: Jobs, tenant: string, now: Instant) {
    exists id :: id in jobs && jobs[id].identity.tenant == tenant && jobs[id].dedupBarrier
                 && OwedSince(jobs[id]) + 7 * 24 * HOUR <= now
  }

  function OwedSince(j: Job): Instant {
    match j.attemptAt case Some(t) => t case None => j.createdAt
  }

  /** One more row, with room for the largest upload, fits the quotas of the store and of the tenant. */
  ghost predicate FitsQuotas(cfg: Config, jobs: Jobs, tenant: string) {
    var room := cfg.maxAttachment + 20 * 1024;
    && |jobs| + 1 <= cfg.maxJobs && |set id | id in jobs && jobs[id].identity.tenant == tenant| + 1 <= cfg.tenantJobs
    && Reserved(jobs, None) + room <= cfg.maxBytes && Reserved(jobs, Some(tenant)) + room <= cfg.tenantBytes
  }

  /** A row as it is admitted. */
  predicate Staged(j: Job, up: Upload, id: JobId, now: Instant) {
    && j.id == id && j.state == Staging && j.version == 1 && j.staticVerdict == up.staticVerdict
    && j.identity == Identity(up.tenant, "", up.generation, up.submissionPolicy, up.resultPolicy)
    && j.createdAt == now && j.ingressDeadline == now + 30 * SECOND && j.queueDeadline == now + HOUR
    && j.analysisDeadline == now + 24 * HOUR && j.attempts == 0 && j.taskIds == [] && j.result.None? && !j.dedupBarrier
  }

  lemma DebtIsOld(jobs: Jobs, used: set<JobId>, tenant: string, now: Instant)
    requires RowsOk(jobs, used)
    ensures OldDebt(jobs, tenant, now) <==> OwesTooLong(jobs, tenant, now)
  {
    forall id | id in jobs ensures RowInv(jobs[id]) {
    }
    if OldDebt(jobs, tenant, now) {
      var id :| id in jobs && IsOldDebt(jobs[id], tenant, now);
      assert RowInv(jobs[id]);
    }
    if OwesTooLong(jobs, tenant, now) {
      var id :| id in jobs && jobs[id].identity.tenant == tenant && jobs[id].dedupBarrier
        && OwedSince(jobs[id]) + 7 * 24 * HOUR <= now;
      assert IsOldDebt(jobs[id], tenant, now);
    }
  }

  /** An upload is admitted exactly when its generation is not paused, it fits the quotas, its tenant owes nothing old,
      and there is room on the disk. */
  lemma AdmitsExactly(cfg: Config, disk: Disk, used: set<JobId>, up: Upload, id: JobId, wall: Instant, capacity: bool)
    requires RowsOk(disk.jobs, used) && id !in disk.jobs
    ensures var r, clock := ReserveTx(cfg, disk, up, id, wall, capacity), ReadClock(disk.clock, wall);
            && (r.Ok? <==>
                  && clock.Ok? && up.generation !in disk.paused && FitsQuotas(cfg, disk.jobs, up.tenant)
                  && !OwesTooLong(disk.jobs, up.tenant, clock.value) && capacity)
            && (r.Ok? ==>
                  var j := r.value.jobs[id];
                  && r.value == Put(disk, id, j, clock.value) && Staged(j, up, id, clock.value)
                  && j.reservedBytes == cfg.maxAttachment + 20 * 1024)
  {
    hide OldDebt, OwesTooLong, Reserved;
    var clock := ReadClock(disk.clock, wall);
    if clock.Ok? {
      DebtIsOld(disk.jobs, used, up.tenant, clock.value);
    }
    assert RowsOf(disk.jobs, up.tenant) == set k | k in disk.jobs && disk.jobs[k].identity.tenant == up.tenant;
  }

  /* ---------------------------------------------------------------- publication */

  /** Some row with the identity is queued, under way or may have been sent. */
  ghost predicate Taken(jobs: Jobs, identity: Identity) {
    exists id :: id in jobs && jobs[id].identity == identity
                 && (jobs[id].state == Queued || jobs[id].state == Submitting || jobs[id].dedupBarrier)
  }

  lemma ReusableIsTaken(jobs: Jobs, used: set<JobId>, identity: Identity, now: Instant)
    requires RowsOk(jobs, used)
    ensures HasReusable(jobs, identity, now) <==> Taken(jobs, identity)
  {
    hide Reusable, RowInv;
    forall id | id in jobs ensures Reusable(jobs[id], now) <==> Blocking(jobs[id]) {
      ReusableIsBlocking(jobs[id], now);
    }
    if HasReusable(jobs, identity, now) {
      var id :| id in jobs && jobs[id].identity == identity && Reusable(jobs[id], now);
      assert Blocking(jobs[id]);
    }
    if Taken(jobs, identity) {
      var id :| id in jobs && jobs[id].identity == identity
        && (jobs[id].state == Queued || jobs[id].state == Submitting || jobs[id].dedupBarrier);
      assert Blocking(jobs[id]);
    }
  }

  /** A staged upload in time is queued exactly when its identity is not taken, and reuses a row otherwise. */
  lemma PublishesUnlessTaken(disk: Disk, used: set<JobId>, id: JobId, size: nat, digest: string, verdict: string,
                             wall: Instant)
    requires RowsOk(disk.jobs, used) && id in disk.jobs && disk.jobs[id].state == Staging
    ensures var j, clock := disk.jobs[id], ReadClock(disk.clock, wall);
            var r := PublishTx(disk, id, size, digest, verdict, wall);
            && (r.Ok? <==> clock.Ok? && clock.value < j.ingressDeadline)
            && (r.Ok? ==> (r.value.None? <==> Taken(disk.jobs, j.identity.(digest := digest))))
            && (r.Ok? && r.value.Some? ==>
                  r.value.value == Put(disk, id, Publish(j, digest, size, verdict), clock.value))
  {
    hide HasReusable, Taken, Publish;
    var clock := ReadClock(disk.clock, wall);
    if clock.Ok? {
      ReusableIsTaken(disk.jobs, used, disk.jobs[id].identity.(digest := digest), clock.value);
    }
  }

  /* ---------------------------------------------------------------- outcomes */

  /** An outcome can be recorded exactly once, for the row's latest attempt, whatever has become of the row. */
  lemma RecordsExactly(j: Job, version: int)
    requires RowInv(j)
    ensures RecordGuard(j, version) <==> version == j.submissionVersion && version >= 1 && !j.submissionRecorded
  {
  }

  /** What a commit of the packet's outcome makes of its row. */
  ghost predicate OutcomeStored(j: Job, k: Job, p: Packet, backoff: Instant, wall: Instant) {
    && p.Submitted? && exists now :: k == RecordSubmission(j, p.submission, p.outcome, backoff, wall, now)
  }

  /** A persist step takes a packet off the list only when the outcome of its attempt is durable, or when there was no
      attempt; and a clean one stores what the packet says. */
  lemma OutcomeIsNeverLost(cfg: Config, s: System, step: Step)
    requires s.mem.running && step.Persist? && step.k < |s.mem.pending|
    requires s.mem.pending[step.k].id in s.disk.jobs
    ensures var t, p := Apply(cfg, s, step), s.mem.pending[step.k];
            var j := s.disk.jobs[p.id];
            && p.id in t.disk.jobs
            && (t.mem.pending != s.mem.pending ==>
                  || t.disk.jobs[p.id].submissionRecorded
                  || (p.BeginError? && j.submissionVersion <= p.snapshot))
            && (|| t.mem.pending == s.mem.pending
                || t.mem.pending == s.mem.pending[..step.k] + s.mem.pending[step.k + 1..])
            && (p.Submitted? && t.disk.jobs != s.disk.jobs ==>
                  OutcomeStored(j, t.disk.jobs[p.id], p, step.backoff, step.wall))
            && (j.submissionRecorded ==> t.disk == s.disk)
  {
    hide RecordSubmission, ReadsClock, RecordGuard;
    var p := s.mem.pending[step.k];
    var j := s.disk.jobs[p.id];
    forall now {
      RecordMarks(j, PacketSubmission(p), PacketOutcome(p), step.backoff, step.wall, now);
    }
  }

  /* ---------------------------------------------------------------- a job is carried through */

  /** The one task of a clean submission. */
  function OneTaskOf(task: TaskRef): Submission {
    Submission([task], false, false)
  }

  /** The attempt: begin, open the payload, send it, and record the one task that comes back. */
  function AttemptSteps(j: Job, id: JobId, task: int, wall: Instant): seq<Step> {
    [BeginAttempt(j.identity.tenant, id, j.version, wall, Committed, true), OpenPayload(id), SendBytes(id),
     ReturnRequest(id, OneTaskOf(TaskRef(task, j.identity.generation)), NoCode), Persist(0, 0, wall, Committed, true)]
  }

  /** The report: the task is reported, and its report maps to `r`. */
  function ReportSteps(j: Job, id: JobId, task: int, r: ResultBytes, wall: Instant): seq<Step> {
    var ref := TaskRef(task, j.identity.generation);
    [UpdateRow(id, StatusRow(j.version, ref, Reported), wall),
     UpdateRow(id, CompleteRow(j.version + 1, ref, Some(r)), wall)]
  }

  /** The attempt has begun: its row is submitting, it is live, and it holds a request. */
  ghost predicate Begun(s: System, t: System, j: Job, id: JobId, now: Instant) {
    && t.mem.running && t.disk.jobs == s.disk.jobs[id := Begin(j, now)] && t.disk.files == s.disk.files
    && t.disk.clock == Some(now) && t.mem.pending == [] && id in t.mem.live
    && t.mem.requests == s.mem.requests[id := Request(j.version + 1, Authorized)]
  }

  lemma BeginBegins(cfg: Config, s: System, id: JobId, wall: Instant, now: Instant)
    requires s.mem.running && s.mem.pending == [] && id in s.disk.jobs && id !in s.mem.requests
    requires var j := s.disk.jobs[id];
             BeginTx(cfg, s.disk, s.mem.live, j.identity.tenant, id, j.version, wall).Ok?
    requires ReadClock(s.disk.clock, wall) == Ok(now)
    ensures var j := s.disk.jobs[id];
            var step := BeginAttempt(j.identity.tenant, id, j.version, wall, Committed, true);
            Begun(s, Apply(cfg, s, step), j, id, now)
  {
    hide TakeSubmission, Owned, Granted, Begin;
  }

  /** The request is over and its packet waits. */
  ghost predicate Answered(t: System, j: Job, id: JobId, task: int, now: Instant) {
    && t.mem.running && id in t.disk.jobs && t.disk.jobs[id] == Begin(j, now) && t.disk.clock == Some(now)
    && id in t.mem.live && id !in t.mem.requests
    && t.mem.pending == [Submitted(id, j.version + 1, OneTaskOf(TaskRef(task, j.identity.generation)), NoCode)]
    && Attempt(id, j.identity, j.version + 1) in t.past.sent
  }

  lemma SendingSends(cfg: Config, s: System, t: System, id: JobId, task: int, now: Instant)
    requires id in s.disk.jobs && s.disk.jobs[id].state == Queued && FileName(id, Blob) in s.disk.files
    requires Begun(s, t, s.disk.jobs[id], id, now)
    ensures var j := s.disk.jobs[id];
            var u := Apply(cfg, Apply(cfg, t, OpenPayload(id)), SendBytes(id));
            var back := ReturnRequest(id, OneTaskOf(TaskRef(task, j.identity.generation)), NoCode);
            Answered(Apply(cfg, u, back), j, id, task, now)
  {
    var u1 := Apply(cfg, t, OpenPayload(id));
    assert u1 == t.(mem := t.mem.(requests := t.mem.requests[id := Request(s.disk.jobs[id].version + 1, Opened)]));
    var u2 := Apply(cfg, u1, SendBytes(id));
    assert u2.mem.requests[id].phase == Sent;
  }

  lemma PersistStores(cfg: Config, t: System, j: Job, id: JobId, task: int, wall: Instant, now: Instant)
    requires RowInv(j) && j.state == Queued && 1 <= task <= MAX_TASK_ID && Answered(t, j, id, task, now)
    ensures var u := Apply(cfg, t, Persist(0, 0, wall, Committed, true));
            && u.mem.running && u.mem.pending == [] && id !in u.mem.live && id !in u.mem.requests
            && u.past == t.past && u.disk.clock == Some(now) && id in u.disk.jobs
            && Polling(u.disk.jobs[id], j, task)
  {
    var k := Begin(j, now);
    BeginRow(j, now);
    RecordsExactly(k, j.version + 1);
    var sub := OneTaskOf(TaskRef(task, j.identity.generation));
    HarvestOfOne(sub, j.identity.generation);
    BecomesPollable(k, sub, wall);
    hide RecordSubmission, RecordGuard, RowInv;
    assert !ReadsClock(k, sub, NoCode);
  }

  /** The row waits for the report of `task`. */
  predicate Polling(k: Job, j: Job, task: int) {
    && MadePollable(k, task) && k.version == j.version + 2 && !k.suppressed && k.identity == j.identity
    && k.analysisDeadline == j.analysisDeadline && k.terminalAt.None? && RowInv(k)
  }

  lemma PollingIs(k: Job, j: Job, task: int)
    requires Polling(k, j, task)
    ensures k.identity == j.identity
  {
  }

  lemma BecomesPollable(k: Job, s: Submission, wall: Instant)
    requires RowInv(k) && k.state == Submitting && k.submissionVersion >= 1 && k.submissionVersion == k.version
    requires |s.tasks| == 1 && HarvestableTask(s.tasks[0], k.identity.generation) && !s.unknownDebt && !s.noBytesSent
    ensures var l := RecordSubmission(k, s, NoCode, 0, wall, 0);
            && MadePollable(l, s.tasks[0].id) && l.version == k.version + 1 && !l.suppressed && l.identity == k.identity
            && l.analysisDeadline == k.analysisDeadline && l.terminalAt.None? && RowInv(l)
  {
    RecordsExactly(k, k.version);
    OutcomeDecides(k, s, NoCode, 0, wall, 0);
    RecordRow(k, s, NoCode, 0, wall, 0);
    OutcomeKeepsDeadline(k, s, NoCode, 0, wall, 0);
  }

  lemma InTimeKeepsDeadline(h: Job, s: Submission, outcome: Code, invalid: bool, backoff: Instant, wall: Instant,
                            now: Instant)
    ensures var k := InTimeOutcome(h, s, outcome, invalid, backoff, wall, now);
            k.analysisDeadline == h.analysisDeadline && k.suppressed == h.suppressed
  {
    hide ClampBackoff, CleanSuccess, MustRetry, BeforeTime;
  }

  lemma OutcomeKeepsDeadline(j: Job, s: Submission, outcome: Code, backoff: Instant, wall: Instant, now: Instant)
    requires !Terminal(j.state)
    ensures var k := RecordSubmission(j, s, outcome, backoff, wall, now);
            k.analysisDeadline == j.analysisDeadline && k.suppressed == j.suppressed
  {
    hide InTimeOutcome, LateOutcome, Harvested, HarvestIncomplete;
    InTimeKeepsDeadline(Harvest(j, s, outcome), s, outcome, HarvestIncomplete(s.tasks, j.identity.generation), backoff,
                        wall, now);
  }

  /** The row is ready for its report. */
  predicate Fetched(k: Job, j: Job, task: int, version: int) {
    && k.state == Fetching && k.version == version && !k.suppressed && !k.unknownDebt && k.taskIds == [task]
    && k.identity == j.identity && k.analysisDeadline == j.analysisDeadline && RowInv(k)
  }

  lemma StatusFetches(cfg: Config, s: System, j: Job, id: JobId, task: int, wall: Instant, now: Instant)
    requires s.mem.running && id in s.disk.jobs && Polling(s.disk.jobs[id], j, task)
    requires ReadClock(s.disk.clock, wall) == Ok(now) && now < j.analysisDeadline
    ensures var k := s.disk.jobs[id];
            var op := StatusRow(k.version, TaskRef(task, k.identity.generation), Reported);
            var t := Apply(cfg, s, UpdateRow(id, op, wall));
            && t.mem == s.mem && t.past == s.past && t.disk.clock == Some(now) && id in t.disk.jobs
            && Fetched(t.disk.jobs[id], j, task, k.version + 1)
  {
    hide RecordStatus, RowInv;
    var k := s.disk.jobs[id];
    var ref := TaskRef(task, k.identity.generation);
    StatusDecides(k, k.version, ref, Reported, now);
    StatusIsQuiet(k, k.version, ref, Reported, now);
  }

  lemma ReportCompletes(cfg: Config, s: System, j: Job, id: JobId, task: int, version: int, r: ResultBytes,
                        wall: Instant, now: Instant)
    requires s.mem.running && id in s.disk.jobs && Fetched(s.disk.jobs[id], j, task, version)
    requires ReadClock(s.disk.clock, wall) == Ok(now) && now < j.analysisDeadline
    ensures var op := CompleteRow(version, TaskRef(task, j.identity.generation), Some(r));
            var t := Apply(cfg, s, UpdateRow(id, op, wall));
            && t.mem == s.mem && t.past == s.past && id in t.disk.jobs && t.disk.jobs[id].state == Completed
            && t.disk.jobs[id].result == Some(r) && t.disk.jobs[id].taskIds == [task]
  {
    hide CompleteReport, RowInv;
    CompletesExactly(s.disk.jobs[id], version, TaskRef(task, j.identity.generation), Some(r), now);
  }

  /** In every reachable state a queued job for which nothing stands in the way can be carried through: its bytes are
      sent once, its one task is recorded, and its report is stored, whatever the report maps to. */
  lemma JobIsCarriedThrough(cfg: Config, before: seq<Step>, id: JobId, task: int, r: ResultBytes, wall: Instant,
                            now: Instant)
    requires cfg.Valid() && 1 <= task <= MAX_TASK_ID
    requires var s := Run(cfg, EMPTY, before);
             && s.mem.running && s.mem.pending == [] && ReadClock(s.disk.clock, wall) == Ok(now)
             && id in s.disk.jobs && MayBegin(cfg, s, s.disk.jobs[id].identity.tenant, id, s.disk.jobs[id].version, now)
    ensures var s := Run(cfg, EMPTY, before);
            var j := s.disk.jobs[id];
            var m := Run(cfg, s, AttemptSteps(j, id, task, wall));
            && id in m.disk.jobs
            && var t := Run(cfg, m, ReportSteps(m.disk.jobs[id], id, task, r, wall));
            && id in t.disk.jobs && t.disk.jobs[id].state == Completed && t.disk.jobs[id].result == Some(r)
            && t.disk.jobs[id].taskIds == [task] && Attempt(id, j.identity, j.version + 1) in t.past.sent
            && t.mem.pending == [] && id !in t.mem.requests && id !in t.mem.live
  {
    hide Run, Apply, BeginTx, Begun, Answered, Polling, Fetched, RowInv;
    var s := Run(cfg, EMPTY, before);
    var j := s.disk.jobs[id];
    BeginsExactly(cfg, before, j.identity.tenant, id, j.version, wall);
    QueuedIsReady(cfg, before, id);
    BeginBegins(cfg, s, id, wall, now);
    var steps := AttemptSteps(j, id, task, wall);
    var s1 := Apply(cfg, s, steps[0]);
    SendingSends(cfg, s, s1, id, task, now);
    var s2 := Apply(cfg, s1, steps[1]);
    var s3 := Apply(cfg, s2, steps[2]);
    var s4 := Apply(cfg, s3, steps[3]);
    PersistStores(cfg, s4, j, id, task, wall, now);
    var s5 := Apply(cfg, s4, steps[4]);
    FiveSteps(cfg, s, steps);
    AnsweredIsSent(s4, j, id, task, now);
    ClockStands(s.disk.clock, wall, now);
    PollingIs(s5.disk.jobs[id], j, task);
    StatusFetches(cfg, s5, j, id, task, wall, now);
    var last := ReportSteps(s5.disk.jobs[id], id, task, r, wall);
    ReportCompletes(cfg, Apply(cfg, s5, last[0]), j, id, task, s5.disk.jobs[id].version + 1, r, wall, now);
    TwoSteps(cfg, s5, last);
  }

  lemma QueuedIsReady(cfg: Config, steps: seq<Step>, id: JobId)
    requires cfg.Valid() && id in Run(cfg, EMPTY, steps).disk.jobs
    requires Run(cfg, EMPTY, steps).disk.jobs[id].state == Queued
    ensures var s := Run(cfg, EMPTY, steps);
            RowInv(s.disk.jobs[id]) && FileName(id, Blob) in s.disk.files && id !in s.mem.requests
  {
    hide Run, UniqueOk, SentOk, PendingOk, BucketsOk, QuotaOk, LiveOk, FilesOwned, WritersOk;
    ReachableIsFine(cfg, steps);
    var s := Run(cfg, EMPTY, steps);
    if id in s.mem.requests {
      RequestedIsHeld(s.disk.jobs, s.mem.live, s.past.sent, s.mem.requests, id);
    }
  }

  lemma RequestedIsHeld(jobs: Jobs, live: Live, sent: set<Attempt>, requests: Requests, id: JobId)
    requires RequestsOk(jobs, live, sent, requests) && id in requests
    ensures id in jobs && Held(jobs[id])
  {
    assert RequestOk(jobs, live, sent, id, requests[id]);
  }

  lemma AnsweredIsSent(t: System, j: Job, id: JobId, task: int, now: Instant)
    requires Answered(t, j, id, task, now)
    ensures Attempt(id, j.identity, j.version + 1) in t.past.sent
  {
  }

  lemma ClockStands(clock: Option<Instant>, wall: Instant, now: Instant)
    requires ReadClock(clock, wall) == Ok(now)
    ensures ReadClock(Some(now), wall) == Ok(now)
  {
  }

  lemma TwoSteps(cfg: Config, s: System, steps: seq<Step>)
    requires |steps| == 2
    ensures Run(cfg, s, steps) == Apply(cfg, Apply(cfg, s, steps[0]), steps[1])
  {
    hide Apply;
    assert steps[1..][1..] == [];
    assert Run(cfg, s, steps) == Run(cfg, Apply(cfg, s, steps[0]), steps[1..]);
  }

  lemma FourSteps(cfg: Config, s: System, steps: seq<Step>)
    requires |steps| == 4
    ensures Run(cfg, s, steps)
            == Apply(cfg, Apply(cfg, Apply(cfg, Apply(cfg, s, steps[0]), steps[1]), steps[2]), steps[3])
  {
    hide Apply, Run;
    assert steps == steps[..2] + steps[2..];
    RunAppend(cfg, s, steps[..2], steps[2..]);
    TwoSteps(cfg, s, steps[..2]);
    TwoSteps(cfg, Run(cfg, s, steps[..2]), steps[2..]);
  }

  lemma FiveSteps(cfg: Config, s: System, steps: seq<Step>)
    requires |steps| == 5
    ensures var t := Apply(cfg, Apply(cfg, Apply(cfg, Apply(cfg, s, steps[0]), steps[1]), steps[2]), steps[3]);
            Run(cfg, s, steps) == Apply(cfg, t, steps[4])
  {
    hide Apply, Run;
    assert steps == steps[..4] + [steps[4]];
    RunThen(cfg, s, steps[..4], steps[4]);
    FourSteps(cfg, s, steps[..4]);
  }

  /* ---------------------------------------------------------------- an upload is queued */

  /** An upload: admitted, written, renamed and published. */
  function UploadSteps(up: Upload, id: JobId, size: nat, digest: string, wall: Instant): seq<Step> {
    [Reserve(up, id, wall, true, Committed), WriteTmp(id, size), RenameTmp(id, digest),
     PublishUpload(id, up.staticVerdict, wall, Committed)]
  }

  ghost predicate Writable(s: System, t: System, up: Upload, id: JobId, now: Instant) {
    && t.mem.running && id in t.disk.jobs && Staged(t.disk.jobs[id], up, id, now)
    && t.disk == s.disk.(jobs := s.disk.jobs[id := t.disk.jobs[id]], clock := Some(now))
    && id in t.mem.writers && t.mem.writers[id] == Writing
    && FileName(id, Tmp) !in t.disk.files && FileName(id, Blob) !in t.disk.files
  }

  lemma ReserveReserves(cfg: Config, s: System, up: Upload, id: JobId, wall: Instant, now: Instant)
    requires s.mem.running && id !in s.past.used && RowsOk(s.disk.jobs, s.past.used)
    requires FilesOwned(s.disk.jobs, s.disk.files) && ReadClock(s.disk.clock, wall) == Ok(now)
    requires up.generation !in s.disk.paused && FitsQuotas(cfg, s.disk.jobs, up.tenant)
    requires !OwesTooLong(s.disk.jobs, up.tenant, now)
    ensures Writable(s, Apply(cfg, s, Reserve(up, id, wall, true, Committed)), up, id, now)
  {
    hide ReserveTx, FitsQuotas, OwesTooLong, RowInv;
    AdmitsExactly(cfg, s.disk, s.past.used, up, id, wall, true);
  }

  lemma WritingWrites(cfg: Config, s: System, t: System, up: Upload, id: JobId, size: nat, digest: string, now: Instant)
    requires Writable(s, t, up, id, now) && 1 <= size <= cfg.maxAttachment
    ensures var u := Apply(cfg, Apply(cfg, t, WriteTmp(id, size)), RenameTmp(id, digest));
            && u.mem.running && u.disk == t.disk.(files := t.disk.files[FileName(id, Blob) := size])
            && id in u.mem.writers && u.mem.writers[id] == Renamed(size, digest)
  {
    var w := Apply(cfg, t, WriteTmp(id, size));
    assert w.disk.files == t.disk.files[FileName(id, Tmp) := size];
    assert (w.disk.files - {FileName(id, Tmp)})[FileName(id, Blob) := size] == t.disk.files[FileName(id, Blob) := size];
  }

  lemma PublishingQueues(cfg: Config, u: System, used: set<JobId>, up: Upload, id: JobId, size: nat, digest: string,
                         wall: Instant, now: Instant)
    requires u.mem.running && id in u.mem.writers && u.mem.writers[id] == Renamed(size, digest)
    requires id in u.disk.jobs && Staged(u.disk.jobs[id], up, id, now) && u.disk.clock == Some(now)
    requires RowsOk(u.disk.jobs, used) && ReadClock(u.disk.clock, wall) == Ok(now)
    requires !Taken(u.disk.jobs, u.disk.jobs[id].identity.(digest := digest))
    ensures var t := Apply(cfg, u, PublishUpload(id, up.staticVerdict, wall, Committed));
            t.disk == Put(u.disk, id, Publish(u.disk.jobs[id], digest, size, up.staticVerdict), now)
  {
    hide PublishTx, Taken, Publish, RowInv;
    PublishesUnlessTaken(u.disk, used, id, size, digest, up.staticVerdict, wall);
  }

  /** In every reachable state an upload that the quotas admit, of a size that is allowed and an identity that is not
      taken, is queued with its bytes. */
  lemma UploadIsQueued(cfg: Config, before: seq<Step>, up: Upload, id: JobId, size: nat, digest: string, wall: Instant,
                       now: Instant)
    requires cfg.Valid() && 1 <= size <= cfg.maxAttachment
    requires var s := Run(cfg, EMPTY, before);
             && s.mem.running && id !in s.past.used && ReadClock(s.disk.clock, wall) == Ok(now)
             && up.generation !in s.disk.paused && FitsQuotas(cfg, s.disk.jobs, up.tenant)
             && !OwesTooLong(s.disk.jobs, up.tenant, now)
             && !Taken(s.disk.jobs, Identity(up.tenant, digest, up.generation, up.submissionPolicy, up.resultPolicy))
    ensures var t := Run(cfg, Run(cfg, EMPTY, before), UploadSteps(up, id, size, digest, wall));
            && id in t.disk.jobs && t.disk.jobs[id].state == Queued && t.disk.jobs[id].payloadBytes == size
            && t.disk.jobs[id].identity
               == Identity(up.tenant, digest, up.generation, up.submissionPolicy, up.resultPolicy)
            && t.disk.jobs[id].queueDeadline == now + HOUR && t.disk.jobs[id].analysisDeadline == now + 24 * HOUR
            && FileName(id, Blob) in t.disk.files && t.disk.files[FileName(id, Blob)] == size
  {
    hide Run, Apply, FitsQuotas, OwesTooLong, Taken, RowsOk, FilesOwned, Inv, Writable;
    var s := Run(cfg, EMPTY, before);
    ReachableIsFine(cfg, before);
    PartsOfInv(cfg, s);
    var steps := UploadSteps(up, id, size, digest, wall);
    ReserveReserves(cfg, s, up, id, wall, now);
    var s1 := Apply(cfg, s, steps[0]);
    StepKeepsInv(cfg, s, steps[0]);
    WritingWrites(cfg, s, s1, up, id, size, digest, now);
    var s2 := Apply(cfg, s1, steps[1]);
    StepKeepsInv(cfg, s1, steps[1]);
    var s3 := Apply(cfg, s2, steps[2]);
    StepKeepsInv(cfg, s2, steps[2]);
    PartsOfInv(cfg, s3);
    WritableIs(s, s1, up, id, now);
    StagedTakesNothing(s.disk.jobs, s1.disk.jobs[id], id, s.past.used,
                       Identity(up.tenant, digest, up.generation, up.submissionPolicy, up.resultPolicy));
    ClockStands(s.disk.clock, wall, now);
    PublishingQueues(cfg, s3, s3.past.used, up, id, size, digest, wall, now);
    FourSteps(cfg, s, steps);
    PublishesExactly(s3.disk.jobs[id], digest, size, up.staticVerdict);
  }

  lemma PartsOfInv(cfg: Config, s: System)
    requires Inv(cfg, s)
    ensures RowsOk(s.disk.jobs, s.past.used) && FilesOwned(s.disk.jobs, s.disk.files)
  {
  }

  lemma WritableIs(s: System, t: System, up: Upload, id: JobId, now: Instant)
    requires Writable(s, t, up, id, now)
    ensures id in t.disk.jobs && Staged(t.disk.jobs[id], up, id, now) && t.disk.clock == Some(now)
    ensures t.disk.jobs == s.disk.jobs[id := t.disk.jobs[id]]
  {
  }

  /** A staged row takes no identity. */
  lemma StagedTakesNothing(jobs: Jobs, j: Job, id: JobId, used: set<JobId>, identity: Identity)
    requires RowsOk(jobs, used) && id !in used && j.state == Staging && j.identity.digest == "" && !j.dedupBarrier
    ensures Taken(jobs[id := j], identity) ==> Taken(jobs, identity)
  {
    var more := jobs[id := j];
    if k :| k in more && more[k].identity == identity
            && (more[k].state == Queued || more[k].state == Submitting || more[k].dedupBarrier) {
      assert k != id && more[k] == jobs[k];
    }
  }
}
