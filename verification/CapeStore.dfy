/** The CAPE store as the object it is: fields updated in place by methods that loop over rows and files.

    Each method is proved to do what the protocol's transactions and steps say.  The answers of the
    database and the filesystem are parameters: `commit`, `checkpointed`, `unlinked`, and `fails`, which
    tells which of the filesystem calls made so far fail. */
module CapeStore {
  import opened Basics
  import opened CapeJob
  import opened TokenBucket
  import opened MapSum
  import opened CapeProtocol
  import opened CapeInvariant
  import opened CapeSafety
  import opened CapeRecovery
  import opened CapeMaintenance

  /** The returned task IDs worth keeping, and whether any had to be rejected. */
  method AppendSubmissionTasks(tasks: seq<TaskRef>, generation: string) returns (ids: seq<int>, invalid: bool)
    ensures ids == Harvested(tasks, generation, HarvestLimit(tasks))
    ensures invalid == HarvestIncomplete(tasks, generation)
  {
    ids := [];
    invalid := |tasks| > MAX_TASK_IDS;
    var seen: set<int> := {};
    var i := 0;
    while i < |tasks| && i < MAX_TASK_IDS
      invariant 0 <= i <= HarvestLimit(tasks)
      invariant ids == Harvested(tasks, generation, i)
      invariant seen == set id | id in ids
      invariant invalid <==> |tasks| > MAX_TASK_IDS || |ids| < i
    {
      var task := tasks[i];
      if task.id < 1 || task.id > MAX_TASK_ID || task.generation != generation || task.id in seen {
        invalid := true;
      } else {
        seen := seen + {task.id};
        ids := ids + [task.id];
      }
      i := i + 1;
    }
  }

  /** The row with its attempt marked as recorded and the returned tasks appended. */
  method HarvestTasks(previous: Job, s: Submission, outcome: Code) returns (j: Job, invalid: bool)
    ensures j == Harvest(previous, s, outcome) && invalid == HarvestIncomplete(s.tasks, previous.identity.generation)
  {
    hide Harvested, HarvestIncomplete;
    var ids;
    ids, invalid := AppendSubmissionTasks(s.tasks, previous.identity.generation);
    j := previous.(version := previous.version + 1, submissionRecorded := true, reason := outcome,
                   taskIds := previous.taskIds + ids, unknownDebt := s.unknownDebt || invalid, dedupBarrier := true);
  }

  /** How many attempts are live, and how many of them the tenant owns. */
  method CountLive(live: map<JobId, string>, tenant: string) returns (all: nat, own: nat)
    ensures all == |live| && own == |Owned(live, tenant)|
  {
    all, own := 0, 0;
    var todo := live.Keys;
    ghost var done: set<JobId> := {};
    ghost var mine: set<JobId> := {};
    while todo != {}
      invariant todo !! done && todo + done == live.Keys
      invariant mine == set id | id in done && live[id] == tenant
      invariant all == |done| && own == |mine|
      decreases |todo|
    {
      var id :| id in todo;
      todo := todo - {id};
      done := done + {id};
      all := all + 1;
      if live[id] == tenant {
        mine := mine + {id};
        own := own + 1;
      }
    }
    assert done == live.Keys && mine == Owned(live, tenant);
  }

  lemma BegunRow(cfg: Config, disk: Disk, live: map<JobId, string>, tenant: string, id: JobId, version: int,
                 wall: Instant)
    requires BeginTx(cfg, disk, live, tenant, id, version, wall).Ok?
    ensures var d := BeginTx(cfg, disk, live, tenant, id, version, wall).value; id in d.jobs && d.files == disk.files
  {
    hide TakeSubmission, Begin;
  }

  lemma RecordedRow(disk: Disk, id: JobId, version: int, s: Submission, outcome: Code, backoff: Instant, wall: Instant)
    requires RecordTx(disk, id, version, s, outcome, backoff, wall).Ok?
    ensures var d := RecordTx(disk, id, version, s, outcome, backoff, wall).value; id in d.jobs && d.files == disk.files
  {
    hide RecordSubmission, RecordGuard;
  }

  /** Summed reservations of the rows a tenant owns, or of all rows. */
  method SumReserved(jobs: map<JobId, Job>, tenant: Option<string>) returns (total: nat)
    ensures total == Reserved(jobs, tenant)
  {
    total := 0;
    var rest := jobs;
    while rest != map[]
      invariant total + Reserved(rest, tenant) == Reserved(jobs, tenant)
      decreases |rest|
    {
      var id :| id in rest;
      SumWithout(Shares(rest, tenant), id);
      assert Shares(rest - {id}, tenant) == Shares(rest, tenant) - {id};
      total := total + Share(rest[id], tenant);
      rest := rest - {id};
    }
    assert Shares(rest, tenant) == map[];
  }

  /** Whether the tenant has remote debt older than a week. */
  method FindOldDebt(jobs: map<JobId, Job>, tenant: string, now: Instant) returns (old_: bool)
    ensures old_ == OldDebt(jobs, tenant, now)
  {
    var todo := jobs.Keys;
    while todo != {}
      invariant todo <= jobs.Keys
      invariant forall id :: id in jobs && id !in todo ==> !IsOldDebt(jobs[id], tenant, now)
      decreases |todo|
    {
      var id :| id in todo;
      todo := todo - {id};
      if IsOldDebt(jobs[id], tenant, now) {
        return true;
      }
    }
    return false;
  }

  /** Looks for a row that already satisfies an upload with this identity. */
  method FindReusable(jobs: map<JobId, Job>, identity: Identity, now: Instant) returns (reused: Option<JobId>)
    ensures reused.Some? <==> HasReusable(jobs, identity, now)
    ensures reused.Some? ==>
              && reused.value in jobs && jobs[reused.value].identity == identity && Reusable(jobs[reused.value], now)
  {
    hide Reusable;
    var todo := jobs.Keys;
    while todo != {}
      invariant todo <= jobs.Keys
      invariant forall id :: id in jobs && id !in todo ==> !(jobs[id].identity == identity && Reusable(jobs[id], now))
      decreases |todo|
    {
      var id :| id in todo;
      todo := todo - {id};
      if jobs[id].identity == identity && Reusable(jobs[id], now) {
        return Some(id);
      }
    }
    return None;
  }

  /** What a poll or a report does to the row itself. */
  function ChangeReport(j: Job, op: RowOp, now: Instant): Option<Job>
    requires op.StatusRow? || op.CompleteRow? || op.ReportErrorRow?
  {
    match op
    case StatusRow(_, _, status) => StatusChange(j, status, now)
    case CompleteRow(_, _, mapped) => Some(ReportChange(j, mapped, now))
    case ReportErrorRow(_, _, code) => Some(j.(reason := if code == NoCode then Transport else code))
  }

  lemma ReportOutcome(j: Job, op: RowOp, now: Instant)
    requires op.StatusRow? || op.CompleteRow? || op.ReportErrorRow?
    ensures RowOutcome(op, j, now) ==
            TransitionReport(j, op.version, op.task, if op.StatusRow? then RemotePending else Fetching,
                             ChangeReport(j, op, now), now)
  {
    hide TransitionReport, StatusChange, ReportChange;
  }

  /** What an operation leaves behind, and whether it reports success. */
  datatype Effect = Effect(disk: Disk, live: map<JobId, string>, ok: bool)

  /** The effect of recording an outcome whose transaction is `tx`: an attempt stops being live only when
      the commit reports success, and its payload goes only after that. */
  function RecordEffect(disk: Disk, live: map<JobId, string>, id: JobId, tx: Outcome<Disk>,
                        commit: Commit, unlinked: bool, checkpointed: bool): Effect
  {
    if tx.Err? || commit.NotApplied? then Effect(disk, live, false)
    else if commit.AppliedThenFailed? then Effect(tx.value, live, false)
    else
      var over := id in tx.value.jobs &&
        (tx.value.jobs[id].state == RemotePending || Terminal(tx.value.jobs[id].state));
      Effect(if over && unlinked then tx.value.(files := tx.value.files - {FileName(id, Blob)}) else tx.value,
             live - {id}, (over ==> unlinked) && checkpointed)
  }

  lemma RunStep(cfg: Config, s: System, step: Step)
    ensures Run(cfg, s, [step]) == Apply(cfg, s, step)
  {
    hide Apply;
    assert [step][1..] == [];
  }

  /** What a publication step does, by how its transaction and its commit end. */
  lemma PublishApplies(cfg: Config, s: System, id: JobId, verdict: string, wall: Instant, commit: Commit)
    requires s.mem.running && id in s.mem.writers && s.mem.writers[id].Renamed?
    ensures var w := s.mem.writers[id];
            var tx := PublishTx(s.disk, id, w.size, w.digest, verdict, wall);
            var applied := tx.Ok? && tx.value.Some? && !commit.NotApplied?;
            var closed := applied && commit.Committed?;
            Apply(cfg, s, Step.PublishUpload(id, verdict, wall, commit)) ==
            s.(disk := if applied then tx.value.value else s.disk,
               mem := s.mem.(writers := if closed then s.mem.writers - {id} else s.mem.writers[id := Stopping]))
  {
    hide PublishTx;
  }

  /** Row `found` has the identity that upload `id` would have, and stands for it. */
  predicate Reuses(jobs: map<JobId, Job>, id: JobId, digest: string, found: JobId) {
    && id in jobs && found in jobs && jobs[found].identity == jobs[id].identity.(digest := digest)
    && (jobs[found].dedupBarrier || jobs[found].state in {Queued, Submitting, SubmitUncertain, RemotePending, Fetching}
        || (jobs[found].state == Completed && !jobs[found].suppressed))
  }

  lemma ReusableReuses(jobs: map<JobId, Job>, id: JobId, digest: string, found: JobId, now: Instant)
    requires id in jobs && found in jobs && jobs[found].identity == jobs[id].identity.(digest := digest)
    requires Reusable(jobs[found], now)
    ensures Reuses(jobs, id, digest, found)
  {
  }

  /** Some filesystem call fails, or some commit does not report success. */
  ghost predicate Trouble(fails: nat -> bool, commits: nat -> Commit) {
    exists k: nat :: fails(k) || !commits(k).Committed?
  }

  class Store {
    const cfg: Config
    var jobs: map<JobId, Job>
    var files: map<FileName, nat>
    var clock: Option<Instant>
    var buckets: map<BucketName, Bucket>
    var paused: set<string>
    var live: map<JobId, string>

    function View(): Disk
      reads this
    {
      Disk(jobs, files, clock, buckets, paused)
    }

    constructor (cfg: Config, disk: Disk)
      ensures this.cfg == cfg && View() == disk && live == map[]
    {
      this.cfg := cfg;
      jobs, files, clock, buckets, paused := disk.jobs, disk.files, disk.clock, disk.buckets, disk.paused;
      live := map[];
    }

    /** Ends a transaction.  An error leaves the caller in doubt: the new state may have been applied. */
    method EndTransaction(d: Disk, commit: Commit) returns (failed: bool)
      requires d.files == files
      modifies this`jobs, this`clock, this`buckets, this`paused
      ensures View() == if commit.NotApplied? then old(View()) else d
      ensures failed <==> !commit.Committed?
    {
      if !commit.NotApplied? {
        jobs, clock, buckets, paused := d.jobs, d.clock, d.buckets, d.paused;
      }
      return !commit.Committed?;
    }

    method ReserveTransaction(up: Upload, id: JobId, wall: Instant, capacity: bool) returns (r: Outcome<Disk>)
      ensures r == ReserveTx(cfg, View(), up, id, wall, capacity)
    {
      hide Reserved, OldDebt, StagedRow;
      var read := ReadClock(clock, wall);
      if read.Err? {
        return Err(read.error);
      }
      var now := read.value;
      if up.generation in paused {
        return Err(Coded(Unauthorized));
      }
      var used := SumReserved(jobs, None);
      var tenantUsed := SumReserved(jobs, Some(up.tenant));
      var j := StagedRow(cfg, up, id, now);
      if |jobs| >= cfg.maxJobs || |RowsOf(jobs, up.tenant)| >= cfg.tenantJobs || used + j.reservedBytes > cfg.maxBytes
         || tenantUsed + j.reservedBytes > cfg.tenantBytes {
        return Err(QuotaExceeded);
      }
      var debt := FindOldDebt(jobs, up.tenant, now);
      if debt || !capacity {
        return Err(QuotaExceeded);
      }
      if id in jobs {
        return Err(StoreUnavailable);
      }
      return Ok(Disk(jobs[id := j], files, Some(now), buckets, paused));
    }

    /** Pauses or resumes submissions of one generation. */
    method SetGenerationAdmission(generation: string, enabled: bool, commit: Commit) returns (ok: bool)
      modifies this`jobs, this`clock, this`buckets, this`paused
      ensures ok == commit.Committed?
      ensures View() == if commit.NotApplied? then old(View())
                        else old(View()).(paused := if enabled then old(paused) - {generation}
                                          else old(paused) + {generation})
    {
      var after := if enabled then paused - {generation} else paused + {generation};
      var failed := EndTransaction(View().(paused := after), commit);
      return !failed;
    }

    /** Admits one upload: a staged row that reserves room for the largest body. */
    method Reserve(up: Upload, id: JobId, wall: Instant, capacity: bool, commit: Commit) returns (ok: bool)
      modifies this`jobs, this`clock, this`buckets, this`paused
      ensures var tx := ReserveTx(cfg, old(View()), up, id, wall, capacity);
              && ok == (tx.Ok? && commit.Committed?)
              && View() == if tx.Ok? && !commit.NotApplied? then tx.value else old(View())
    {
      hide Reserved, OldDebt, StagedRow;
      var tx := ReserveTransaction(up, id, wall, capacity);
      if tx.Err? {
        return false;
      }
      var failed := EndTransaction(tx.value, commit);
      return !failed;
    }

    /** Publishes a staged upload whose payload is in place, in one transaction, or finds a row that makes it
        unnecessary. */
    method PublishUpload(id: JobId, size: nat, digest: string, verdict: string, wall: Instant, commit: Commit)
      returns (r: Outcome<Option<JobId>>)
      modifies this`jobs, this`clock, this`buckets, this`paused
      ensures var tx := PublishTx(old(View()), id, size, digest, verdict, wall);
              && (tx.Err? ==> r == Err(tx.error) && View() == old(View()))
              && (tx == Ok(None) ==>
                    r.Ok? && r.value.Some? && View() == old(View()) && Reuses(jobs, id, digest, r.value.value))
              && (tx.Ok? && tx.value.Some? ==>
                    && (if commit.Committed? then r == Ok(None) else r.Err?)
                    && View() == if commit.NotApplied? then old(View()) else tx.value.value)
    {
      hide HasReusable, Reusable, Publish;
      if id !in jobs {
        return Err(StateConflict);
      }
      var read := ReadClock(clock, wall);
      if read.Err? {
        return Err(read.error);
      }
      var now := read.value;
      if now >= jobs[id].ingressDeadline {
        return Err(Coded(Deadline));
      }
      var reused := FindReusable(jobs, jobs[id].identity.(digest := digest), now);
      if reused.Some? {
        ReusableReuses(jobs, id, digest, reused.value, now);
        return Ok(reused);
      }
      if jobs[id].state != Staging {
        return Err(StateConflict);
      }
      var failed := EndTransaction(Disk(jobs[id := Publish(jobs[id], digest, size, verdict)], files, Some(now),
                                        buckets, paused), commit);
      if failed {
        return Err(StoreUnavailable);
      }
      return Ok(None);
    }

    /** One token from each bucket of a submission, on a working copy that an error discards. */
    method TakeTokens(tenant: string, now: Instant) returns (r: Outcome<map<BucketName, Bucket>>)
      ensures r == TakeSubmission(cfg, buckets, tenant, now)
    {
      hide Take;
      var names := [RequestBucket, SubmitBucket, TenantBucket(tenant)];
      var rates := [cfg.requestsPerMinute, cfg.submitPerMinute, cfg.tenantSubmitPerMinute];
      var working := buckets;
      var i := 0;
      while i < 3
        invariant 0 <= i <= 3
        invariant i == 0 ==> working == buckets
        invariant i == 1 ==> TakeFrom(buckets, names[0], rates[0], now) == Ok(working)
        invariant i == 2 ==>
          var first := TakeFrom(buckets, names[0], rates[0], now);
          first.Ok? && TakeFrom(first.value, names[1], rates[1], now) == Ok(working)
        invariant i == 3 ==> TakeSubmission(cfg, buckets, tenant, now) == Ok(working)
      {
        var taken := TakeFrom(working, names[i], rates[i], now);
        if taken.Err? {
          return Err(taken.error);
        }
        working := taken.value;
        i := i + 1;
      }
      return Ok(working);
    }

    method BeginTransaction(tenant: string, id: JobId, version: int, wall: Instant) returns (r: Outcome<Disk>)
      ensures r == BeginTx(cfg, View(), live, tenant, id, version, wall)
    {
      hide TakeSubmission;
      if id !in jobs || jobs[id].identity.tenant != tenant {
        return Err(Coded(NotFound));
      }
      var j := jobs[id];
      if j.state != Queued || j.version != version {
        return Err(StateConflict);
      }
      if j.identity.generation in paused {
        return Err(Coded(Unauthorized));
      }
      var read := ReadClock(clock, wall);
      if read.Err? {
        return Err(read.error);
      }
      var now := read.value;
      if now >= j.queueDeadline || now >= j.analysisDeadline {
        return Err(Coded(Deadline));
      }
      if BeforeTime(now, j.nextAttempt) {
        return Err(Coded(Throttled));
      }
      var all, own := CountLive(live, tenant);
      if all >= cfg.submissionConcurrency || own >= cfg.tenantSubmissionConcurrency {
        return Err(Coded(Throttled));
      }
      var taken := TakeTokens(tenant, now);
      if taken.Err? {
        return Err(taken.error);
      }
      j := j.(state := Submitting, version := j.version + 1);
      j := j.(submissionVersion := j.version, submissionRecorded := false, attempts := j.attempts + 1,
              attemptAt := Some(now), nextAttempt := None);
      return Ok(Disk(jobs[id := j], files, Some(now), taken.value, paused));
    }

    /** Commits ownership of one attempt before anything may be sent.  Only `Ok` permits sending, and
        `Ok` means that the attempt is durable. */
    method BeginSubmission(tenant: string, id: JobId, version: int, wall: Instant, commit: Commit, checkpointed: bool)
      returns (r: Outcome<Job>)
      modifies this
      ensures files == old(files)
      ensures var tx := BeginTx(cfg, old(View()), old(live), tenant, id, version, wall);
              && View() == (if tx.Ok? && !commit.NotApplied? then tx.value else old(View()))
              && live == (if tx.Ok? && commit.Committed? then old(live)[id := tenant] else old(live))
              && (r.Ok? <==> tx.Ok? && commit.Committed? && checkpointed)
              && (r.Ok? ==> id in tx.value.jobs && r.value == tx.value.jobs[id])
    {
      hide BeginTx;
      var tx := BeginTransaction(tenant, id, version, wall);
      if tx.Err? {
        return Err(tx.error);
      }
      BegunRow(cfg, View(), live, tenant, id, version, wall);
      var failed := EndTransaction(tx.value, commit);
      if failed {
        return Err(StoreUnavailable);
      }
      live := live[id := tenant];
      if !checkpointed {
        return Err(StoreUnavailable);
      }
      return Ok(jobs[id]);
    }

    /** What the attempt's outcome makes of the row `j`, whose attempt is already marked as recorded;
        only a retry reads the clock. */
    method ApplySubmissionOutcome(j: Job, previous: Job, s: Submission, outcome: Code, invalid: bool, backoff: Instant,
                                  wall: Instant)
      returns (r: Outcome<Job>, stamp: Option<Instant>)
      ensures Terminal(previous.state) ==> r == Ok(LateOutcome(j, previous, s, outcome, invalid)) && stamp == clock
      ensures !Terminal(previous.state) ==>
                if !MustRetry(s, outcome, invalid)
                then r == Ok(InTimeOutcome(j, s, outcome, invalid, backoff, wall, 0)) && stamp == clock
                else match ReadClock(clock, wall)
                     case Err(e) => r == Err(e)
                     case Ok(now) =>
                       r == Ok(InTimeOutcome(j, s, outcome, invalid, backoff, wall, now)) && stamp == Some(now)
    {
      hide LateOutcome, ClampBackoff, ReadClock;
      stamp := clock;
      if Terminal(previous.state) {
        return Ok(LateOutcome(j, previous, s, outcome, invalid)), stamp;
      }
      if |s.tasks| > 1 {
        var at := wall;
        if BeforeTime(wall, j.attemptAt) {
          at := j.attemptAt.value;
        }
        return Ok(j.(state := Failed, unknownDebt := true, reason := Protocol, cleanup := RemoteDeleteUnknown,
                     terminalAt := Some(at))), stamp;
      }
      if CleanSuccess(j, s, outcome, invalid) {
        return Ok(j.(state := RemotePending, cleanup := RemoteDeletePending)), stamp;
      }
      if MustRetry(s, outcome, invalid) {
        var read := ReadClock(clock, wall);
        if read.Err? {
          return Err(read.error), stamp;
        }
        stamp := Some(read.value);
        return Ok(j.(state := Queued, cleanup := NotSubmitted, dedupBarrier := false,
                     nextAttempt := Some(read.value + ClampBackoff(backoff)))), stamp;
      }
      return Ok(j.(state := SubmitUncertain, unknownDebt := true, cleanup := RemoteDeleteUnknown,
                   reason := if j.reason == NoCode then Protocol else j.reason)), stamp;
    }

    method RecordTransaction(id: JobId, version: int, s: Submission, outcome: Code, backoff: Instant, wall: Instant)
      returns (r: Outcome<Disk>)
      ensures r == RecordTx(View(), id, version, s, outcome, backoff, wall)
    {
      hide Harvest, HarvestIncomplete, InTimeOutcome, LateOutcome, ReadClock, MustRetry, RecordGuard;
      if id !in jobs {
        return Err(Coded(NotFound));
      }
      var previous := jobs[id];
      if !RecordGuard(previous, version) {
        return Err(StateConflict);
      }
      var j, invalid := HarvestTasks(previous, s, outcome);
      var row, stamp := ApplySubmissionOutcome(j, previous, s, outcome, invalid, backoff, wall);
      if row.Err? {
        return Err(row.error);
      }
      return Ok(Disk(jobs[id := row.value], files, stamp, buckets, paused));
    }

    method RemovePayload(id: JobId, unlinked: bool) returns (ok: bool)
      modifies this`files
      ensures ok == unlinked
      ensures files == if unlinked then old(files) - {FileName(id, Blob)} else old(files)
    {
      if unlinked {
        files := files - {FileName(id, Blob)};
      }
      return unlinked;
    }

    /** Records an attempt's outcome.  The attempt stops being live only when the commit reports success;
        a failed unlink or checkpoint reports an error although the outcome is durable. */
    method RecordOutcome(id: JobId, version: int, s: Submission, outcome: Code, backoff: Instant, wall: Instant,
                         commit: Commit, unlinked: bool, checkpointed: bool)
      returns (ok: bool)
      modifies this
      ensures Effect(View(), live, ok) ==
              RecordEffect(old(View()), old(live), id, RecordTx(old(View()), id, version, s, outcome, backoff, wall),
                           commit, unlinked, checkpointed)
    {
      hide RecordTx;
      var tx := RecordTransaction(id, version, s, outcome, backoff, wall);
      if tx.Err? {
        return false;
      }
      RecordedRow(View(), id, version, s, outcome, backoff, wall);
      var failed := EndTransaction(tx.value, commit);
      if failed {
        return false;
      }
      live := live - {id};
      if jobs[id].state == RemotePending || Terminal(jobs[id].state) {
        var removed := RemovePayload(id, unlinked);
        if !removed {
          return false;
        }
      }
      return checkpointed;
    }

    /** Cancels a job for good; the payload goes only after the cancellation is durable. */
    method CancelJob(tenant: string, id: JobId, wall: Instant, commit: Commit, unlinked: bool, checkpointed: bool)
      returns (ok: bool)
      modifies this
      ensures live == old(live)
      ensures var found := Lookup(old(View()), tenant, id);
              var tx := RowTx(old(View()), id, CancelRow, wall);
              && (found.Err? || tx.Err? || commit.NotApplied? ==> !ok && View() == old(View()))
              && (found.Ok? && tx.Ok? && commit.AppliedThenFailed? ==> !ok && View() == tx.value)
              && (found.Ok? && tx.Ok? && commit.Committed? ==>
                    && var staged := found.value.state == Staging;
                       && View() == (if !staged && unlinked
                                     then tx.value.(files := tx.value.files - {FileName(id, Blob)}) else tx.value)
                       && ok == ((!staged ==> unlinked) && checkpointed))
    {
      if id !in jobs || jobs[id].identity.tenant != tenant {
        return false;
      }
      var d := View();
      var j := jobs[id];
      if j.state != Staging && j.state != Cancelled {
        var read := ReadClock(clock, wall);
        if read.Err? && clock.None? {
          return false;
        }
        var now := if read.Ok? then read.value else clock.value;
        j := Terminate(j, Cancelled, NoCode, now);
        j := j.(version := j.version + 1);
        d := Disk(jobs[id := j], files, Some(now), buckets, paused);
      }
      var failed := EndTransaction(d, commit);
      if failed {
        return false;
      }
      if j.state != Staging {
        var removed := RemovePayload(id, unlinked);
        if !removed {
          return false;
        }
      }
      return checkpointed;
    }

    /** Whether a deletion response names a task of the row, and which tasks are acknowledged after it. */
    method Acknowledge(j: Job, task: TaskRef, acknowledged: bool) returns (owned: bool, acks: seq<int>)
      ensures owned <==> task.id in j.taskIds
      ensures acks == if acknowledged && task.id !in j.deleteAcknowledgedIds
                      then j.deleteAcknowledgedIds + [task.id] else j.deleteAcknowledgedIds
    {
      owned := false;
      for i := 0 to |j.taskIds|
        invariant owned <==> task.id in j.taskIds[..i]
      {
        if j.taskIds[i] == task.id {
          owned := true;
        }
      }
      acks := j.deleteAcknowledgedIds;
      if acknowledged {
        var found := false;
        for i := 0 to |acks|
          invariant found <==> task.id in acks[..i]
        {
          if acks[i] == task.id {
            found := true;
          }
        }
        if !found {
          acks := acks + [task.id];
        }
      }
    }

    /** Records one deletion response.  It never confirms a purge and never clears the barrier. */
    method RecordDeletionResponse(tenant: string, id: JobId, version: int, task: TaskRef, acknowledged: bool,
                                  commit: Commit, checkpointed: bool)
      returns (ok: bool)
      modifies this`jobs, this`clock, this`buckets, this`paused
      ensures var found := Lookup(old(View()), tenant, id);
              var tx := RowTx(old(View()), id, DeletionRow(version, task, acknowledged), 0);
              && ok == (found.Ok? && tx.Ok? && commit.Committed? && checkpointed)
              && View() == if found.Ok? && tx.Ok? && !commit.NotApplied? then tx.value else old(View())
    {
      if id !in jobs || jobs[id].identity.tenant != tenant {
        return false;
      }
      var j := jobs[id];
      var owned, acks := Acknowledge(j, task, acknowledged);
      if j.version != version || task.generation != j.identity.generation || !Terminal(j.state) || !owned {
        return false;
      }
      var cleanup := RemoteDeleteUnknown;
      if acknowledged && !j.unknownDebt {
        cleanup := RemoteDeletePending;
        if |acks| == |j.taskIds| {
          cleanup := DeleteAcknowledgedUnverified;
        }
      }
      j := j.(deleteAcknowledgedIds := acks, cleanup := cleanup, dedupBarrier := true, version := j.version + 1);
      var failed := EndTransaction(View().(jobs := jobs[id := j]), commit);
      return !failed && checkpointed;
    }

    /** The transition shared by every poll and report; `op` says what changes once the guard has passed. */
    method TransitionReport(tenant: string, id: JobId, op: RowOp, wall: Instant, commit: Commit, checkpointed: bool)
      returns (ok: bool)
      requires op.StatusRow? || op.CompleteRow? || op.ReportErrorRow?
      modifies this`jobs, this`clock, this`buckets, this`paused
      ensures var found := Lookup(old(View()), tenant, id);
              var tx := RowTx(old(View()), id, op, wall);
              && ok == (found.Ok? && tx.Ok? && commit.Committed? && checkpointed)
              && View() == if found.Ok? && tx.Ok? && !commit.NotApplied? then tx.value else old(View())
    {
      hide SingleOwnedTask, RowOutcome, ChangeReport, ReadClock, Stamped;
      if id !in jobs || jobs[id].identity.tenant != tenant {
        return false;
      }
      var j := jobs[id];
      var expected := if op.StatusRow? then RemotePending else Fetching;
      ghost var at := RowClock(op, clock, wall);
      ReportOutcome(j, op, if at.Ok? then at.value else 0);
      if j.version != op.version || j.state != expected || j.suppressed || !SingleOwnedTask(j, op.task) {
        return false;
      }
      var read := ReadClock(clock, wall);
      if read.Err? {
        return false;
      }
      ReportOutcome(j, op, read.value);
      if read.value >= j.analysisDeadline {
        return false;
      }
      var changed := ChangeReport(j, op, read.value);
      if changed.None? {
        return false;
      }
      j := Stamped(changed.value);
      var failed := EndTransaction(View().(jobs := jobs[id := j], clock := Some(read.value)), commit);
      return !failed && checkpointed;
    }

    /* -------------------------------------------------------------- maintenance */

    /** Deadline pass over one batch, inside its transaction. */
    method ExpireBatch(batch: seq<JobId>, now: Instant) returns (rows: map<JobId, Job>)
      ensures rows == ExpiredRows(jobs, batch, now)
    {
      rows := jobs;
      var i := 0;
      while i < |batch|
        invariant 0 <= i <= |batch|
        invariant rows == ExpiredRows(jobs, batch[..i], now)
      {
        var id := batch[i];
        ExpireOneMore(jobs, batch, now, i);
        if id in rows && DeadlinePassed(rows[id], now) {
          var j := Terminate(rows[id], Expired, Deadline, now);
          rows := rows[id := j.(version := j.version + 1)];
        }
        i := i + 1;
      }
      assert batch[..i] == batch;
    }

    /** Cleanup pass over one batch: payloads go at once, row changes wait for the commit.  `fails(k)`
        tells whether the `k`-th unlink fails; the pass stops there. */
    method CleanBatch(batch: seq<JobId>, now: Instant, fails: nat -> bool) returns (rows: map<JobId, Job>, done: nat)
      modifies this`files
      ensures done <= |batch| && rows == CleanedRows(jobs, batch[..done], now)
      ensures files == old(files) - SpentPayloads(jobs, batch[..done])
      ensures done < |batch| ==> fails(done)
    {
      rows := jobs;
      done := 0;
      while done < |batch|
        invariant 0 <= done <= |batch|
        invariant rows == CleanedRows(jobs, batch[..done], now)
        invariant files == old(files) - SpentPayloads(jobs, batch[..done])
      {
        var id := batch[done];
        CleanOneMore(jobs, batch, now, done);
        if id in rows && NeedsNoPayload(rows[id].state) {
          var removed := RemovePayload(id, !fails(done));
          if !removed {
            return;
          }
          if Terminal(rows[id].state) && RetentionElapsed(rows[id], now) {
            if Forgettable(rows[id]) {
              rows := rows - {id};
            } else {
              rows := rows[id := Minimize(rows[id])];
            }
          }
        }
        done := done + 1;
      }
    }

    /** One maintenance pass.  Whatever its commits and unlinks do, the store has made a run of protocol
        steps; a pass without errors expires the overdue rows and retires the finished ones. */
    method Maintain(deadlines: seq<JobId>, cleanups: seq<JobId>, wall: Instant, first: Commit, second: Commit,
                    fails: nat -> bool, checkpointed: bool, ghost s: System)
      returns (ok: bool, ghost trail: seq<Step>)
      requires s.disk == View() && s.mem.running
      modifies this`jobs, this`files, this`clock, this`buckets, this`paused
      ensures Replays(cfg, s, trail, View())
      ensures ok ==> ReadClock(old(clock), wall).Ok?
      ensures ok ==> var now := ReadClock(old(clock), wall).value;
                     var rows := ExpiredRows(old(jobs), deadlines, now);
                     View() == old(View()).(clock := Some(now), jobs := CleanedRows(rows, cleanups, now),
                                            files := old(files) - SpentPayloads(rows, cleanups))
      ensures !ok ==> ReadClock(old(clock), wall).Err? || !first.Committed? || !second.Committed? || !checkpointed
                      || exists k :: fails(k)
    {
      hide Apply, ReadClock, ExpiredRows, CleanedRows, SpentPayloads;
      ok, trail := false, [];
      var read := ReadClock(clock, wall);
      if read.Err? {
        return;
      }
      var now := read.value;
      var expired := ExpireBatch(deadlines, now);
      var failed := EndTransaction(View().(jobs := expired, clock := Some(now)), first);
      if first.NotApplied? {
        return;
      }
      trail := [Tick(wall)] + ExpireSteps(deadlines, now);
      DeadlinePassReplays(cfg, s, deadlines, wall, now);
      if failed {
        return;
      }
      ghost var t := s.(disk := View());
      ghost var before := trail;
      var cleaned, done := CleanBatch(cleanups, now, fails);
      trail := before + UnlinkSteps(cleanups[..done]);
      UnlinkPassRuns(cfg, t, cleanups[..done]);
      RunAppend(cfg, s, before, UnlinkSteps(cleanups[..done]));
      if done < |cleanups| {
        return;
      }
      failed := EndTransaction(View().(jobs := cleaned), second);
      if !second.NotApplied? {
        assert cleanups[..done] == cleanups;
        trail := before + CleanSteps(cleanups, now);
        CleanPassRuns(cfg, t, cleanups, now);
        RunAppend(cfg, s, before, CleanSteps(cleanups, now));
      }
      ok := !failed && checkpointed;
    }

    /* -------------------------------------------------------------- startup */

    /** Removes an unpublished upload, at startup or behind a writer that has stopped: its files first, its row
        last.  `fails` tells which filesystem calls fail, and `commit` how the transaction ends. */
    method CleanupStaging(id: JobId, fails: nat -> bool, commit: Commit, calls: nat, ghost s: System,
                          ghost before: seq<Step>)
      returns (ok: bool, made: nat, ghost trail: seq<Step>)
      requires id in jobs && jobs[id].state == Staging
      requires MayClean(s.mem, id) && Replays(cfg, s, before, View())
      modifies this`jobs, this`files
      ensures Run(cfg, s, trail) ==
              s.(disk := View(), mem := if id in jobs then s.mem else s.mem.(writers := s.mem.writers - {id}))
      ensures RecoveredDisk(View()) == RecoveredDisk(old(View()))
      ensures jobs == old(jobs) || jobs == old(jobs) - {id}
      ensures forall f :: f in files ==> f in old(files) && files[f] == old(files)[f]
      ensures forall f :: f in old(files) && f !in files ==> f.id == id
      ensures id !in jobs ==> FileName(id, Tmp) !in files && FileName(id, Blob) !in files
      ensures ok ==> id !in jobs
      ensures !ok ==> !commit.Committed? || exists k :: fails(k)
    {
      hide RecoveredDisk, KeptByRecovery, Run, Inv;
      trail, made, ok := before, calls, false;
      var kinds := [Tmp, Blob];
      for i := 0 to 2
        invariant jobs == old(jobs) && Replays(cfg, s, trail, View())
        invariant RecoveredDisk(View()) == RecoveredDisk(old(View()))
        invariant forall k :: 0 <= k < i ==> FileName(id, kinds[k]) !in files
        invariant forall f :: f in files ==> f in old(files) && files[f] == old(files)[f]
        invariant forall f :: f in old(files) && f !in files ==> f.id == id
      {
        if fails(made) {
          return;
        }
        made := made + 1;
        var file := FileName(id, kinds[i]);
        ghost var d := View();
        StagedFilesGo(d, file);
        UnlinkKeepsOutcome(d, file);
        files := files - {file};
        UnlinkStagedReplays(cfg, s, trail, d, file);
        trail := trail + [UnlinkStaged(file)];
      }
      if fails(made) {
        return;
      }
      made := made + 1;
      ghost var d := View();
      DropKeepsOutcome(d, id);
      assert FileName(id, kinds[0]) !in files && FileName(id, kinds[1]) !in files;
      if commit.NotApplied? {
        return;
      }
      DropRuns(cfg, s, trail, d, id);
      jobs := jobs - {id};
      trail := trail + [DropStaged(id)];
      ok := commit.Committed?;
    }

    /** The end of an upload whose payload is in place: it is published; or, when that fails or an existing row
        makes it unnecessary, it is removed again.  Success is reported only behind a checkpoint. */
    method FinishUpload(id: JobId, size: nat, digest: string, verdict: string, wall: Instant, commit: Commit,
                        fails: nat -> bool, cleanup: Commit, checkpointed: bool, ghost s: System)
      returns (r: Outcome<Option<JobId>>, ghost trail: seq<Step>)
      requires s.disk == View() && s.mem.running && id in s.mem.writers && s.mem.writers[id] == Renamed(size, digest)
      modifies this`jobs, this`files, this`clock, this`buckets, this`paused
      ensures Run(cfg, s, trail).disk == View() && Run(cfg, s, trail).past == s.past
      ensures Run(cfg, s, trail).mem == s.mem.(writers := Run(cfg, s, trail).mem.writers)
      ensures r == Ok(None) ==>
                var tx := PublishTx(old(View()), id, size, digest, verdict, wall);
                tx.Ok? && tx.value.Some? && View() == tx.value.value && id !in Run(cfg, s, trail).mem.writers
      ensures r.Ok? && r.value.Some? ==>
                && PublishTx(old(View()), id, size, digest, verdict, wall) == Ok(None) && jobs == old(jobs) - {id}
                && Reuses(old(jobs), id, digest, r.value.value)
      ensures r.Ok? ==> checkpointed
      ensures var tx := PublishTx(old(View()), id, size, digest, verdict, wall);
              var dropped := tx.Err? || tx.value.None? || commit.NotApplied?;
              var staged := id in old(jobs) && old(jobs)[id].state == Staging;
              var clean := cleanup.Committed? && forall k :: !fails(k);
              && (dropped && staged && clean ==> jobs == old(jobs) - {id})
              && (r.Err? ==> tx.Err? || !checkpointed || (if dropped then commit.NotApplied? || !staged || !clean
                                                          else !commit.Committed?))
    {
      hide PublishTx, Run, Apply, RecoveredDisk;
      PublishApplies(cfg, s, id, verdict, wall, commit);
      ghost var step := Step.PublishUpload(id, verdict, wall, commit);
      r := PublishUpload(id, size, digest, verdict, wall, commit);
      trail := [step];
      RunStep(cfg, s, step);
      if r.Ok? && r.value.None? {
        if !checkpointed {
          r := Err(StoreUnavailable);
        }
        return;
      }
      if id !in jobs || jobs[id].state != Staging {
        return Err(StoreUnavailable), trail;
      }
      ghost var t, more := Apply(cfg, s, step), [];
      StandStill(cfg, t);
      var ok, made;
      ok, made, more := CleanupStaging(id, fails, cleanup, 0, t, []);
      RunAppend(cfg, s, trail, more);
      trail := trail + more;
      if !ok || (r.Ok? && !checkpointed) {
        r := Err(StoreUnavailable);
      }
    }

    /** First half of startup: every row that a crash interrupted is dealt with. */
    method ReconcileJobs(fails: nat -> bool, commits: nat -> Commit, ghost s: System)
      returns (ok: bool, made: nat, ghost trail: seq<Step>)
      requires s.mem == COLD && s.disk == View()
      modifies this`jobs, this`files
      ensures Replays(cfg, s, trail, View()) && RecoveredDisk(View()) == RecoveredDisk(old(View()))
      ensures !ok ==> Trouble(fails, commits)
      ensures ok ==> forall id :: id in jobs ==> jobs[id].state != Staging && jobs[id].state != Submitting
    {
      hide RecoveredDisk, KeptByRecovery, Run, Inv;
      trail, made, ok := [], 0, true;
      var todo := jobs.Keys;
      assert Replays(cfg, s, trail, View()) by { StandStill(cfg, s); }
      hide Replays;
      while todo != {}
        invariant Replays(cfg, s, trail, View()) && RecoveredDisk(View()) == RecoveredDisk(old(View()))
        invariant jobs.Keys >= todo
        invariant forall id :: id in jobs && id !in todo ==> jobs[id].state != Staging && jobs[id].state != Submitting
        invariant ok
        decreases |todo|
      {
        var id :| id in todo;
        todo := todo - {id};
        ghost var d := View();
        if jobs[id].state == Staging {
          var answer := made;
          ok, made, trail := CleanupStaging(id, fails, commits(answer), made, s, trail);
          if id !in jobs {
            ColdHasNoWriters(cfg, s, trail, View(), id);
          }
          assert Replays(cfg, s, trail, View()) by { IsReplay(cfg, s, trail, View()); }
          if !ok {
            return;
          }
        } else {
          if jobs[id].state == Submitting {
            var commit := commits(made);
            made := made + 1;
            if !commit.NotApplied? {
              UncertainKeepsOutcome(d, id);
              UncertainReplays(cfg, s, trail, d, id);
              jobs := jobs[id := MakeUncertain(jobs[id])];
              trail := trail + [RecoverAttempt(id)];
            }
            if !commit.Committed? {
              ok := false;
              return;
            }
          } else if NeedsNoPayload(jobs[id].state) {
            if fails(made) {
              ok := false;
              return;
            }
            made := made + 1;
            var file := FileName(id, Blob);
            SpentFilesGo(d, id);
            UnlinkKeepsOutcome(d, file);
            StrayReplays(cfg, s, trail, d, file);
            files := files - {file};
            trail := trail + [RecoverUnlink(file)];
          }
        }
      }
    }

    /** Second half of startup: stray files go, and every payload that stays is checked against its row. */
    method ReconcileSpool(fails: nat -> bool, calls: nat, ghost s: System, ghost before: seq<Step>)
      returns (ok: bool, seen: set<JobId>, ghost trail: seq<Step>)
      requires cfg.Valid() && s.mem == COLD && Inv(cfg, s) && Replays(cfg, s, before, View())
      requires forall id :: id in jobs ==> jobs[id].state != Staging && jobs[id].state != Submitting
      modifies this`files
      ensures Replays(cfg, s, trail, View()) && RecoveredDisk(View()) == RecoveredDisk(old(View()))
      ensures !ok ==> exists k :: fails(k)
      ensures ok ==> forall f :: f in files ==> KeptByRecovery(View(), f)
      ensures ok ==> seen == set f | f in files :: f.id
    {
      hide RecoveredDisk, Replays, Run, Inv;
      trail, ok, seen := before, false, {};
      var made := calls;
      var todo := files.Keys;
      var count := 0;
      ghost var all := files.Keys;
      SpoolFits(cfg, s, trail, View());
      while todo != {}
        invariant Replays(cfg, s, trail, View()) && RecoveredDisk(View()) == RecoveredDisk(old(View()))
        invariant todo <= all && count == |all| - |todo|
        invariant todo <= files.Keys <= all
        invariant forall f :: f in files && f !in todo ==> KeptByRecovery(View(), f)
        invariant seen == set f | f in files && f !in todo :: f.id
        decreases |todo|
      {
        var file :| file in todo;
        todo := todo - {file};
        count := count + 1;
        if count > 20000 {
          assert false;
          return;
        }
        if fails(made) {
          return;
        }
        made := made + 1;
        ghost var d := View();
        if KeptByRecovery(View(), file) {
          KeptFilesMatch(cfg, s, trail, d, file);
          if files[file] != jobs[file.id].payloadBytes || jobs[file.id].payloadBytes < 1
             || jobs[file.id].payloadBytes > MAX_ATTACHMENT {
            assert false;
            return;
          }
          seen := seen + {file.id};
        } else {
          NothingInFlight(d, file);
          UnlinkKeepsOutcome(d, file);
          StrayReplays(cfg, s, trail, d, file);
          files := files - {file};
          trail := trail + [RecoverUnlink(file)];
        }
      }
      ok := true;
    }

    /** Startup.  It fails only when the filesystem or the database fails, and then a rerun still ends in
        the same recovered state; when it succeeds, that state is reached and every check has passed. */
    method Recover(fails: nat -> bool, commits: nat -> Commit, ghost s: System)
      returns (ok: bool, ghost trail: seq<Step>)
      requires cfg.Valid() && s.mem == COLD && s.disk == View() && Inv(cfg, s)
      modifies this`jobs, this`files
      ensures Replays(cfg, s, trail, View()) && RecoveredDisk(View()) == RecoveredDisk(old(View()))
      ensures !ok ==> Trouble(fails, commits)
      ensures ok ==> View() == RecoveredDisk(old(View())) && RecoveryAccepts(View())
    {
      hide Inv, Run, Replays, RecoveredDisk;
      RecoveredIsAccepted(cfg, s);
      var made;
      ok, made, trail := ReconcileJobs(fails, commits, s);
      if !ok {
        return;
      }
      var seen;
      ok, seen, trail := ReconcileSpool(fails, made, s, trail);
      if !ok {
        return;
      }
      NothingLeftToRecover(View());
      assert forall id :: id in jobs && (jobs[id].state == Queued || jobs[id].state == SubmitUncertain) ==>
             id in seen by {
        forall id | id in jobs && (jobs[id].state == Queued || jobs[id].state == SubmitUncertain) ensures id in seen {
          assert FileName(id, Blob) in files;
        }
      }
      var todo := jobs.Keys;
      while todo != {}
        invariant ok
        decreases |todo|
      {
        var id :| id in todo;
        todo := todo - {id};
        if id in jobs && (jobs[id].state == Queued || jobs[id].state == SubmitUncertain) && id !in seen {
          assert false;
          return false, trail;
        }
      }
    }
  }
}
