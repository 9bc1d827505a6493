/** What holds in every run of the CAPE protocol, whatever crashes, clocks and ambiguous commits do. */
module CapeSafety {
  import opened Basics
  import opened CapeJob
  import opened TokenBucket
  import opened CapeProtocol
  import opened CapeRows
  import opened CapeInvariant
  import opened CapePreservation

  lemma IngressStepKeepsInv(cfg: Config, s: System, step: Step)
    requires cfg.Valid() && Inv(cfg, s) && s.mem.running
    requires step.Reserve? || step.WriteTmp? || step.RenameTmp? || step.StopWriter? || step.WriterDone? ||
             step.PublishUpload?
    ensures Inv(cfg, ApplyRunning(cfg, s, step))
  {
    hide Inv;
    var t := ApplyRunning(cfg, s, step);
    match step
    case Reserve(_, _, _, _, _) => ReserveKeepsInv(cfg, s, t, step);
    case WriteTmp(id, size) => if t != s { WriteTmpKeepsInv(cfg, s, t, id, size); }
    case RenameTmp(id, digest) => RenameKeepsInv(cfg, s, t, id, digest);
    case StopWriter(id) => FewerWritersKeepInv(cfg, s, t);
    case WriterDone(id) => FewerWritersKeepInv(cfg, s, t);
    case PublishUpload(id, verdict, wall, commit) => PublishKeepsInv(cfg, s, t, id, verdict, wall, commit);
  }

  lemma SchedulerStepKeepsInv(cfg: Config, s: System, step: Step)
    requires cfg.Valid() && Inv(cfg, s) && s.mem.running
    requires step.BeginAttempt? || step.OpenPayload? || step.SendBytes? || step.ReturnRequest? || step.Persist?
    ensures Inv(cfg, ApplyRunning(cfg, s, step))
  {
    hide Inv;
    var t := ApplyRunning(cfg, s, step);
    match step
    case BeginAttempt(_, _, _, _, _, _) => BeginKeepsInv(cfg, s, t, step);
    case OpenPayload(id) => OpenKeepsInv(cfg, s, t, id);
    case SendBytes(id) => SendKeepsInv(cfg, s, t, id);
    case ReturnRequest(id, submission, outcome) => ReturnKeepsInv(cfg, s, t, id, submission, outcome);
    case Persist(k, _, _, _, _) =>
      if k < |s.mem.pending| && s.mem.pending[k].id in s.disk.jobs { PersistKeepsInv(cfg, s, t, step); }
  }

  lemma LifecycleStepKeepsInv(cfg: Config, s: System, step: Step)
    requires cfg.Valid() && Inv(cfg, s) && s.mem.running
    requires step.ReadRemote? || step.SpendRequest? || step.Admit? || step.UpdateRow? || step.Forget? ||
             step.UnlinkPayload? || step.Tick?
    ensures Inv(cfg, ApplyRunning(cfg, s, step))
  {
    hide Inv, RowTx, StepRead, StepSpend, StepForget;
    var t := ApplyRunning(cfg, s, step);
    match step
    case ReadRemote(_, _, _, _, _) => ReadKeepsInv(cfg, s, t, step);
    case SpendRequest(wall) => SpendKeepsInv(cfg, s, t, wall);
    case Admit(generation, enabled) => AdmitKeepsInv(cfg, s, t);
    case Tick(wall) => AdmitKeepsInv(cfg, s, t);
    case UpdateRow(id, op, wall) =>
      if RowTx(s.disk, id, op, wall).Ok? { UpdateRowKeepsInv(cfg, s, t, id, op, wall); }
    case Forget(id, wall) => ForgetKeepsInv(cfg, s, t, id, wall);
    case UnlinkPayload(id) =>
      if id in s.disk.jobs && NeedsNoPayload(s.disk.jobs[id].state) { UnlinkPayloadKeepsInv(cfg, s, t, id); }
  }

  lemma RunningStepKeepsInv(cfg: Config, s: System, step: Step)
    requires cfg.Valid() && Inv(cfg, s) && s.mem.running
    ensures Inv(cfg, ApplyRunning(cfg, s, step))
  {
    hide Inv;
    if step.Reserve? || step.WriteTmp? || step.RenameTmp? || step.StopWriter? || step.WriterDone? ||
      step.PublishUpload? {
      IngressStepKeepsInv(cfg, s, step);
    } else if step.BeginAttempt? || step.OpenPayload? || step.SendBytes? || step.ReturnRequest? || step.Persist? {
      SchedulerStepKeepsInv(cfg, s, step);
    } else if step.ReadRemote? || step.SpendRequest? || step.Admit? || step.UpdateRow? || step.Forget? ||
      step.UnlinkPayload? || step.Tick? {
      LifecycleStepKeepsInv(cfg, s, step);
    }
  }

  lemma StepKeepsInv(cfg: Config, s: System, step: Step)
    requires cfg.Valid() && Inv(cfg, s)
    ensures Inv(cfg, Apply(cfg, s, step))
  {
    hide RowsOk, UniqueOk, SentOk, RequestsOk, PendingOk, BucketsOk, QuotaOk, LiveOk, PayloadsOk, FilesOwned, WritersOk;
    var t := Apply(cfg, s, step);
    if step.Crash? {
      CrashKeepsInv(cfg, s);
    } else if step.RecoverAttempt? {
      RecoverAttemptKeepsInv(cfg, s, t, step.id);
    } else if step.RecoverUnlink? {
      RecoverUnlinkKeepsInv(cfg, s, t, step.file);
    } else if step.UnlinkStaged? {
      if CleaningUp(s, step.file.id) { UnlinkStagedKeepsInv(cfg, s, t, step.file); }
    } else if step.DropStaged? {
      if t != s { DropStagedKeepsInv(cfg, s, t, step.id); }
    } else if !step.FinishRecovery? && s.mem.running {
      RunningStepKeepsInv(cfg, s, step);
    }
  }

  lemma EmptyIsFine(cfg: Config)
    ensures Inv(cfg, EMPTY)
  {
    forall name ensures BucketOk(cfg, EMPTY.disk.buckets, EMPTY.past.grants, name) {
    }
    forall tenant ensures |Owned(COLD.live, tenant)| <= cfg.tenantSubmissionConcurrency {
      assert Owned(COLD.live, tenant) == {};
    }
    forall tenant ensures Reserved(EMPTY.disk.jobs, tenant) == 0 {
      assert Shares(EMPTY.disk.jobs, tenant) == map[];
    }
  }

  lemma {:induction false} RunKeepsInv(cfg: Config, s: System, steps: seq<Step>)
    requires cfg.Valid() && Inv(cfg, s)
    ensures Inv(cfg, Run(cfg, s, steps))
    decreases |steps|
  {
    hide Inv, Apply;
    if steps != [] {
      StepKeepsInv(cfg, s, steps[0]);
      RunKeepsInv(cfg, Apply(cfg, s, steps[0]), steps[1..]);
    }
  }

  lemma {:induction false} RunThen(cfg: Config, s: System, steps: seq<Step>, last: Step)
    ensures Run(cfg, s, steps + [last]) == Apply(cfg, Run(cfg, s, steps), last)
    decreases |steps|
  {
    if steps != [] {
      RunThen(cfg, Apply(cfg, s, steps[0]), steps[1..], last);
      assert (steps + [last])[1..] == steps[1..] + [last];
    }
  }

  lemma {:induction false} RunAppend(cfg: Config, s: System, steps: seq<Step>, more: seq<Step>)
    ensures Run(cfg, s, steps + more) == Run(cfg, Run(cfg, s, steps), more)
    decreases |steps|
  {
    if steps == [] {
      assert steps + more == more;
    } else {
      RunAppend(cfg, Apply(cfg, s, steps[0]), steps[1..], more);
      assert (steps + more)[1..] == steps[1..] + more;
    }
  }

  /** At most one attempt of at most one row per identity ever sends bytes. */
  lemma {:induction false} AtMostOneSend(cfg: Config, steps: seq<Step>, a: Attempt, b: Attempt)
    requires cfg.Valid()
    requires a in Run(cfg, EMPTY, steps).past.sent && b in Run(cfg, EMPTY, steps).past.sent
    requires a.identity == b.identity
    ensures a == b
  {
    EmptyIsFine(cfg);
    RunKeepsInv(cfg, EMPTY, steps);
    var s := Run(cfg, EMPTY, steps);
    assert Competing(s.disk.jobs[a.id], s.disk.jobs[b.id]);
  }

  lemma {:induction false} ReachableIsFine(cfg: Config, steps: seq<Step>)
    requires cfg.Valid()
    ensures Inv(cfg, Run(cfg, EMPTY, steps))
  {
    EmptyIsFine(cfg);
    RunKeepsInv(cfg, EMPTY, steps);
  }

  /** At every point of every run, crash points included, a row that may still be submitted or
      inspected has its payload on disk, with exactly the recorded length. */
  lemma {:induction false} PayloadsSurvive(cfg: Config, steps: seq<Step>, id: JobId)
    requires cfg.Valid() && id in Run(cfg, EMPTY, steps).disk.jobs
    requires Run(cfg, EMPTY, steps).disk.jobs[id].state in {Queued, Submitting, SubmitUncertain}
    ensures var d := Run(cfg, EMPTY, steps).disk;
            && FileName(id, Blob) in d.files && d.files[FileName(id, Blob)] == d.jobs[id].payloadBytes
            && 1 <= d.jobs[id].payloadBytes <= MAX_ATTACHMENT
  {
    ReachableIsFine(cfg, steps);
    assert NeedsPayload(Run(cfg, EMPTY, steps).disk.jobs[id]);
  }

  /** No window of store time grants more than its allowance from any bucket. */
  lemma {:induction false} RatesHold(cfg: Config, steps: seq<Step>, name: BucketName, i: nat, k: nat)
    requires cfg.Valid() && i <= k < |Grants(Run(cfg, EMPTY, steps).past.grants, name)|
    ensures var g := Grants(Run(cfg, EMPTY, steps).past.grants, name);
            (k - i + 1) as real <= Allowance(Rate(cfg, name), g[k] - g[i])
  {
    hide Allowance, Run, Accounts;
    ReachableIsFine(cfg, steps);
    var s := Run(cfg, EMPTY, steps);
    assert BucketOk(cfg, s.disk.buckets, s.past.grants, name);
  }

  /** One more grant from the bucket would overrun some window that ends now. */
  ghost predicate Overruns(cfg: Config, grants: map<BucketName, seq<Instant>>, name: BucketName, now: Instant) {
    WouldOverrun(Grants(grants, name), Rate(cfg, name), now)
  }

  /** The bucket has granted a token after `now`. */
  predicate GrantedAfter(grants: map<BucketName, seq<Instant>>, name: BucketName, now: Instant) {
    var g := Grants(grants, name);
    g != [] && now < g[|g| - 1]
  }

  /** In every run a bucket refuses a token only when granting it would break the bound, and then always. */
  lemma {:induction false} RefusalsAreExact(cfg: Config, steps: seq<Step>, name: BucketName, now: Instant)
    requires cfg.Valid()
    ensures var s := Run(cfg, EMPTY, steps);
            var taken := TakeFrom(s.disk.buckets, name, Rate(cfg, name), now);
            var behind := GrantedAfter(s.past.grants, name, now);
            && (taken.Ok? <==> !behind && !Overruns(cfg, s.past.grants, name, now))
            && (taken == Err(Coded(Throttled)) <==> !behind && Overruns(cfg, s.past.grants, name, now))
            && (taken == Err(ClockRollback) <==> behind)
  {
    hide Run, Accounts, WouldOverrun, Take, WithinRate;
    ReachableIsFine(cfg, steps);
    var s := Run(cfg, EMPTY, steps);
    assert BucketOk(cfg, s.disk.buckets, s.past.grants, name);
    RefusedExactly(Row(s.disk.buckets, name), Grants(s.past.grants, name), Rate(cfg, name), now);
  }

  /** A submission gets its three tokens exactly when none of its three buckets would overrun. */
  lemma {:induction false} SubmissionsAreExact(cfg: Config, steps: seq<Step>, tenant: string, now: Instant)
    requires cfg.Valid()
    ensures var s := Run(cfg, EMPTY, steps);
            TakeSubmission(cfg, s.disk.buckets, tenant, now).Ok? <==>
            forall name :: name in {RequestBucket, SubmitBucket, TenantBucket(tenant)} ==>
              !GrantedAfter(s.past.grants, name, now) && !Overruns(cfg, s.past.grants, name, now)
  {
    hide Run, Take, Overruns, GrantedAfter;
    var names := [RequestBucket, SubmitBucket, TenantBucket(tenant)];
    forall i | 0 <= i < |names|
      ensures var s := Run(cfg, EMPTY, steps);
              TakeFrom(s.disk.buckets, names[i], Rate(cfg, names[i]), now).Ok? <==>
              !GrantedAfter(s.past.grants, names[i], now) && !Overruns(cfg, s.past.grants, names[i], now)
    {
      RefusalsAreExact(cfg, steps, names[i], now);
    }
    assert names[0] == RequestBucket && names[1] == SubmitBucket && names[2] == TenantBucket(tenant);
  }

  /** Nothing stands in the way of an attempt of the job at instant `now`. */
  ghost predicate MayBegin(cfg: Config, s: System, tenant: string, id: JobId, version: int, now: Instant) {
    && id in s.disk.jobs
    && var j := s.disk.jobs[id];
    && j.identity.tenant == tenant && j.state == Queued && j.version == version
    && j.identity.generation !in s.disk.paused
    && now < j.queueDeadline && now < j.analysisDeadline && (j.nextAttempt.Some? ==> j.nextAttempt.value <= now)
    && |s.mem.live| < cfg.submissionConcurrency
    && |set k | k in s.mem.live && s.mem.live[k] == tenant| < cfg.tenantSubmissionConcurrency
    && forall name :: name in {RequestBucket, SubmitBucket, TenantBucket(tenant)} ==>
         !GrantedAfter(s.past.grants, name, now) && !Overruns(cfg, s.past.grants, name, now)
  }

  /** In every run an attempt begins exactly when nothing stands in its way, by the history of grants. */
  lemma {:induction false} BeginsExactly(cfg: Config, steps: seq<Step>, tenant: string, id: JobId, version: int,
                                         wall: Instant)
    requires cfg.Valid()
    ensures var s := Run(cfg, EMPTY, steps);
            BeginTx(cfg, s.disk, s.mem.live, tenant, id, version, wall).Ok? <==>
            match ReadClock(s.disk.clock, wall) case Err(_) => false
              case Ok(now) => MayBegin(cfg, s, tenant, id, version, now)
  {
    hide Run, TakeSubmission, Overruns, GrantedAfter, Begin;
    var s := Run(cfg, EMPTY, steps);
    if ReadClock(s.disk.clock, wall).Ok? {
      SubmissionsAreExact(cfg, steps, tenant, ReadClock(s.disk.clock, wall).value);
    }
  }

  /** Submissions in flight never exceed the global or any tenant's concurrency limit. */
  lemma {:induction false} ConcurrencyHolds(cfg: Config, steps: seq<Step>, tenant: string)
    requires cfg.Valid()
    ensures var s := Run(cfg, EMPTY, steps);
            && |s.mem.requests| <= cfg.submissionConcurrency
            && |set id | id in s.mem.requests && id in s.disk.jobs && s.disk.jobs[id].identity.tenant == tenant|
               <= cfg.tenantSubmissionConcurrency
  {
    ReachableIsFine(cfg, steps);
    var s := Run(cfg, EMPTY, steps);
    forall id | id in s.mem.requests ensures id in s.mem.live && s.mem.live[id] == s.disk.jobs[id].identity.tenant {
      assert RequestOk(s.disk.jobs, s.mem.live, s.past.sent, id, s.mem.requests[id]);
    }
    SubsetIsSmaller(s.mem.requests.Keys, s.mem.live.Keys);
    var own := set id | id in s.mem.requests && id in s.disk.jobs && s.disk.jobs[id].identity.tenant == tenant;
    SubsetIsSmaller(own, Owned(s.mem.live, tenant));
  }

  /** Neither rows nor reserved bytes ever exceed their quotas, for the store or for a tenant. */
  lemma {:induction false} QuotasHold(cfg: Config, steps: seq<Step>, tenant: string)
    requires cfg.Valid()
    ensures var d := Run(cfg, EMPTY, steps).disk;
            && |d.jobs| <= cfg.maxJobs && |RowsOf(d.jobs, tenant)| <= cfg.tenantJobs
            && Reserved(d.jobs, None) <= cfg.maxBytes && Reserved(d.jobs, Some(tenant)) <= cfg.tenantBytes
  {
    ReachableIsFine(cfg, steps);
  }

  /* ---------------------------------------------------------------- recovery */

  lemma SpoolIsSmall(cfg: Config, s: System)
    requires cfg.Valid() && Inv(cfg, s)
    ensures |s.disk.jobs| <= 10000 && |s.disk.files| <= 20000
  {
    var tmps := set id | id in s.disk.jobs :: FileName(id, Tmp);
    var blobs := set id | id in s.disk.jobs :: FileName(id, Blob);
    NamesAreAsMany(s.disk.jobs.Keys, Tmp);
    NamesAreAsMany(s.disk.jobs.Keys, Blob);
    forall f | f in s.disk.files ensures f in tmps + blobs {
      assert f == FileName(f.id, if f.kind == Tmp then Tmp else Blob);
    }
    SubsetIsSmaller(s.disk.files.Keys, tmps + blobs);
  }

  lemma {:induction false} NamesAreAsMany(ids: set<JobId>, kind: FileKind)
    ensures |set id | id in ids :: FileName(id, kind)| == |ids|
  {
    var names := set id | id in ids :: FileName(id, kind);
    if ids != {} {
      var id :| id in ids;
      NamesAreAsMany(ids - {id}, kind);
      assert names == (set k | k in ids - {id} :: FileName(k, kind)) + {FileName(id, kind)};
    } else {
      assert names == {};
    }
  }

  /** Startup never fails on the spool: once the interrupted rows and stray files are dealt with, every
      check that recovery makes succeeds. */
  lemma RecoveryNeverStuck(cfg: Config, s: System)
    requires cfg.Valid() && Inv(cfg, s)
    requires forall id :: id in s.disk.jobs ==> s.disk.jobs[id].state != Staging && s.disk.jobs[id].state != Submitting
    requires forall f :: f in s.disk.files ==> KeptByRecovery(s.disk, f)
    ensures RecoveryAccepts(s.disk)
  {
    SpoolIsSmall(cfg, s);
    forall f | f in s.disk.files
      ensures s.disk.files[f] == s.disk.jobs[f.id].payloadBytes && 1 <= s.disk.files[f] <= MAX_ATTACHMENT
    {
      assert f == FileName(f.id, Blob) && NeedsPayload(s.disk.jobs[f.id]);
    }
    forall id | id in s.disk.jobs && (s.disk.jobs[id].state == Queued || s.disk.jobs[id].state == SubmitUncertain)
      ensures FileName(id, Blob) in s.disk.files
    {
      assert NeedsPayload(s.disk.jobs[id]);
    }
  }
}
