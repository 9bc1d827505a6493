/** The in-memory table of live attempts.

    The store documents an entry as living until its request's outcome is recorded.  That holds exactly
    as long as no record transaction ends in an error after it was applied. */
module CapeLive {
  import opened Basics
  import opened CapeJob
  import opened TokenBucket
  import opened CapeProtocol
  import opened CapeRows
  import opened CapeInvariant
  import opened CapePreservation
  import opened CapeSafety

  /** Every live entry belongs to an attempt whose outcome is not recorded. */
  ghost predicate LiveTracks(jobs: Jobs, live: Live) {
    forall id :: id in live ==> id in jobs && Unresolved(jobs[id])
  }

  /** The step records the outcome of a live attempt, and reports an error although it did. */
  predicate LeakingCommit(s: System, step: Step) {
    && s.mem.running && step.Persist? && step.commit.AppliedThenFailed? && step.k < |s.mem.pending|
    && s.mem.pending[step.k].id in s.disk.jobs && s.mem.pending[step.k].id in s.mem.live
    && !Settled(s.disk.jobs[s.mem.pending[step.k].id], s.mem.pending[step.k])
    && PacketTx(s.disk, s.mem.pending[step.k], step.backoff, step.wall).Ok?
  }

  /** A row change that keeps its attempt and its recorded flag. */
  lemma TracksKept(jobs: Jobs, live: Live, id: JobId, k: Job)
    requires LiveTracks(jobs, live) && id in jobs
    requires k.submissionVersion == jobs[id].submissionVersion && k.submissionRecorded == jobs[id].submissionRecorded
    ensures LiveTracks(jobs[id := k], live)
  {
  }

  lemma PersistTracks(cfg: Config, s: System, t: System, step: Step)
    requires Inv(cfg, s) && s.mem.running && LiveTracks(s.disk.jobs, s.mem.live)
    requires step.Persist? && step.k < |s.mem.pending| && s.mem.pending[step.k].id in s.disk.jobs
    requires t == StepPersist(s, step)
    ensures LiveTracks(t.disk.jobs, t.mem.live) <==> !LeakingCommit(s, step)
  {
    hide UniqueOk, SentOk, RequestsOk, PendingOk, BucketsOk, QuotaOk, LiveOk, PayloadsOk, FilesOwned, WritersOk,
         RecordTx;
    var p := s.mem.pending[step.k];
    assert RowInv(s.disk.jobs[p.id]);
    if t.disk != s.disk {
      RecordTxRecords(s.disk, t.disk, p.id, PacketVersion(s.disk.jobs[p.id], p), PacketSubmission(p), PacketOutcome(p),
                      step.backoff, step.wall);
      assert !Unresolved(t.disk.jobs[p.id]);
    } else if LeakingCommit(s, step) {
      var d := PacketTx(s.disk, p, step.backoff, step.wall).value;
      RecordTxRecords(s.disk, d, p.id, PacketVersion(s.disk.jobs[p.id], p), PacketSubmission(p), PacketOutcome(p),
                      step.backoff, step.wall);
    }
  }

  lemma TracksBegun(jobs: Jobs, live: Live, after: Live, id: JobId, now: Instant)
    requires LiveTracks(jobs, live) && id in jobs && jobs[id].version >= 0
    requires forall i :: i in after ==> i in live || i == id
    ensures LiveTracks(jobs[id := Begin(jobs[id], now)], after)
  {
  }

  lemma BeginTracks(cfg: Config, s: System, t: System, step: Step)
    requires step.BeginAttempt? && t == StepBegin(cfg, s, step) && RowsOk(s.disk.jobs, s.past.used)
    requires LiveTracks(s.disk.jobs, s.mem.live)
    ensures LiveTracks(t.disk.jobs, t.mem.live)
  {
    hide StepBegin, TakeSubmission, LiveTracks, Granted;
    BeginCases(cfg, s, t, step);
    if t.disk != s.disk {
      assert RowInv(s.disk.jobs[step.id]);
      TracksBegun(s.disk.jobs, s.mem.live, t.mem.live, step.id, t.disk.clock.value);
    }
  }

  lemma UpdateTracks(cfg: Config, s: System, d: Disk, id: JobId, op: RowOp, wall: Instant)
    requires Inv(cfg, s) && LiveTracks(s.disk.jobs, s.mem.live) && RowTx(s.disk, id, op, wall) == Ok(d)
    ensures LiveTracks(d.jobs, s.mem.live)
  {
    hide UniqueOk, SentOk, RequestsOk, PendingOk, BucketsOk, QuotaOk, LiveOk, PayloadsOk, FilesOwned, WritersOk,
         RowOutcome, LiveTracks;
    if d != s.disk {
      assert RowInv(s.disk.jobs[id]);
      RowOpIsQuiet(op, s.disk.jobs[id], RowClock(op, s.disk.clock, wall).value);
      TracksKept(s.disk.jobs, s.mem.live, id, d.jobs[id]);
    }
  }

  lemma ReadTracks(cfg: Config, s: System, t: System, step: Step)
    requires step.ReadRemote? && t == StepRead(cfg, s, step) && LiveTracks(s.disk.jobs, s.mem.live)
    ensures LiveTracks(t.disk.jobs, t.mem.live)
  {
    hide LiveTracks, Granted, TakeFrom;
    if t.disk != s.disk {
      TracksKept(s.disk.jobs, s.mem.live, step.id, t.disk.jobs[step.id]);
    }
  }

  lemma ForgetTracks(cfg: Config, s: System, t: System, step: Step)
    requires Inv(cfg, s) && step.Forget? && t == StepForget(s, step.id, step.wall) &&
             LiveTracks(s.disk.jobs, s.mem.live)
    ensures LiveTracks(t.disk.jobs, t.mem.live)
  {
    hide UniqueOk, SentOk, RequestsOk, PendingOk, BucketsOk, QuotaOk, LiveOk, PayloadsOk, FilesOwned, WritersOk;
    if t.disk != s.disk {
      assert RowInv(s.disk.jobs[step.id]);
    }
  }

  lemma LifecycleTracks(cfg: Config, s: System, t: System, step: Step)
    requires Inv(cfg, s) && s.mem.running && (step.UpdateRow? || step.ReadRemote? || step.Forget?)
    requires t == ApplyRunning(cfg, s, step) && LiveTracks(s.disk.jobs, s.mem.live)
    ensures LiveTracks(t.disk.jobs, t.mem.live)
  {
    hide Inv, LiveTracks, RowTx, StepRead, StepForget;
    if step.UpdateRow? {
      if RowTx(s.disk, step.id, step.op, step.wall).Ok? { UpdateTracks(cfg, s, t.disk, step.id, step.op, step.wall); }
    } else if step.ReadRemote? {
      ReadTracks(cfg, s, t, step);
    } else {
      ForgetTracks(cfg, s, t, step);
    }
  }

  lemma PublishTracks(s: System, t: System, step: Step)
    requires step.PublishUpload? && t == StepPublish(s, step.id, step.verdict, step.wall, step.commit)
    requires LiveTracks(s.disk.jobs, s.mem.live)
    ensures LiveTracks(t.disk.jobs, t.mem.live)
  {
    hide HasReusable, LiveTracks;
    if t.disk != s.disk {
      TracksKept(s.disk.jobs, s.mem.live, step.id, t.disk.jobs[step.id]);
    }
  }

  lemma ReserveTracks(cfg: Config, s: System, t: System, step: Step)
    requires step.Reserve? && t == StepReserve(cfg, s, step) && LiveTracks(s.disk.jobs, s.mem.live)
    ensures LiveTracks(t.disk.jobs, t.mem.live)
  {
    hide OldDebt, Reserved;
  }

  lemma StartupTracks(cfg: Config, s: System, step: Step)
    requires Inv(cfg, s) && LiveTracks(s.disk.jobs, s.mem.live) && (!s.mem.running || step.DropStaged?)
    ensures LiveTracks(Apply(cfg, s, step).disk.jobs, Apply(cfg, s, step).mem.live)
  {
    hide UniqueOk, SentOk, RequestsOk, PendingOk, BucketsOk, QuotaOk, LiveOk, PayloadsOk, FilesOwned, WritersOk,
         ApplyRunning;
    if step.DropStaged? && Apply(cfg, s, step) != s {
      assert RowInv(s.disk.jobs[step.id]);
    }
  }

  /** A live entry outlives its recorded outcome exactly when recording it ends in an ambiguous error. */
  lemma LiveTracksUnlessLeaked(cfg: Config, s: System, step: Step)
    requires Inv(cfg, s) && LiveTracks(s.disk.jobs, s.mem.live)
    ensures LiveTracks(Apply(cfg, s, step).disk.jobs, Apply(cfg, s, step).mem.live) <==> !LeakingCommit(s, step)
  {
    hide UniqueOk, SentOk, RequestsOk, PendingOk, BucketsOk, QuotaOk, LiveOk, PayloadsOk, FilesOwned, WritersOk;
    hide StepBegin, StepPersist, StepPublish, StepReserve, StepRead, RowTx, StepForget, PacketTx;
    var t := Apply(cfg, s, step);
    if !s.mem.running || step.DropStaged? {
      StartupTracks(cfg, s, step);
    } else if step.Persist? {
      if step.k < |s.mem.pending| && s.mem.pending[step.k].id in s.disk.jobs { PersistTracks(cfg, s, t, step); }
    } else if step.BeginAttempt? {
      BeginTracks(cfg, s, t, step);
    } else if step.UpdateRow? || step.ReadRemote? || step.Forget? {
      LifecycleTracks(cfg, s, t, step);
    } else if step.Reserve? {
      ReserveTracks(cfg, s, t, step);
    } else if step.PublishUpload? {
      PublishTracks(s, t, step);
    }
  }

  /** Some step of the run records the outcome of a live attempt and reports an error although it did. */
  ghost predicate Leaks(cfg: Config, s: System, steps: seq<Step>)
    decreases |steps|
  {
    steps != [] && (LeakingCommit(s, steps[0]) || Leaks(cfg, Apply(cfg, s, steps[0]), steps[1..]))
  }

  /** In a run without such a step no live entry outlives its outcome, at any point of it; and the first such step of a
      run does leave one behind. */
  lemma {:induction false} LiveTracksInRuns(cfg: Config, s: System, steps: seq<Step>, n: nat)
    requires cfg.Valid() && Inv(cfg, s) && LiveTracks(s.disk.jobs, s.mem.live) && n <= |steps|
    ensures !Leaks(cfg, s, steps) ==>
              LiveTracks(Run(cfg, s, steps[..n]).disk.jobs, Run(cfg, s, steps[..n]).mem.live)
    ensures Leaks(cfg, s, steps) ==>
              exists k :: 0 < k <= |steps| &&
                !LiveTracks(Run(cfg, s, steps[..k]).disk.jobs, Run(cfg, s, steps[..k]).mem.live)
    decreases |steps|
  {
    hide Apply, LeakingCommit, LiveTracks, Inv;
    if steps == [] {
      assert steps[..n] == [];
    } else {
      var t := Apply(cfg, s, steps[0]);
      StepKeepsInv(cfg, s, steps[0]);
      LiveTracksUnlessLeaked(cfg, s, steps[0]);
      RunFirst(cfg, s, steps, 1);
      assert steps[1..][..0] == [];
      if n == 0 {
        assert steps[..0] == [];
      } else {
        RunFirst(cfg, s, steps, n);
      }
      if LeakingCommit(s, steps[0]) {
        assert !LiveTracks(Run(cfg, s, steps[..1]).disk.jobs, Run(cfg, s, steps[..1]).mem.live);
      } else {
        LiveTracksInRuns(cfg, t, steps[1..], if n == 0 then 0 else n - 1);
        if Leaks(cfg, t, steps[1..]) {
          var k :| 0 < k <= |steps[1..]|
                   && !LiveTracks(Run(cfg, t, steps[1..][..k]).disk.jobs, Run(cfg, t, steps[1..][..k]).mem.live);
          RunFirst(cfg, s, steps, k + 1);
          assert !LiveTracks(Run(cfg, s, steps[..k + 1]).disk.jobs, Run(cfg, s, steps[..k + 1]).mem.live);
        }
      }
    }
  }

  lemma RunFirst(cfg: Config, s: System, steps: seq<Step>, n: nat)
    requires 0 < n <= |steps|
    ensures Run(cfg, s, steps[..n]) == Run(cfg, Apply(cfg, s, steps[0]), steps[1..][..n - 1])
  {
    hide Apply;
    assert steps[..n][1..] == steps[1..][..n - 1];
  }

  /* ---------------------------------------------------------------- what a leak costs */

  /** A stale live entry for `id` occupies one of the tenant's slots. */
  ghost predicate Starved(s: System, tenant: string, id: JobId) {
    && s.mem.running && id in s.mem.live && s.mem.live[id] == tenant && id !in s.mem.requests && id in s.past.used
    && (id in s.disk.jobs ==> s.disk.jobs[id].submissionRecorded && s.disk.jobs[id].identity.tenant == tenant)
  }

  /** Stale entries occupy all slots of the tenant. */
  ghost predicate AllStarved(cfg: Config, s: System, tenant: string, ids: set<JobId>) {
    |ids| >= cfg.tenantSubmissionConcurrency && forall id :: id in ids ==> Starved(s, tenant, id)
  }

  lemma StarvedCannotBegin(cfg: Config, s: System, tenant: string, ids: set<JobId>, step: Step)
    requires AllStarved(cfg, s, tenant, ids) && s.mem.running
    requires step.BeginAttempt? && (step.tenant == tenant || step.id in ids)
    ensures StepBegin(cfg, s, step).disk == s.disk && StepBegin(cfg, s, step).mem.requests == s.mem.requests
    ensures StepBegin(cfg, s, step).mem.live == s.mem.live && StepBegin(cfg, s, step).mem.running
    ensures StepBegin(cfg, s, step).past == s.past
  {
    SubsetIsSmaller(ids, Owned(s.mem.live, tenant));
    var tx := BeginTx(cfg, s.disk, s.mem.live, step.tenant, step.id, step.version, step.wall);
    if step.tenant != tenant {
      assert Starved(s, tenant, step.id);
      assert Lookup(s.disk, step.tenant, step.id).Err?;
    }
    assert tx.Err?;
  }

  lemma StarvedStaysByBegin(cfg: Config, s: System, t: System, tenant: string, ids: set<JobId>, id: JobId, step: Step)
    requires Inv(cfg, s) && s.mem.running && AllStarved(cfg, s, tenant, ids) && id in ids
    requires step.BeginAttempt? && t == StepBegin(cfg, s, step)
    ensures Starved(t, tenant, id)
  {
    hide Inv, StepBegin, TakeSubmission, Granted;
    assert Starved(s, tenant, id);
    if step.tenant == tenant || step.id in ids {
      StarvedCannotBegin(cfg, s, tenant, ids, step);
    } else {
      BeginCases(cfg, s, t, step);
    }
  }

  lemma StarvedStaysByPersist(cfg: Config, s: System, t: System, tenant: string, id: JobId, step: Step)
    requires Inv(cfg, s) && Starved(s, tenant, id)
    requires step.Persist? && step.k < |s.mem.pending| && s.mem.pending[step.k].id in s.disk.jobs &&
             t == StepPersist(s, step)
    ensures Starved(t, tenant, id)
  {
    hide UniqueOk, SentOk, RequestsOk, PendingOk, BucketsOk, QuotaOk, LiveOk, PayloadsOk, FilesOwned, WritersOk,
         RecordTx;
    var p := s.mem.pending[step.k];
    assert RowInv(s.disk.jobs[p.id]);
    if t.disk != s.disk {
      RecordTxRecords(s.disk, t.disk, p.id, PacketVersion(s.disk.jobs[p.id], p), PacketSubmission(p), PacketOutcome(p),
                      step.backoff, step.wall);
    }
  }

  lemma StarvedStaysByLifecycle(cfg: Config, s: System, t: System, tenant: string, id: JobId, step: Step)
    requires Inv(cfg, s) && Starved(s, tenant, id)
    requires t == ApplyRunning(cfg, s, step) && (step.UpdateRow? || step.ReadRemote? || step.Forget?)
    ensures Starved(t, tenant, id)
  {
    hide UniqueOk, SentOk, RequestsOk, PendingOk, BucketsOk, QuotaOk, LiveOk, PayloadsOk, FilesOwned, WritersOk,
         RowOutcome;
    if step.UpdateRow? && t.disk != s.disk {
      assert RowInv(s.disk.jobs[step.id]);
      RowOpIsQuiet(step.op, s.disk.jobs[step.id], RowClock(step.op, s.disk.clock, step.wall).value);
    }
  }

  lemma StarvedStaysByIngress(cfg: Config, s: System, t: System, tenant: string, id: JobId, step: Step)
    requires Starved(s, tenant, id)
    requires t == ApplyRunning(cfg, s, step) && (step.Reserve? || step.PublishUpload?)
    ensures Starved(t, tenant, id)
  {
    hide HasReusable, OldDebt, Reserved;
  }

  lemma StarvedStays(cfg: Config, s: System, tenant: string, ids: set<JobId>, id: JobId, step: Step)
    requires Inv(cfg, s) && AllStarved(cfg, s, tenant, ids) && id in ids && !step.Crash?
    ensures Starved(Apply(cfg, s, step), tenant, id)
  {
    hide UniqueOk, SentOk, RequestsOk, PendingOk, BucketsOk, QuotaOk, LiveOk, PayloadsOk, FilesOwned, WritersOk;
    hide StepBegin, StepPersist, StepPublish, StepReserve, StepRead, RowTx, StepForget;
    var t := Apply(cfg, s, step);
    assert Starved(s, tenant, id);
    if step.BeginAttempt? {
      StarvedStaysByBegin(cfg, s, t, tenant, ids, id, step);
    } else if step.Persist? {
      if step.k < |s.mem.pending| && s.mem.pending[step.k].id in s.disk.jobs {
        StarvedStaysByPersist(cfg, s, t, tenant, id, step);
      }
    } else if step.UpdateRow? || step.ReadRemote? || step.Forget? {
      StarvedStaysByLifecycle(cfg, s, t, tenant, id, step);
    } else if step.Reserve? || step.PublishUpload? {
      StarvedStaysByIngress(cfg, s, t, tenant, id, step);
    }
  }

  /** Once as many entries of a tenant have leaked as it may have attempts at a time, it submits nothing more
      until the process restarts; with the default limit of one, that is a single entry. */
  lemma {:induction false} LeakStarvesTenant(cfg: Config, s: System, tenant: string, ids: set<JobId>, steps: seq<Step>)
    requires cfg.Valid() && Inv(cfg, s) && AllStarved(cfg, s, tenant, ids)
    requires forall i :: 0 <= i < |steps| ==> !steps[i].Crash?
    ensures var t := Run(cfg, s, steps);
            ids <= t.mem.live.Keys && forall r :: r in t.mem.requests ==>
              r in t.disk.jobs && t.disk.jobs[r].identity.tenant != tenant
    decreases |steps|
  {
    hide Apply;
    if steps == [] {
      NoRequestLeft(cfg, s, tenant, ids);
    } else {
      StepKeepsInv(cfg, s, steps[0]);
      forall id | id in ids ensures Starved(Apply(cfg, s, steps[0]), tenant, id) {
        StarvedStays(cfg, s, tenant, ids, id, steps[0]);
      }
      LeakStarvesTenant(cfg, Apply(cfg, s, steps[0]), tenant, ids, steps[1..]);
    }
  }

  lemma NoRequestLeft(cfg: Config, s: System, tenant: string, ids: set<JobId>)
    requires cfg.Valid() && Inv(cfg, s) && AllStarved(cfg, s, tenant, ids)
    ensures ids <= s.mem.live.Keys
    ensures forall r :: r in s.mem.requests ==> r in s.disk.jobs && s.disk.jobs[r].identity.tenant != tenant
  {
    forall id | id in ids ensures id in s.mem.live && s.mem.live[id] == tenant && id !in s.mem.requests {
      assert Starved(s, tenant, id);
    }
    forall r | r in s.mem.requests ensures r in s.disk.jobs && s.disk.jobs[r].identity.tenant != tenant {
      assert RequestOk(s.disk.jobs, s.mem.live, s.past.sent, r, s.mem.requests[r]);
      if s.mem.live[r] == tenant {
        SubsetIsSmaller(ids + {r}, Owned(s.mem.live, tenant));
      }
    }
  }

  /* ---------------------------------------------------------------- a leak happens */

  const DEFAULTS: Config := Config(MAX_ATTACHMENT, 1000, 100, 0x4000_0000, 0x640_0000, 5, 2, 5, 2, 1)

  /** One upload of one byte, published, begun and refused by the client before any byte was sent. */
  ghost const REFUSED: seq<Step> := [
    FinishRecovery,
    Reserve(Upload("t", "g", "p", "r", "unknown"), "a", 0, true, Committed),
    WriteTmp("a", 1),
    RenameTmp("a", "digest"),
    PublishUpload("a", "unknown", 0, Committed),
    BeginAttempt("t", "a", 2, 0, Committed, true),
    ReturnRequest("a", Submission([], true, false), Transport)]

  function StagedState(): System {
    var j := StagedRow(DEFAULTS, Upload("t", "g", "p", "r", "unknown"), "a", 0);
    System(Disk(map["a" := j], map[], Some(0), map[], {}),
           Memory(true, map[], map[], [], map["a" := Writing]), History({}, {"a"}, map[]))
  }

  lemma ReservesFirstUpload()
    ensures Apply(DEFAULTS, EMPTY.(mem := COLD.(running := true)), REFUSED[1]) == StagedState()
  {
    assert Shares(EMPTY.disk.jobs, None) == map[] && Shares(EMPTY.disk.jobs, Some("t")) == map[];
  }

  function QueuedRow(): Job {
    Publish(StagedRow(DEFAULTS, Upload("t", "g", "p", "r", "unknown"), "a", 0), "digest", 1, "unknown")
  }

  function QueuedState(): System {
    System(Disk(map["a" := QueuedRow()], map[FileName("a", Blob) := 1], Some(0), map[], {}),
           Memory(true, map[], map[], [], map[]), History({}, {"a"}, map[]))
  }

  lemma PublishesFirstUpload()
    ensures Apply(DEFAULTS, Apply(DEFAULTS, Apply(DEFAULTS, StagedState(), REFUSED[2]), REFUSED[3]), REFUSED[4])
            == QueuedState()
  {
    var s := StagedState();
    var s2 := Apply(DEFAULTS, s, WriteTmp("a", 1));
    assert s2 == s.(disk := s.disk.(files := map[FileName("a", Tmp) := 1]));
    var s3 := Apply(DEFAULTS, s2, RenameTmp("a", "digest"));
    assert s3.disk.files == map[FileName("a", Blob) := 1];
    assert s3.mem.writers == map["a" := Renamed(1, "digest")];
    assert s3.disk.jobs == s.disk.jobs;
    var s4 := Apply(DEFAULTS, s3, PublishUpload("a", "unknown", 0, Committed));
    assert !HasReusable(s3.disk.jobs, s3.disk.jobs["a"].identity.(digest := "digest"), 0);
    assert s4.disk.jobs == map["a" := QueuedRow()];
    assert s4.mem.writers == map[];
  }

  function BegunDisk(): Disk {
    Disk(map["a" := Begin(QueuedRow(), 0)], map[FileName("a", Blob) := 1], Some(0),
         map[RequestBucket := Bucket(4.0, 0), SubmitBucket := Bucket(4.0, 0), TenantBucket("t") := Bucket(1.0, 0)], {})
  }

  const BEGUN_PAST: History :=
    History({}, {"a"}, map[RequestBucket := [0], SubmitBucket := [0], TenantBucket("t") := [0]])

  lemma TakesThreeTokens()
    ensures TakeSubmission(DEFAULTS, map[], "t", 0) == Ok(BegunDisk().buckets)
  {
    var b1 := map[RequestBucket := Bucket(4.0, 0)];
    assert TakeFrom(map[], RequestBucket, 5, 0) == Ok(b1);
    var b2 := map[RequestBucket := Bucket(4.0, 0), SubmitBucket := Bucket(4.0, 0)];
    assert TakeFrom(b1, SubmitBucket, 5, 0) == Ok(b2);
    assert TakeFrom(b2, TenantBucket("t"), 2, 0) == Ok(BegunDisk().buckets);
  }

  lemma BeginsOnDisk()
    ensures BeginTx(DEFAULTS, QueuedState().disk, map[], "t", "a", 2, 0) == Ok(BegunDisk())
  {
    TakesThreeTokens();
    hide TakeSubmission;
    assert Owned(map[], "t") == {};
    var j := QueuedRow();
    assert j.version == 2 && j.identity.tenant == "t";
    assert BeginAdmission(j, 2, {}).Ok? && BeginTiming(j, 0).Ok?;
    assert BegunDisk() == Put(QueuedState().disk, "a", Begin(j, 0), 0).(buckets := BegunDisk().buckets);
  }

  function BegunState(): System {
    System(BegunDisk(), Memory(true, map["a" := "t"], map["a" := Request(3, Authorized)], [], map[]), BEGUN_PAST)
  }

  lemma BeginsFirstAttempt()
    ensures Apply(DEFAULTS, QueuedState(), REFUSED[5]) == BegunState()
  {
    BeginsOnDisk();
    hide BeginTx, BegunDisk;
    assert BegunDisk().clock == Some(0) by { ClockAtBegin(); }
    FirstGrant(map[], RequestBucket, 0);
    FirstGrant(map[RequestBucket := [0]], SubmitBucket, 0);
    FirstGrant(map[RequestBucket := [0], SubmitBucket := [0]], TenantBucket("t"), 0);
  }

  lemma FirstGrant(grants: map<BucketName, seq<Instant>>, name: BucketName, now: Instant)
    requires name !in grants
    ensures Granted(grants, name, now) == grants[name := [now]]
  {
    assert [] + [now] == [now];
  }

  lemma ClockAtBegin()
    ensures BegunDisk().clock == Some(0)
  {
  }

  /** The row's attempt is over; its packet says that no byte was sent. */
  function ReturnedState(): System {
    System(BegunDisk(), Memory(true, map["a" := "t"], map[],
                               [Submitted("a", 3, Submission([], true, false), Transport)], map[]),
           BEGUN_PAST)
  }

  lemma ReturnsFirstAttempt()
    ensures Apply(DEFAULTS, BegunState(), REFUSED[6]) == ReturnedState()
  {
    hide BegunDisk;
    assert BegunState().mem.requests - {"a"} == map[];
  }

  lemma StartsEmpty()
    ensures Apply(DEFAULTS, EMPTY, REFUSED[0]) == EMPTY.(mem := COLD.(running := true))
  {
  }

  lemma RefusesFirstAttempt()
    ensures Run(DEFAULTS, EMPTY, REFUSED) == ReturnedState()
  {
    hide Run, Apply, StagedState, QueuedState, BegunState, ReturnedState;
    StartsEmpty();
    ReservesFirstUpload();
    PublishesFirstUpload();
    BeginsFirstAttempt();
    ReturnsFirstAttempt();
    RunsSeven(DEFAULTS, EMPTY, REFUSED);
  }

  lemma RunsSeven(cfg: Config, s: System, r: seq<Step>)
    requires |r| == 7
    ensures Run(cfg, s, r) ==
      Apply(cfg, Apply(cfg, Apply(cfg, Apply(cfg, Apply(cfg, Apply(cfg, Apply(cfg, s, r[0]), r[1]), r[2]), r[3]),
                                  r[4]), r[5]), r[6])
  {
    hide Apply;
    assert r == [] + [r[0]] + [r[1]] + [r[2]] + [r[3]] + [r[4]] + [r[5]] + [r[6]];
    RunThen(cfg, s, [], r[0]);
    RunThen(cfg, s, [] + [r[0]], r[1]);
    RunThen(cfg, s, [] + [r[0]] + [r[1]], r[2]);
    RunThen(cfg, s, [] + [r[0]] + [r[1]] + [r[2]], r[3]);
    RunThen(cfg, s, [] + [r[0]] + [r[1]] + [r[2]] + [r[3]], r[4]);
    RunThen(cfg, s, [] + [r[0]] + [r[1]] + [r[2]] + [r[3]] + [r[4]], r[5]);
    RunThen(cfg, s, [] + [r[0]] + [r[1]] + [r[2]] + [r[3]] + [r[4]] + [r[5]], r[6]);
  }

  /** The leak is real: after recording the refusal with an ambiguous error, the scheduler finds the
      outcome durable and drops its packet, and the tenant's only slot stays taken. */
  lemma LeakIsReachable()
    ensures var steps := REFUSED + [Persist(0, 0, 0, AppliedThenFailed, true)] + [Persist(0, 0, 0, Committed, true)];
            && DEFAULTS.Valid() && Starved(Run(DEFAULTS, EMPTY, steps), "t", "a")
            && Run(DEFAULTS, EMPTY, steps).mem.pending == []
  {
    var fail, retry := Persist(0, 0, 0, AppliedThenFailed, true), Persist(0, 0, 0, Committed, true);
    RefusesFirstAttempt();
    RunThen(DEFAULTS, EMPTY, REFUSED, fail);
    RunThen(DEFAULTS, EMPTY, REFUSED + [fail], retry);
    LeaksOnAmbiguousRecord();
    hide Run, StepPersist;
  }

  lemma LeaksOnAmbiguousRecord()
    ensures var fail, retry := Persist(0, 0, 0, AppliedThenFailed, true), Persist(0, 0, 0, Committed, true);
            var t := Apply(DEFAULTS, Apply(DEFAULTS, ReturnedState(), fail), retry);
            Starved(t, "t", "a") && t.mem.pending == []
  {
    hide RecordTx, RecordSubmission;
    var s := ReturnedState();
    RecordsRefusal();
    var t := StepPersist(s, Persist(0, 0, 0, AppliedThenFailed, true));
    assert t.disk.jobs["a"].submissionRecorded && t.mem == s.mem;
    assert Without(t.mem.pending, 0) == [];
  }

  lemma RecordsRefusal()
    ensures var tx := RecordTx(ReturnedState().disk, "a", 3, Submission([], true, false), Transport, 0, 0);
            && tx.Ok? && "a" in tx.value.jobs && tx.value.jobs["a"].submissionRecorded
            && tx.value.jobs["a"].identity.tenant == "t"
  {
    var j := Begin(QueuedRow(), 0);
    assert RecordGuard(j, 3) && !HarvestIncomplete([], "g");
    assert !Terminal(j.state) && MustRetry(Submission([], true, false), Transport, false);
  }
}
