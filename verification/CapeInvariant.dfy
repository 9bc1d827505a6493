/** The inductive invariant of the CAPE protocol.

    Each clause names only the parts of the state it speaks about, so a step that leaves those parts
    alone keeps the clause for free. */
module CapeInvariant {
  import opened Basics
  import opened CapeJob
  import opened TokenBucket
  import opened CapeProtocol
  import opened CapeRows

  type Jobs = map<JobId, Job>
  type Files = map<FileName, nat>
  type Requests = map<JobId, Request>
  type Live = map<JobId, string>
  type Writers = map<JobId, Writer>

  /* ---------------------------------------------------------------- rows */

  ghost predicate RowsOk(jobs: Jobs, used: set<JobId>) {
    forall id :: id in jobs ==> RowInv(jobs[id]) && id in used
  }

  predicate Competing(j: Job, k: Job) {
    Blocking(j) && Blocking(k) && j.identity == k.identity
  }

  /** At most one row per identity stops further uploads. */
  ghost predicate UniqueOk(jobs: Jobs) {
    forall i, k :: i in jobs && k in jobs && i != k ==> !Competing(jobs[i], jobs[k])
  }

  /* ---------------------------------------------------------------- traffic */

  /** A row that ever sent bytes still exists, is held, and sent them in its latest attempt. */
  ghost predicate SentOk(jobs: Jobs, sent: set<Attempt>) {
    forall a :: a in sent ==>
      (&& a.id in jobs && Held(jobs[a.id])
       && jobs[a.id].submissionVersion == a.version && jobs[a.id].identity == a.identity)
  }

  ghost predicate NeverSent(sent: set<Attempt>, id: JobId) {
    forall a :: a in sent ==> a.id != id
  }

  ghost predicate RequestOk(jobs: Jobs, live: Live, sent: set<Attempt>, id: JobId, r: Request) {
    && id in jobs && Held(jobs[id]) && jobs[id].submissionVersion == r.version
    && id in live && live[id] == jobs[id].identity.tenant
    && (!r.phase.Sent? ==> NeverSent(sent, id))
  }

  ghost predicate RequestsOk(jobs: Jobs, live: Live, sent: set<Attempt>, requests: Requests) {
    forall id :: id in requests ==> RequestOk(jobs, live, sent, id, requests[id])
  }

  /** A packet describes a request that is over; its no-send claim is true. */
  ghost predicate PacketOk(jobs: Jobs, used: set<JobId>, sent: set<Attempt>, requests: Requests, p: Packet) {
    match p
    case BeginError(id, _) => id !in requests
    case Submitted(id, version, submission, _) =>
      && id in used
      && (id in jobs && jobs[id].submissionVersion == version ==>
            id !in requests && (submission.noBytesSent ==> NeverSent(sent, id)))
  }

  ghost predicate PendingOk(jobs: Jobs, used: set<JobId>, sent: set<Attempt>, requests: Requests,
                            pending: seq<Packet>) {
    forall i :: 0 <= i < |pending| ==> PacketOk(jobs, used, sent, requests, pending[i])
  }

  ghost predicate LiveOk(cfg: Config, live: Live) {
    && |live| <= cfg.submissionConcurrency
    && forall tenant :: |Owned(live, tenant)| <= cfg.tenantSubmissionConcurrency
  }

  /* ---------------------------------------------------------------- spool */

  /** Every row that may still be submitted has its payload, exactly as long as recorded. */
  ghost predicate PayloadsOk(jobs: Jobs, files: Files) {
    forall id :: id in jobs && NeedsPayload(jobs[id]) ==>
      (&& FileName(id, Blob) in files && files[FileName(id, Blob)] == jobs[id].payloadBytes
       && 1 <= jobs[id].payloadBytes <= MAX_ATTACHMENT)
  }

  ghost predicate FilesOwned(jobs: Jobs, files: Files) {
    forall f :: f in files ==> f.id in jobs && (f.kind == Tmp ==> jobs[f.id].state == Staging)
  }

  ghost predicate WriterOk(cfg: Config, jobs: Jobs, files: Files, id: JobId, w: Writer) {
    w.Stopping?
    || (&& id in jobs && jobs[id].state == Staging
        && (w.Renamed? ==>
              && FileName(id, Blob) in files && files[FileName(id, Blob)] == w.size && FileName(id, Tmp) !in files
              && 1 <= w.size <= cfg.maxAttachment))
  }

  ghost predicate WritersOk(cfg: Config, jobs: Jobs, files: Files, writers: Writers) {
    forall id :: id in writers ==> WriterOk(cfg, jobs, files, id, writers[id])
  }

  /* ---------------------------------------------------------------- rates and quotas */

  function Grants(grants: map<BucketName, seq<Instant>>, name: BucketName): seq<Instant> {
    if name in grants then grants[name] else []
  }

  ghost predicate BucketOk(cfg: Config, buckets: map<BucketName, Bucket>, grants: map<BucketName, seq<Instant>>,
                           name: BucketName) {
    && Accounts(Row(buckets, name), Grants(grants, name), Rate(cfg, name))
    && WithinRate(Grants(grants, name), Rate(cfg, name))
  }

  ghost predicate BucketsOk(cfg: Config, buckets: map<BucketName, Bucket>, grants: map<BucketName, seq<Instant>>) {
    forall name :: BucketOk(cfg, buckets, grants, name)
  }

  /** Admission never overcommits: row counts and summed reservations stay within their quotas. */
  ghost predicate QuotaOk(cfg: Config, jobs: Jobs) {
    && |jobs| <= cfg.maxJobs
    && Reserved(jobs, None) <= cfg.maxBytes
    && (forall tenant :: |RowsOf(jobs, tenant)| <= cfg.tenantJobs)
    && (forall tenant :: Reserved(jobs, Some(tenant)) <= cfg.tenantBytes)
  }

  /** A staged row reserves room for the largest upload it may receive. */
  ghost predicate StagedOk(cfg: Config, jobs: Jobs) {
    forall id :: id in jobs && jobs[id].state == Staging ==>
      jobs[id].reservedBytes == cfg.maxAttachment + METADATA_AND_RESULT
  }

  /* ---------------------------------------------------------------- all of it */

  ghost predicate DiskOk(cfg: Config, s: System) {
    && RowsOk(s.disk.jobs, s.past.used) && UniqueOk(s.disk.jobs) && SentOk(s.disk.jobs, s.past.sent)
    && PayloadsOk(s.disk.jobs, s.disk.files) && FilesOwned(s.disk.jobs, s.disk.files)
    && BucketsOk(cfg, s.disk.buckets, s.past.grants)
    && QuotaOk(cfg, s.disk.jobs) && StagedOk(cfg, s.disk.jobs)
  }

  ghost predicate MemoryOk(cfg: Config, s: System) {
    && (!s.mem.running ==> s.mem == COLD)
    && RequestsOk(s.disk.jobs, s.mem.live, s.past.sent, s.mem.requests)
    && PendingOk(s.disk.jobs, s.past.used, s.past.sent, s.mem.requests, s.mem.pending)
    && LiveOk(cfg, s.mem.live)
    && WritersOk(cfg, s.disk.jobs, s.disk.files, s.mem.writers)
  }

  ghost predicate Inv(cfg: Config, s: System) {
    DiskOk(cfg, s) && MemoryOk(cfg, s)
  }
}
