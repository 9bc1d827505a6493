/** How each kind of state change keeps the clauses of the invariant. */
module CapePreservation {
  import opened Basics
  import opened CapeJob
  import opened TokenBucket
  import opened MapSum
  import opened CapeProtocol
  import opened CapeRows
  import opened CapeInvariant

  /* ---------------------------------------------------------------- one row changes */

  lemma RowsKept(jobs: Jobs, used: set<JobId>, id: JobId, k: Job)
    requires RowsOk(jobs, used) && id in jobs && RowInv(k)
    ensures RowsOk(jobs[id := k], used)
  {
  }

  /** No second blocking row appears when a row changes without starting to block. */
  lemma UniqueKept(jobs: Jobs, id: JobId, k: Job)
    requires UniqueOk(jobs) && id in jobs && k.identity == jobs[id].identity && (Blocking(k) ==> Blocking(jobs[id]))
    ensures UniqueOk(jobs[id := k])
  {
    var after := jobs[id := k];
    forall i, l | i in after && l in after && i != l ensures !Competing(after[i], after[l]) {
      assert !Competing(jobs[i], jobs[l]);
    }
  }

  /** The outside world stays consistent with a row that keeps its attempt and stays held, unless
      nothing was sent for it and nothing can be. */
  ghost predicate SameAttempt(sent: set<Attempt>, requests: Requests, id: JobId, j: Job, k: Job) {
    && k.identity == j.identity && k.submissionVersion == j.submissionVersion
    && ((Held(j) ==> Held(k)) || (id !in requests && NeverSent(sent, id)))
  }

  lemma SentKept(jobs: Jobs, sent: set<Attempt>, requests: Requests, id: JobId, k: Job)
    requires SentOk(jobs, sent) && id in jobs && SameAttempt(sent, requests, id, jobs[id], k)
    ensures SentOk(jobs[id := k], sent)
  {
  }

  lemma RequestsKept(jobs: Jobs, live: Live, sent: set<Attempt>, requests: Requests, id: JobId, k: Job)
    requires RequestsOk(jobs, live, sent, requests) && id in jobs && SameAttempt(sent, requests, id, jobs[id], k)
    ensures RequestsOk(jobs[id := k], live, sent, requests)
  {
    forall i | i in requests ensures RequestOk(jobs[id := k], live, sent, i, requests[i]) {
      assert RequestOk(jobs, live, sent, i, requests[i]);
    }
  }

  lemma PendingKept(jobs: Jobs, used: set<JobId>, sent: set<Attempt>, requests: Requests, pending: seq<Packet>,
                    id: JobId, k: Job)
    requires PendingOk(jobs, used, sent, requests, pending) && id in jobs
    requires k.submissionVersion == jobs[id].submissionVersion
    ensures PendingOk(jobs[id := k], used, sent, requests, pending)
  {
    forall i | 0 <= i < |pending| ensures PacketOk(jobs[id := k], used, sent, requests, pending[i]) {
      assert PacketOk(jobs, used, sent, requests, pending[i]);
    }
  }

  /** What the spool needs of a changed row. */
  predicate SamePayload(j: Job, k: Job) {
    && k.payloadBytes == j.payloadBytes && (NeedsPayload(k) ==> NeedsPayload(j))
    && (j.state == Staging <==> k.state == Staging)
  }

  lemma SpoolKept(cfg: Config, jobs: Jobs, files: Files, writers: Writers, id: JobId, k: Job)
    requires PayloadsOk(jobs, files) && FilesOwned(jobs, files) && WritersOk(cfg, jobs, files, writers)
    requires id in jobs && SamePayload(jobs[id], k)
    ensures PayloadsOk(jobs[id := k], files) && FilesOwned(jobs[id := k], files) &&
            WritersOk(cfg, jobs[id := k], files, writers)
  {
    forall i | i in writers ensures WriterOk(cfg, jobs[id := k], files, i, writers[i]) {
      assert WriterOk(cfg, jobs, files, i, writers[i]);
    }
  }

  lemma QuotaKept(cfg: Config, jobs: Jobs, id: JobId, k: Job)
    requires QuotaOk(cfg, jobs) && id in jobs
    requires k.identity.tenant == jobs[id].identity.tenant && k.reservedBytes <= jobs[id].reservedBytes
    ensures QuotaOk(cfg, jobs[id := k])
  {
    ReservedPut(jobs, id, k, None);
    forall tenant: string ensures Reserved(jobs[id := k], Some(tenant)) <= cfg.tenantBytes {
      ReservedPut(jobs, id, k, Some(tenant));
    }
    var after := jobs[id := k];
    forall tenant ensures |RowsOf(after, tenant)| <= cfg.tenantJobs {
      assert RowsOf(after, tenant) == RowsOf(jobs, tenant);
    }
    assert jobs[id := k].Keys == jobs.Keys;
  }

  lemma ReservedPut(jobs: Jobs, id: JobId, j: Job, tenant: Option<string>)
    ensures Reserved(jobs[id := j], tenant) == Share(j, tenant) + Reserved(jobs - {id}, tenant)
    ensures Reserved(jobs, tenant)
            == (if id in jobs then Share(jobs[id], tenant) else 0) + Reserved(jobs - {id}, tenant)
  {
    SumPut(Shares(jobs, tenant), id, Share(j, tenant));
    SharesPut(jobs, id, j, tenant);
  }

  lemma SharesPut(jobs: Jobs, id: JobId, j: Job, tenant: Option<string>)
    ensures Shares(jobs[id := j], tenant) == Shares(jobs, tenant)[id := Share(j, tenant)]
    ensures Shares(jobs - {id}, tenant) == Shares(jobs, tenant) - {id}
  {
    hide Share;
  }

  /** `t` is `s` with another row at `id`; its clock, buckets and grants may differ too. */
  ghost predicate OneRow(s: System, t: System, id: JobId, k: Job) {
    && id in s.disk.jobs && t.disk.jobs == s.disk.jobs[id := k] && t.disk.files == s.disk.files
    && t.mem == s.mem && t.past.sent == s.past.sent && t.past.used == s.past.used
  }

  /** A row that keeps its attempt, its payload and its reservation keeps the whole invariant. */
  lemma RowChangeKeepsInv(cfg: Config, s: System, t: System, id: JobId, k: Job)
    requires Inv(cfg, s) && OneRow(s, t, id, k) && BucketsOk(cfg, t.disk.buckets, t.past.grants)
    requires RowInv(k) && (Blocking(k) ==> Blocking(s.disk.jobs[id])) &&
             k.reservedBytes == s.disk.jobs[id].reservedBytes
    requires SameAttempt(s.past.sent, s.mem.requests, id, s.disk.jobs[id], k) && SamePayload(s.disk.jobs[id], k)
    ensures Inv(cfg, t)
  {
    hide RowsOk, UniqueOk, SentOk, RequestsOk, PendingOk, PayloadsOk, FilesOwned, WritersOk, BucketsOk, QuotaOk, LiveOk;
    hide RowInv;
    RowsKept(s.disk.jobs, s.past.used, id, k);
    UniqueKept(s.disk.jobs, id, k);
    SentKept(s.disk.jobs, s.past.sent, s.mem.requests, id, k);
    RequestsKept(s.disk.jobs, s.mem.live, s.past.sent, s.mem.requests, id, k);
    PendingKept(s.disk.jobs, s.past.used, s.past.sent, s.mem.requests, s.mem.pending, id, k);
    SpoolKept(cfg, s.disk.jobs, s.disk.files, s.mem.writers, id, k);
    QuotaKept(cfg, s.disk.jobs, id, k);
  }

  lemma QuietKeepsInv(cfg: Config, s: System, t: System, id: JobId, k: Job)
    requires Inv(cfg, s) && OneRow(s, t, id, k) && BucketsOk(cfg, t.disk.buckets, t.past.grants)
    requires Quiet(s.disk.jobs[id], k)
    ensures Inv(cfg, t)
  {
    hide Inv, RowInv, Descends;
    RowChangeKeepsInv(cfg, s, t, id, k);
  }

  /* ---------------------------------------------------------------- buckets */

  /** A take recorded in the history keeps every bucket accountable. */
  lemma TakeKeepsBuckets(cfg: Config, buckets: map<BucketName, Bucket>, grants: map<BucketName, seq<Instant>>,
                         name: BucketName, now: Instant)
    requires BucketsOk(cfg, buckets, grants) && TakeFrom(buckets, name, Rate(cfg, name), now).Ok?
    ensures BucketsOk(cfg, TakeFrom(buckets, name, Rate(cfg, name), now).value, Granted(grants, name, now))
  {
    assert BucketOk(cfg, buckets, grants, name);
    TakeAccounts(Row(buckets, name), Grants(grants, name), Rate(cfg, name), now);
    var after, history := TakeFrom(buckets, name, Rate(cfg, name), now).value, Granted(grants, name, now);
    forall other ensures BucketOk(cfg, after, history, other) {
      assert BucketOk(cfg, buckets, grants, other);
    }
  }

  lemma SubmissionKeepsBuckets(cfg: Config, buckets: map<BucketName, Bucket>, grants: map<BucketName, seq<Instant>>,
                               tenant: string, now: Instant)
    requires BucketsOk(cfg, buckets, grants) && TakeSubmission(cfg, buckets, tenant, now).Ok?
    ensures BucketsOk(cfg, TakeSubmission(cfg, buckets, tenant, now).value,
              Granted(Granted(Granted(grants, RequestBucket, now), SubmitBucket, now), TenantBucket(tenant), now))
  {
    var b1, g1 := TakeFrom(buckets, RequestBucket, cfg.requestsPerMinute, now).value,
      Granted(grants, RequestBucket, now);
    TakeKeepsBuckets(cfg, buckets, grants, RequestBucket, now);
    var b2, g2 := TakeFrom(b1, SubmitBucket, cfg.submitPerMinute, now).value, Granted(g1, SubmitBucket, now);
    TakeKeepsBuckets(cfg, b1, g1, SubmitBucket, now);
    TakeKeepsBuckets(cfg, b2, g2, TenantBucket(tenant), now);
  }

  /* ---------------------------------------------------------------- files and writers */

  /** Removing a file that no row and no writer needs. */
  lemma UnlinkKeepsInv(cfg: Config, s: System, t: System, file: FileName)
    requires Inv(cfg, s) && t == s.(disk := s.disk.(files := s.disk.files - {file}))
    requires file.kind == Blob && file.id in s.disk.jobs ==> !NeedsPayload(s.disk.jobs[file.id])
    requires file.kind == Blob && file.id in s.mem.writers ==> !s.mem.writers[file.id].Renamed?
    ensures Inv(cfg, t)
  {
    hide RowsOk, UniqueOk, SentOk, RequestsOk, PendingOk, BucketsOk, QuotaOk, LiveOk;
    forall i | i in t.mem.writers ensures WriterOk(cfg, t.disk.jobs, t.disk.files, i, t.mem.writers[i]) {
      assert WriterOk(cfg, s.disk.jobs, s.disk.files, i, s.mem.writers[i]);
    }
  }

  lemma UnlinkPayloadKeepsInv(cfg: Config, s: System, t: System, id: JobId)
    requires Inv(cfg, s) && id in s.disk.jobs && NeedsNoPayload(s.disk.jobs[id].state)
    requires t == s.(disk := s.disk.(files := s.disk.files - {FileName(id, Blob)}))
    ensures Inv(cfg, t)
  {
    assert id in s.mem.writers ==> WriterOk(cfg, s.disk.jobs, s.disk.files, id, s.mem.writers[id]);
    UnlinkKeepsInv(cfg, s, t, FileName(id, Blob));
  }

  lemma WriteTmpKeepsInv(cfg: Config, s: System, t: System, id: JobId, size: nat)
    requires Inv(cfg, s) && id in s.mem.writers && s.mem.writers[id].Writing?
    requires t == s.(disk := s.disk.(files := s.disk.files[FileName(id, Tmp) := size]))
    ensures Inv(cfg, t)
  {
    hide RowsOk, UniqueOk, SentOk, RequestsOk, PendingOk, BucketsOk, QuotaOk, LiveOk;
    assert WriterOk(cfg, s.disk.jobs, s.disk.files, id, s.mem.writers[id]);
    forall i | i in t.mem.writers ensures WriterOk(cfg, t.disk.jobs, t.disk.files, i, t.mem.writers[i]) {
      assert WriterOk(cfg, s.disk.jobs, s.disk.files, i, s.mem.writers[i]);
    }
  }

  lemma RenameKeepsInv(cfg: Config, s: System, t: System, id: JobId, digest: string)
    requires Inv(cfg, s) && t == StepRename(cfg, s, id, digest) && s.mem.running
    ensures Inv(cfg, t)
  {
    hide RowsOk, UniqueOk, SentOk, RequestsOk, PendingOk, BucketsOk, QuotaOk, LiveOk;
    if t != s {
      assert WriterOk(cfg, s.disk.jobs, s.disk.files, id, s.mem.writers[id]);
      forall i | i in t.mem.writers ensures WriterOk(cfg, t.disk.jobs, t.disk.files, i, t.mem.writers[i]) {
        if i != id {
          assert WriterOk(cfg, s.disk.jobs, s.disk.files, i, s.mem.writers[i]);
        }
      }
    }
  }

  /** A writer that stops, or is gone, promises nothing any more. */
  lemma FewerWritersKeepInv(cfg: Config, s: System, t: System)
    requires Inv(cfg, s) && s.mem.running && t == s.(mem := s.mem.(writers := t.mem.writers))
    requires forall i :: i in t.mem.writers && !t.mem.writers[i].Stopping? ==>
      i in s.mem.writers && t.mem.writers[i] == s.mem.writers[i]
    ensures Inv(cfg, t)
  {
    hide RowsOk, UniqueOk, SentOk, RequestsOk, PendingOk, PayloadsOk, FilesOwned, BucketsOk, QuotaOk, LiveOk;
    forall i | i in t.mem.writers ensures WriterOk(cfg, t.disk.jobs, t.disk.files, i, t.mem.writers[i]) {
      if !t.mem.writers[i].Stopping? {
        assert WriterOk(cfg, s.disk.jobs, s.disk.files, i, s.mem.writers[i]);
      }
    }
  }

  /* ---------------------------------------------------------------- rows disappear */

  lemma RowsDropped(jobs: Jobs, used: set<JobId>, id: JobId)
    requires RowsOk(jobs, used) && UniqueOk(jobs)
    ensures RowsOk(jobs - {id}, used) && UniqueOk(jobs - {id})
  {
    forall i, l | i in jobs - {id} && l in jobs - {id} && i != l
      ensures !Competing((jobs - {id})[i], (jobs - {id})[l]) {
      assert !Competing(jobs[i], jobs[l]);
    }
  }

  lemma TrafficDropped(jobs: Jobs, used: set<JobId>, live: Live, sent: set<Attempt>, requests: Requests,
                       pending: seq<Packet>, id: JobId)
    requires SentOk(jobs, sent) && RequestsOk(jobs, live, sent, requests) &&
             PendingOk(jobs, used, sent, requests, pending)
    requires id in jobs && !Held(jobs[id])
    ensures SentOk(jobs - {id}, sent) && RequestsOk(jobs - {id}, live, sent, requests)
    ensures PendingOk(jobs - {id}, used, sent, requests, pending)
  {
    forall i | i in requests ensures RequestOk(jobs - {id}, live, sent, i, requests[i]) {
      assert RequestOk(jobs, live, sent, i, requests[i]);
    }
    forall i | 0 <= i < |pending| ensures PacketOk(jobs - {id}, used, sent, requests, pending[i]) {
      assert PacketOk(jobs, used, sent, requests, pending[i]);
    }
  }

  lemma QuotaDropped(cfg: Config, jobs: Jobs, id: JobId)
    requires QuotaOk(cfg, jobs) && id in jobs
    ensures QuotaOk(cfg, jobs - {id})
  {
    ReservedPut(jobs, id, jobs[id], None);
    forall tenant: string ensures Reserved(jobs - {id}, Some(tenant)) <= cfg.tenantBytes {
      ReservedPut(jobs, id, jobs[id], Some(tenant));
    }
    forall tenant ensures |RowsOf(jobs - {id}, tenant)| <= cfg.tenantJobs {
      SubsetIsSmaller(RowsOf(jobs - {id}, tenant), RowsOf(jobs, tenant));
    }
    assert jobs.Keys == (jobs - {id}).Keys + {id};
  }

  lemma SpoolDropped(cfg: Config, jobs: Jobs, files: Files, writers: Writers, after: Writers, id: JobId)
    requires PayloadsOk(jobs, files) && FilesOwned(jobs, files) && WritersOk(cfg, jobs, files, writers)
    requires forall f :: f in files ==> f.id != id
    requires id in writers ==> writers[id].Stopping?
    requires after == writers || after == writers - {id}
    ensures PayloadsOk(jobs - {id}, files) && FilesOwned(jobs - {id}, files) &&
            WritersOk(cfg, jobs - {id}, files, after)
  {
    forall i | i in after ensures WriterOk(cfg, jobs - {id}, files, i, after[i]) {
      assert WriterOk(cfg, jobs, files, i, writers[i]);
    }
  }

  /** Dropping a row that holds nothing and owns no file. */
  lemma DropKeepsInv(cfg: Config, s: System, t: System, id: JobId)
    requires Inv(cfg, s) && id in s.disk.jobs && !Held(s.disk.jobs[id])
    requires forall f :: f in s.disk.files ==> f.id != id
    requires id in s.mem.writers ==> s.mem.writers[id].Stopping?
    requires t.disk.jobs == s.disk.jobs - {id} && t.disk.files == s.disk.files && t.disk.buckets == s.disk.buckets
    requires t.past == s.past && t.mem == s.mem.(writers := t.mem.writers)
    requires t.mem.writers == s.mem.writers || t.mem.writers == s.mem.writers - {id}
    ensures Inv(cfg, t)
  {
    hide RowsOk, UniqueOk, SentOk, RequestsOk, PendingOk, BucketsOk, QuotaOk, LiveOk, PayloadsOk, FilesOwned, WritersOk;
    RowsDropped(s.disk.jobs, s.past.used, id);
    TrafficDropped(s.disk.jobs, s.past.used, s.mem.live, s.past.sent, s.mem.requests, s.mem.pending, id);
    QuotaDropped(cfg, s.disk.jobs, id);
    SpoolDropped(cfg, s.disk.jobs, s.disk.files, s.mem.writers, t.mem.writers, id);
    if s.mem == COLD {
      assert s.mem.writers - {id} == map[];
    }
  }

  lemma ForgetKeepsInv(cfg: Config, s: System, t: System, id: JobId, wall: Instant)
    requires Inv(cfg, s) && t == StepForget(s, id, wall)
    ensures Inv(cfg, t)
  {
    hide UniqueOk, SentOk, RequestsOk, PendingOk, BucketsOk, QuotaOk, LiveOk, PayloadsOk;
    if t != s {
      assert RowInv(s.disk.jobs[id]);
      assert id in s.mem.writers ==> WriterOk(cfg, s.disk.jobs, s.disk.files, id, s.mem.writers[id]);
      forall f | f in s.disk.files ensures f.id != id {
        assert f == FileName(f.id, f.kind);
      }
      DropKeepsInv(cfg, s, t, id);
    }
  }

  lemma UnlinkStagedKeepsInv(cfg: Config, s: System, t: System, file: FileName)
    requires Inv(cfg, s) && CleaningUp(s, file.id) && t == s.(disk := s.disk.(files := s.disk.files - {file}))
    ensures Inv(cfg, t)
  {
    UnlinkKeepsInv(cfg, s, t, file);
  }

  lemma DropStagedKeepsInv(cfg: Config, s: System, t: System, id: JobId)
    requires Inv(cfg, s) && CleaningUp(s, id)
    requires FileName(id, Tmp) !in s.disk.files && FileName(id, Blob) !in s.disk.files
    requires t == s.(disk := s.disk.(jobs := s.disk.jobs - {id}), mem := s.mem.(writers := s.mem.writers - {id}))
    ensures Inv(cfg, t)
  {
    hide UniqueOk, SentOk, RequestsOk, PendingOk, BucketsOk, QuotaOk, LiveOk, PayloadsOk, FilesOwned;
    assert RowInv(s.disk.jobs[id]);
    forall f | f in s.disk.files ensures f.id != id {
      assert f == FileName(f.id, if f.kind == Tmp then Tmp else Blob);
    }
    DropKeepsInv(cfg, s, t, id);
  }

  /* ---------------------------------------------------------------- rows appear */

  lemma RowsAdded(jobs: Jobs, used: set<JobId>, sent: set<Attempt>, id: JobId, j: Job)
    requires RowsOk(jobs, used) && UniqueOk(jobs) && SentOk(jobs, sent) && id !in jobs && RowInv(j) && !Blocking(j)
    ensures RowsOk(jobs[id := j], used + {id}) && UniqueOk(jobs[id := j]) && SentOk(jobs[id := j], sent)
  {
    var after := jobs[id := j];
    forall i, l | i in after && l in after && i != l ensures !Competing(after[i], after[l]) {
      assert i != id && l != id ==> !Competing(jobs[i], jobs[l]);
    }
  }

  lemma TrafficAdded(jobs: Jobs, used: set<JobId>, live: Live, sent: set<Attempt>, requests: Requests,
                     pending: seq<Packet>, id: JobId, j: Job)
    requires RequestsOk(jobs, live, sent, requests) && PendingOk(jobs, used, sent, requests, pending)
    requires id !in jobs && id !in used
    ensures RequestsOk(jobs[id := j], live, sent, requests) &&
            PendingOk(jobs[id := j], used + {id}, sent, requests, pending)
  {
    forall i | i in requests ensures RequestOk(jobs[id := j], live, sent, i, requests[i]) {
      assert RequestOk(jobs, live, sent, i, requests[i]);
    }
    forall i | 0 <= i < |pending| ensures PacketOk(jobs[id := j], used + {id}, sent, requests, pending[i]) {
      assert PacketOk(jobs, used, sent, requests, pending[i]);
    }
  }

  lemma SpoolAdded(cfg: Config, jobs: Jobs, files: Files, writers: Writers, after: Writers, id: JobId, j: Job)
    requires PayloadsOk(jobs, files) && FilesOwned(jobs, files) && WritersOk(cfg, jobs, files, writers)
    requires id !in jobs && j.state == Staging && (after == writers || after == writers[id := Writing])
    ensures PayloadsOk(jobs[id := j], files) && FilesOwned(jobs[id := j], files) &&
            WritersOk(cfg, jobs[id := j], files, after)
  {
    forall i | i in after ensures WriterOk(cfg, jobs[id := j], files, i, after[i]) {
      if i in writers {
        assert WriterOk(cfg, jobs, files, i, writers[i]);
      }
    }
  }

  lemma ReservedAdded(jobs: Jobs, id: JobId, j: Job, tenant: Option<string>)
    requires id !in jobs
    ensures Reserved(jobs[id := j], tenant)
         == Reserved(jobs, tenant) + if tenant.None? || tenant == Some(j.identity.tenant) then j.reservedBytes else 0
  {
    ReservedPut(jobs, id, j, tenant);
  }

  lemma RowsOfAdded(jobs: Jobs, id: JobId, j: Job, tenant: string)
    requires id !in jobs
    ensures |RowsOf(jobs[id := j], tenant)| == |RowsOf(jobs, tenant)| + if tenant == j.identity.tenant then 1 else 0
  {
    assert RowsOf(jobs[id := j], tenant) == RowsOf(jobs, tenant) + if tenant == j.identity.tenant then {id} else {};
  }

  /** The quota check of admission is exactly what the sums need. */
  lemma QuotaAdded(cfg: Config, jobs: Jobs, id: JobId, j: Job)
    requires QuotaOk(cfg, jobs) && id !in jobs && |jobs| < cfg.maxJobs &&
             |RowsOf(jobs, j.identity.tenant)| < cfg.tenantJobs
    requires Reserved(jobs, None) + j.reservedBytes <= cfg.maxBytes
    requires Reserved(jobs, Some(j.identity.tenant)) + j.reservedBytes <= cfg.tenantBytes
    ensures QuotaOk(cfg, jobs[id := j])
  {
    hide RowsOf, Reserved;
    var after := jobs[id := j];
    ReservedAdded(jobs, id, j, None);
    forall tenant: string ensures Reserved(after, Some(tenant)) <= cfg.tenantBytes {
      ReservedAdded(jobs, id, j, Some(tenant));
    }
    forall tenant ensures |RowsOf(after, tenant)| <= cfg.tenantJobs {
      RowsOfAdded(jobs, id, j, tenant);
    }
    assert after.Keys == jobs.Keys + {id};
  }

  lemma ReserveKeepsInv(cfg: Config, s: System, t: System, step: Step)
    requires Inv(cfg, s) && s.mem.running && step.Reserve? && t == StepReserve(cfg, s, step)
    ensures Inv(cfg, t)
  {
    hide RowsOk, UniqueOk, SentOk, RequestsOk, PendingOk, BucketsOk, QuotaOk, LiveOk, PayloadsOk, FilesOwned,
         WritersOk, OldDebt;
    if t != s {
      var j := StagedRow(cfg, step.up, step.id, ReadClock(s.disk.clock, step.wall).value);
      RowsAdded(s.disk.jobs, s.past.used, s.past.sent, step.id, j);
      TrafficAdded(s.disk.jobs, s.past.used, s.mem.live, s.past.sent, s.mem.requests, s.mem.pending, step.id, j);
      SpoolAdded(cfg, s.disk.jobs, s.disk.files, s.mem.writers, t.mem.writers, step.id, j);
      QuotaAdded(cfg, s.disk.jobs, step.id, j);
    }
  }

  /* ---------------------------------------------------------------- publication */

  /** Publication starts to block only when no other row with the identity does. */
  lemma PublishedIsAlone(jobs: Jobs, used: set<JobId>, id: JobId, k: Job, now: Instant)
    requires RowsOk(jobs, used) && UniqueOk(jobs) && id in jobs && !HasReusable(jobs, k.identity, now)
    ensures UniqueOk(jobs[id := k])
  {
    var after := jobs[id := k];
    forall i, l | i in after && l in after && i != l ensures !Competing(after[i], after[l]) {
      if i != id && l != id {
        assert !Competing(jobs[i], jobs[l]);
      } else {
        ReusableIsBlocking(jobs[if i == id then l else i], now);
      }
    }
  }

  /** A staged row has no attempt, so nothing outside depends on its identity. */
  lemma TrafficPublished(jobs: Jobs, used: set<JobId>, live: Live, sent: set<Attempt>, requests: Requests,
                         pending: seq<Packet>, id: JobId, k: Job)
    requires SentOk(jobs, sent) && RequestsOk(jobs, live, sent, requests) &&
             PendingOk(jobs, used, sent, requests, pending)
    requires id in jobs && !Held(jobs[id]) && k.submissionVersion == jobs[id].submissionVersion
    ensures SentOk(jobs[id := k], sent) && RequestsOk(jobs[id := k], live, sent, requests)
    ensures PendingOk(jobs[id := k], used, sent, requests, pending)
  {
    forall i | i in requests ensures RequestOk(jobs[id := k], live, sent, i, requests[i]) {
      assert RequestOk(jobs, live, sent, i, requests[i]);
    }
    PendingKept(jobs, used, sent, requests, pending, id, k);
  }

  /** The published row takes over the blob its writer renamed into place. */
  lemma SpoolPublished(cfg: Config, jobs: Jobs, files: Files, writers: Writers, after: Writers, id: JobId, k: Job)
    requires cfg.Valid() && PayloadsOk(jobs, files) && FilesOwned(jobs, files) && WritersOk(cfg, jobs, files, writers)
    requires id in jobs && id in writers && writers[id].Renamed?
    requires k.state == Queued && k.payloadBytes == writers[id].size
    requires after == writers - {id} || after == writers[id := Stopping]
    ensures PayloadsOk(jobs[id := k], files) && FilesOwned(jobs[id := k], files) &&
            WritersOk(cfg, jobs[id := k], files, after)
  {
    assert WriterOk(cfg, jobs, files, id, writers[id]);
    forall i | i in after ensures WriterOk(cfg, jobs[id := k], files, i, after[i]) {
      if i != id {
        assert WriterOk(cfg, jobs, files, i, writers[i]);
      }
    }
  }

  lemma PublishKeepsInv(cfg: Config, s: System, t: System, id: JobId, verdict: string, wall: Instant, commit: Commit)
    requires cfg.Valid() && Inv(cfg, s) && s.mem.running && t == StepPublish(s, id, verdict, wall, commit)
    ensures Inv(cfg, t)
  {
    hide UniqueOk, SentOk, RequestsOk, PendingOk, BucketsOk, QuotaOk, LiveOk, PayloadsOk, FilesOwned, HasReusable;
    if t.disk == s.disk {
      FewerWritersKeepInv(cfg, s, t);
    } else {
      var w, j := s.mem.writers[id], s.disk.jobs[id];
      assert WriterOk(cfg, s.disk.jobs, s.disk.files, id, w) && RowInv(j);
      var k := Publish(j, w.digest, w.size, verdict);
      PublishRow(j, w.digest, w.size, verdict);
      RowsKept(s.disk.jobs, s.past.used, id, k);
      PublishedIsAlone(s.disk.jobs, s.past.used, id, k, ReadClock(s.disk.clock, wall).value);
      TrafficPublished(s.disk.jobs, s.past.used, s.mem.live, s.past.sent, s.mem.requests, s.mem.pending, id, k);
      SpoolPublished(cfg, s.disk.jobs, s.disk.files, s.mem.writers, t.mem.writers, id, k);
      QuotaKept(cfg, s.disk.jobs, id, k);
    }
  }

  /* ---------------------------------------------------------------- an attempt begins */

  lemma PendingAppended(jobs: Jobs, used: set<JobId>, sent: set<Attempt>, requests: Requests, pending: seq<Packet>,
                        p: Packet)
    requires PendingOk(jobs, used, sent, requests, pending) && PacketOk(jobs, used, sent, requests, p)
    ensures PendingOk(jobs, used, sent, requests, pending + [p])
  {
  }

  lemma PendingRemoved(jobs: Jobs, used: set<JobId>, sent: set<Attempt>, requests: Requests, pending: seq<Packet>,
                       k: nat)
    requires PendingOk(jobs, used, sent, requests, pending) && k < |pending|
    ensures PendingOk(jobs, used, sent, requests, Without(pending, k))
  {
    forall i | 0 <= i < |pending| - 1 ensures PacketOk(jobs, used, sent, requests, Without(pending, k)[i]) {
      assert PacketOk(jobs, used, sent, requests, pending[if i < k then i else i + 1]);
    }
  }

  lemma SubsetIsSmaller<T>(a: set<T>, b: set<T>)
    requires a <= b
    ensures |a| <= |b|
  {
    assert b == a + (b - a);
  }

  lemma LiveAdded(cfg: Config, live: Live, id: JobId, tenant: string)
    requires LiveOk(cfg, live)
    requires |live| < cfg.submissionConcurrency && |Owned(live, tenant)| < cfg.tenantSubmissionConcurrency
    ensures LiveOk(cfg, live[id := tenant])
  {
    var after := live[id := tenant];
    forall other ensures |Owned(after, other)| <= cfg.tenantSubmissionConcurrency {
      if other == tenant {
        assert Owned(after, other) == Owned(live, other) + {id};
      } else {
        SubsetIsSmaller(Owned(after, other), Owned(live, other));
      }
    }
    assert after.Keys == live.Keys + {id};
  }

  lemma LiveRemoved(cfg: Config, live: Live, id: JobId)
    requires LiveOk(cfg, live)
    ensures LiveOk(cfg, live - {id})
  {
    forall tenant ensures |Owned(live - {id}, tenant)| <= cfg.tenantSubmissionConcurrency {
      SubsetIsSmaller(Owned(live - {id}, tenant), Owned(live, tenant));
    }
    SubsetIsSmaller((live - {id}).Keys, live.Keys);
  }

  /** Requests look only at their own live entry. */
  lemma RequestsWithLive(jobs: Jobs, live: Live, after: Live, sent: set<Attempt>, requests: Requests, id: JobId)
    requires RequestsOk(jobs, live, sent, requests) && id !in requests
    requires forall i :: i in live && i != id ==> i in after && after[i] == live[i]
    ensures RequestsOk(jobs, after, sent, requests)
  {
    forall i | i in requests ensures RequestOk(jobs, after, sent, i, requests[i]) {
      assert RequestOk(jobs, live, sent, i, requests[i]);
    }
  }

  lemma RequestAdded(jobs: Jobs, live: Live, sent: set<Attempt>, requests: Requests, id: JobId, r: Request)
    requires RequestsOk(jobs, live, sent, requests) && RequestOk(jobs, live, sent, id, r)
    ensures RequestsOk(jobs, live, sent, requests[id := r])
  {
  }

  lemma BeginCases(cfg: Config, s: System, t: System, step: Step)
    requires step.BeginAttempt? && t == StepBegin(cfg, s, step)
    ensures || t == s
            || (t == s.(mem := s.mem.(pending := s.mem.pending + [BeginError(step.id, step.version)]))
                && step.id !in s.mem.requests)
            || (t.disk.clock.Some? && Begun(cfg, s, t, step.tenant, step.id, step.version, t.disk.clock.value)
                && BegunMemory(s.mem, t.mem, step.tenant, step.id, step.version))
  {
    hide BeginTx, TakeSubmission, Owned, Begin, Granted;
    if BeginTx(cfg, s.disk, s.mem.live, step.tenant, step.id, step.version, step.wall).Ok? {
      BeginTxBegins(cfg, s.disk, s.mem.live, step.tenant, step.id, step.version, step.wall);
    }
  }

  lemma BeginTxBegins(cfg: Config, disk: Disk, live: Live, tenant: string, id: JobId, version: int, wall: Instant)
    requires BeginTx(cfg, disk, live, tenant, id, version, wall).Ok?
    ensures var d := BeginTx(cfg, disk, live, tenant, id, version, wall).value;
            && id in disk.jobs && disk.jobs[id].state == Queued && disk.jobs[id].version == version
            && disk.jobs[id].identity.tenant == tenant
            && |live| < cfg.submissionConcurrency && |Owned(live, tenant)| < cfg.tenantSubmissionConcurrency
            && d.clock.Some? && TakeSubmission(cfg, disk.buckets, tenant, d.clock.value) == Ok(d.buckets)
            && d == Put(disk, id, Begin(disk.jobs[id], d.clock.value), d.clock.value).(buckets := d.buckets)
  {
    hide TakeSubmission, Owned, Begin;
  }

  /** What a begin transaction that was applied did to the disk. */
  ghost predicate Begun(cfg: Config, s: System, t: System, tenant: string, id: JobId, version: int, now: Instant) {
    && s.mem.pending == [] && id !in s.mem.requests
    && id in s.disk.jobs && s.disk.jobs[id].state == Queued && s.disk.jobs[id].version == version
    && s.disk.jobs[id].identity.tenant == tenant
    && |s.mem.live| < cfg.submissionConcurrency && |Owned(s.mem.live, tenant)| < cfg.tenantSubmissionConcurrency
    && TakeSubmission(cfg, s.disk.buckets, tenant, now) == Ok(t.disk.buckets)
    && t.disk == Put(s.disk, id, Begin(s.disk.jobs[id], now), now).(buckets := t.disk.buckets)
    && t.past == s.past.(grants :=
         Granted(Granted(Granted(s.past.grants, RequestBucket, now), SubmitBucket, now), TenantBucket(tenant), now))
  }

  /** What it did to memory: a request may exist only behind a committed and checkpointed begin. */
  ghost predicate BegunMemory(m: Memory, n: Memory, tenant: string, id: JobId, version: int) {
    var failed := m.(pending := m.pending + [BeginError(id, version)]);
    || n == m.(live := m.live[id := tenant], requests := m.requests[id := Request(version + 1, Authorized)])
    || n == failed.(live := m.live[id := tenant])
    || n == failed
  }

  /** A queued row never sent anything, so its new attempt is the first that can. */
  lemma TrafficBegun(jobs: Jobs, live: Live, sent: set<Attempt>, requests: Requests, id: JobId, k: Job)
    requires SentOk(jobs, sent) && RequestsOk(jobs, live, sent, requests) && id in jobs && !Held(jobs[id]) &&
             id !in requests
    ensures SentOk(jobs[id := k], sent) && RequestsOk(jobs[id := k], live, sent, requests) && NeverSent(sent, id)
  {
    forall i | i in requests ensures RequestOk(jobs[id := k], live, sent, i, requests[i]) {
      assert RequestOk(jobs, live, sent, i, requests[i]);
    }
  }

  lemma BegunKeepsDisk(cfg: Config, s: System, t: System, tenant: string, id: JobId, version: int, now: Instant)
    requires Inv(cfg, s) && Begun(cfg, s, t, tenant, id, version, now)
    ensures DiskOk(cfg, t) && WritersOk(cfg, t.disk.jobs, t.disk.files, s.mem.writers)
    ensures RequestsOk(t.disk.jobs, s.mem.live, s.past.sent, s.mem.requests)
    ensures Held(t.disk.jobs[id]) && t.disk.jobs[id].submissionVersion == version + 1 && NeverSent(s.past.sent, id)
    ensures t.disk.jobs[id].identity.tenant == tenant
  {
    hide UniqueOk, SentOk, RequestsOk, PendingOk, BucketsOk, QuotaOk, LiveOk, PayloadsOk, FilesOwned, WritersOk;
    var j, k := s.disk.jobs[id], Begin(s.disk.jobs[id], now);
    assert RowInv(j);
    BeginRow(j, now);
    RowsKept(s.disk.jobs, s.past.used, id, k);
    UniqueKept(s.disk.jobs, id, k);
    TrafficBegun(s.disk.jobs, s.mem.live, s.past.sent, s.mem.requests, id, k);
    SpoolKept(cfg, s.disk.jobs, s.disk.files, s.mem.writers, id, k);
    QuotaKept(cfg, s.disk.jobs, id, k);
    SubmissionKeepsBuckets(cfg, s.disk.buckets, s.past.grants, tenant, now);
  }

  lemma BegunKeepsMemory(cfg: Config, jobs: Jobs, used: set<JobId>, sent: set<Attempt>, m: Memory, n: Memory,
                         tenant: string, id: JobId, version: int)
    requires RequestsOk(jobs, m.live, sent, m.requests) && LiveOk(cfg, m.live) && m.pending == [] && id !in m.requests
    requires id in jobs && Held(jobs[id]) && jobs[id].submissionVersion == version + 1 && NeverSent(sent, id)
    requires jobs[id].identity.tenant == tenant
    requires |m.live| < cfg.submissionConcurrency && |Owned(m.live, tenant)| < cfg.tenantSubmissionConcurrency
    requires BegunMemory(m, n, tenant, id, version)
    ensures RequestsOk(jobs, n.live, sent, n.requests) && LiveOk(cfg, n.live)
    ensures PendingOk(jobs, used, sent, n.requests, n.pending)
  {
    hide RequestsOk, LiveOk, Held, NeverSent;
    if n.live != m.live {
      LiveAdded(cfg, m.live, id, tenant);
      RequestsWithLive(jobs, m.live, n.live, sent, m.requests, id);
    }
    if n.requests != m.requests {
      RequestAdded(jobs, n.live, sent, m.requests, id, Request(version + 1, Authorized));
    } else {
      assert n.pending == [BeginError(id, version)];
    }
  }

  lemma BegunKeepsInv(cfg: Config, s: System, t: System, tenant: string, id: JobId, version: int, now: Instant)
    requires Inv(cfg, s) && s.mem.running && Begun(cfg, s, t, tenant, id, version, now)
    requires BegunMemory(s.mem, t.mem, tenant, id, version)
    ensures Inv(cfg, t)
  {
    hide DiskOk, RequestsOk, PendingOk, LiveOk, WritersOk, NeverSent, Held;
    BegunKeepsDisk(cfg, s, t, tenant, id, version, now);
    BegunKeepsMemory(cfg, t.disk.jobs, s.past.used, s.past.sent, s.mem, t.mem, tenant, id, version);
  }

  lemma BeginKeepsInv(cfg: Config, s: System, t: System, step: Step)
    requires Inv(cfg, s) && s.mem.running && step.BeginAttempt? && t == StepBegin(cfg, s, step)
    ensures Inv(cfg, t)
  {
    hide RowsOk, UniqueOk, SentOk, RequestsOk, PendingOk, BucketsOk, QuotaOk, LiveOk, PayloadsOk, FilesOwned, WritersOk;
    hide StepBegin;
    BeginCases(cfg, s, t, step);
    if t == s {
    } else if t == s.(mem := s.mem.(pending := s.mem.pending + [BeginError(step.id, step.version)])) {
      PendingAppended(s.disk.jobs, s.past.used, s.past.sent, s.mem.requests, s.mem.pending,
                      BeginError(step.id, step.version));
    } else {
      BegunKeepsInv(cfg, s, t, step.tenant, step.id, step.version, t.disk.clock.value);
    }
  }

  /* ---------------------------------------------------------------- the request runs */

  lemma OpenKeepsInv(cfg: Config, s: System, t: System, id: JobId)
    requires Inv(cfg, s) && s.mem.running && t == StepOpen(s, id)
    ensures Inv(cfg, t)
  {
    hide RowsOk, UniqueOk, SentOk, BucketsOk, QuotaOk, LiveOk, PayloadsOk, FilesOwned, WritersOk;
    if t != s {
      assert RequestOk(s.disk.jobs, s.mem.live, s.past.sent, id, s.mem.requests[id]);
      RequestAdded(s.disk.jobs, s.mem.live, s.past.sent, s.mem.requests, id, t.mem.requests[id]);
      forall i | 0 <= i < |t.mem.pending|
        ensures PacketOk(t.disk.jobs, t.past.used, t.past.sent, t.mem.requests, t.mem.pending[i])
      {
        assert PacketOk(s.disk.jobs, s.past.used, s.past.sent, s.mem.requests, s.mem.pending[i]);
      }
    }
  }

  /** Sending is recorded against the row's latest attempt, behind which no other request hides. */
  lemma SendKeepsInv(cfg: Config, s: System, t: System, id: JobId)
    requires Inv(cfg, s) && s.mem.running && t == StepSend(s, id)
    ensures Inv(cfg, t)
  {
    hide RowsOk, UniqueOk, BucketsOk, QuotaOk, LiveOk, PayloadsOk, FilesOwned, WritersOk;
    if t != s {
      assert RequestOk(s.disk.jobs, s.mem.live, s.past.sent, id, s.mem.requests[id]);
      forall i | i in t.mem.requests
        ensures RequestOk(t.disk.jobs, t.mem.live, t.past.sent, i, t.mem.requests[i])
      {
        assert RequestOk(s.disk.jobs, s.mem.live, s.past.sent, i, s.mem.requests[i]);
      }
      forall i | 0 <= i < |t.mem.pending|
        ensures PacketOk(t.disk.jobs, t.past.used, t.past.sent, t.mem.requests, t.mem.pending[i])
      {
        assert PacketOk(s.disk.jobs, s.past.used, s.past.sent, s.mem.requests, s.mem.pending[i]);
      }
    }
  }

  lemma ReturnKeepsInv(cfg: Config, s: System, t: System, id: JobId, submission: Submission, outcome: Code)
    requires Inv(cfg, s) && s.mem.running && t == StepReturn(s, id, submission, outcome)
    ensures Inv(cfg, t)
  {
    hide UniqueOk, SentOk, BucketsOk, QuotaOk, LiveOk, PayloadsOk, FilesOwned, WritersOk;
    if t != s {
      assert RequestOk(s.disk.jobs, s.mem.live, s.past.sent, id, s.mem.requests[id]);
      forall i | i in t.mem.requests
        ensures RequestOk(t.disk.jobs, t.mem.live, t.past.sent, i, t.mem.requests[i])
      {
        assert RequestOk(s.disk.jobs, s.mem.live, s.past.sent, i, s.mem.requests[i]);
      }
      forall i | 0 <= i < |t.mem.pending|
        ensures PacketOk(t.disk.jobs, t.past.used, t.past.sent, t.mem.requests, t.mem.pending[i])
      {
        if i < |s.mem.pending| {
          assert PacketOk(s.disk.jobs, s.past.used, s.past.sent, s.mem.requests, s.mem.pending[i]);
        }
      }
    }
  }

  /* ---------------------------------------------------------------- the outcome is recorded */

  lemma RecordTxRecords(disk: Disk, d: Disk, id: JobId, version: int, s: Submission, outcome: Code, backoff: Instant,
                        wall: Instant)
    requires id in disk.jobs && RowInv(disk.jobs[id]) && RecordTx(disk, id, version, s, outcome, backoff, wall) == Ok(d)
    ensures version == disk.jobs[id].submissionVersion && RecordGuard(disk.jobs[id], version)
    ensures id in d.jobs && d.jobs == disk.jobs[id := d.jobs[id]] && Recorded(disk.jobs[id], d.jobs[id], s)
    ensures d.files == disk.files && d.buckets == disk.buckets
  {
    var j := disk.jobs[id];
    if ReadsClock(j, s, outcome) {
      RecordRow(j, s, outcome, backoff, wall, ReadClock(disk.clock, wall).value);
    } else {
      RecordRow(j, s, outcome, backoff, wall, 0);
    }
  }

  /** What persisting packet `k` did to memory. */
  ghost predicate PersistedMemory(m: Memory, n: Memory, id: JobId, k: nat)
    requires k < |m.pending|
  {
    || n == m
    || n == m.(live := m.live - {id})
    || n == m.(live := m.live - {id}, pending := Without(m.pending, k))
  }

  lemma PersistCases(s: System, t: System, step: Step)
    requires step.Persist? && step.k < |s.mem.pending| && s.mem.pending[step.k].id in s.disk.jobs
    requires t == StepPersist(s, step)
    ensures || t == s
            || t == s.(mem := s.mem.(pending := Without(s.mem.pending, step.k)))
            || (&& PacketTx(s.disk, s.mem.pending[step.k], step.backoff, step.wall) == Ok(t.disk) && t.past == s.past
                && PersistedMemory(s.mem, t.mem, s.mem.pending[step.k].id, step.k))
  {
  }

  /** Recording a truthful packet changes only its row. */
  lemma RecordedKeepsInv(cfg: Config, s: System, t: System, k: nat, backoff: Instant, wall: Instant)
    requires Inv(cfg, s) && k < |s.mem.pending| && s.mem.pending[k].id in s.disk.jobs
    requires PacketTx(s.disk, s.mem.pending[k], backoff, wall) == Ok(t.disk) && t.past == s.past && t.mem == s.mem
    ensures Inv(cfg, t) && s.mem.pending[k].id !in s.mem.requests
  {
    hide UniqueOk, SentOk, RequestsOk, BucketsOk, QuotaOk, LiveOk, PayloadsOk, FilesOwned, WritersOk, RecordTx;
    var p := s.mem.pending[k];
    assert PacketOk(s.disk.jobs, s.past.used, s.past.sent, s.mem.requests, p) && RowInv(s.disk.jobs[p.id]);
    RecordTxRecords(s.disk, t.disk, p.id, PacketVersion(s.disk.jobs[p.id], p), PacketSubmission(p), PacketOutcome(p),
                    backoff, wall);
    RowChangeKeepsInv(cfg, s, t, p.id, t.disk.jobs[p.id]);
  }

  lemma PersistKeepsInv(cfg: Config, s: System, t: System, step: Step)
    requires Inv(cfg, s) && s.mem.running
    requires step.Persist? && step.k < |s.mem.pending| && s.mem.pending[step.k].id in s.disk.jobs
    requires t == StepPersist(s, step)
    ensures Inv(cfg, t)
  {
    hide RowsOk, UniqueOk, SentOk, RequestsOk, PendingOk, BucketsOk, QuotaOk, LiveOk, PayloadsOk, FilesOwned, WritersOk;
    hide StepPersist, RecordTx;
    PersistCases(s, t, step);
    var id := s.mem.pending[step.k].id;
    if t == s {
    } else if t == s.(mem := s.mem.(pending := Without(s.mem.pending, step.k))) {
      PendingRemoved(s.disk.jobs, s.past.used, s.past.sent, s.mem.requests, s.mem.pending, step.k);
    } else {
      RecordedKeepsInv(cfg, s, t.(mem := s.mem), step.k, step.backoff, step.wall);
      if t.mem != s.mem {
        LiveRemoved(cfg, s.mem.live, id);
        RequestsWithLive(t.disk.jobs, s.mem.live, t.mem.live, s.past.sent, s.mem.requests, id);
        PendingRemoved(t.disk.jobs, s.past.used, s.past.sent, s.mem.requests, s.mem.pending, step.k);
      }
    }
  }

  /* ---------------------------------------------------------------- quiet steps */

  lemma UpdateRowKeepsInv(cfg: Config, s: System, t: System, id: JobId, op: RowOp, wall: Instant)
    requires Inv(cfg, s) && RowTx(s.disk, id, op, wall) == Ok(t.disk) && t.mem == s.mem && t.past == s.past
    ensures Inv(cfg, t)
  {
    hide UniqueOk, SentOk, RequestsOk, PendingOk, BucketsOk, QuotaOk, LiveOk, PayloadsOk, FilesOwned, WritersOk,
         RowOutcome;
    if t.disk != s.disk {
      assert RowInv(s.disk.jobs[id]);
      RowOpIsQuiet(op, s.disk.jobs[id], RowClock(op, s.disk.clock, wall).value);
      QuietKeepsInv(cfg, s, t, id, t.disk.jobs[id]);
    }
  }

  lemma ReadKeepsInv(cfg: Config, s: System, t: System, step: Step)
    requires Inv(cfg, s) && step.ReadRemote? && t == StepRead(cfg, s, step)
    ensures Inv(cfg, t)
  {
    hide UniqueOk, SentOk, RequestsOk, PendingOk, BucketsOk, QuotaOk, LiveOk, PayloadsOk, FilesOwned, WritersOk;
    if t != s {
      assert RowInv(s.disk.jobs[step.id]);
      ReserveReadIsQuiet(s.disk.jobs[step.id], step.delay, t.disk.clock.value);
      TakeKeepsBuckets(cfg, s.disk.buckets, s.past.grants, RequestBucket, t.disk.clock.value);
      QuietKeepsInv(cfg, s, t, step.id, t.disk.jobs[step.id]);
    }
  }

  lemma SpendKeepsInv(cfg: Config, s: System, t: System, wall: Instant)
    requires Inv(cfg, s) && t == StepSpend(cfg, s, wall)
    ensures Inv(cfg, t)
  {
    hide RowsOk, UniqueOk, SentOk, RequestsOk, PendingOk, BucketsOk, QuotaOk, LiveOk, PayloadsOk, FilesOwned, WritersOk;
    if t != s {
      TakeKeepsBuckets(cfg, s.disk.buckets, s.past.grants, RequestBucket, t.disk.clock.value);
    }
  }

  lemma RecoverAttemptKeepsInv(cfg: Config, s: System, t: System, id: JobId)
    requires Inv(cfg, s) && t == StepRecoverAttempt(s, id)
    ensures Inv(cfg, t)
  {
    hide UniqueOk, SentOk, RequestsOk, PendingOk, BucketsOk, QuotaOk, LiveOk, PayloadsOk, FilesOwned, WritersOk;
    if t != s {
      assert RowInv(s.disk.jobs[id]);
      MakeUncertainRow(s.disk.jobs[id]);
      QuietKeepsInv(cfg, s, t, id, MakeUncertain(s.disk.jobs[id]));
    }
  }

  lemma RecoverUnlinkKeepsInv(cfg: Config, s: System, t: System, file: FileName)
    requires Inv(cfg, s) && t == StepRecoverUnlink(s, file)
    ensures Inv(cfg, t)
  {
    if t != s {
      UnlinkKeepsInv(cfg, s, t, file);
    }
  }

  lemma CrashKeepsInv(cfg: Config, s: System)
    requires Inv(cfg, s)
    ensures Inv(cfg, s.(mem := COLD))
  {
    hide RowsOk, UniqueOk, SentOk, BucketsOk, QuotaOk, PayloadsOk, FilesOwned;
    forall tenant ensures |Owned(COLD.live, tenant)| <= cfg.tenantSubmissionConcurrency {
      assert Owned(COLD.live, tenant) == {};
    }
  }

  lemma AdmitKeepsInv(cfg: Config, s: System, t: System)
    requires Inv(cfg, s) && t == s.(disk := s.disk.(paused := t.disk.paused, clock := t.disk.clock))
    ensures Inv(cfg, t)
  {
    hide RowsOk, UniqueOk, SentOk, RequestsOk, PendingOk, BucketsOk, QuotaOk, LiveOk, PayloadsOk, FilesOwned, WritersOk;
  }
}
