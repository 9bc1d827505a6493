/** What startup recovery makes of the durable state. */
module CapeRecovery {
  import opened CapeJob
  import opened CapeProtocol
  import opened CapeRows
  import opened CapeInvariant
  import opened CapeSafety
  import CapePreservation

  /** Unpublished uploads go; an attempt that may have sent becomes a permanent barrier. */
  function RecoveredRows(jobs: map<JobId, Job>): map<JobId, Job> {
    map id | id in jobs && jobs[id].state != Staging ::
      if jobs[id].state == Submitting then MakeUncertain(jobs[id]) else jobs[id]
  }

  /** Only the payloads of queued and uncertain rows stay. */
  function RecoveredDisk(d: Disk): Disk {
    var rows := d.(jobs := RecoveredRows(d.jobs));
    rows.(files := map f | f in d.files && KeptByRecovery(rows, f) :: d.files[f])
  }

  /** Recovery of a recovered store changes nothing. */
  lemma RecoveryIsIdempotent(d: Disk)
    ensures RecoveredDisk(RecoveredDisk(d)) == RecoveredDisk(d)
  {
    assert RecoveredRows(RecoveredRows(d.jobs)) == RecoveredRows(d.jobs);
    assert RecoveredDisk(RecoveredDisk(d)).files == RecoveredDisk(d).files;
  }

  lemma RecoveredRowsMeet(jobs: map<JobId, Job>, id: JobId)
    requires id in RecoveredRows(jobs)
    ensures id in jobs && RecoveredRows(jobs)[id].state !in {Staging, Submitting}
    ensures RecoveredRows(jobs)[id].payloadBytes == jobs[id].payloadBytes
    ensures NeedsPayload(RecoveredRows(jobs)[id]) ==> NeedsPayload(jobs[id])
  {
  }

  /** From every state a crash can leave behind, recovery ends in a state that startup accepts. */
  lemma RecoveredIsAccepted(cfg: Config, s: System)
    requires cfg.Valid() && Inv(cfg, s)
    ensures RecoveryAccepts(RecoveredDisk(s.disk))
  {
    var d := RecoveredDisk(s.disk);
    SpoolIsSmall(cfg, s);
    assert d.jobs.Keys <= s.disk.jobs.Keys && d.files.Keys <= s.disk.files.Keys;
    CapePreservation.SubsetIsSmaller(d.jobs.Keys, s.disk.jobs.Keys);
    CapePreservation.SubsetIsSmaller(d.files.Keys, s.disk.files.Keys);
    forall id | id in d.jobs && (d.jobs[id].state == Queued || d.jobs[id].state == SubmitUncertain)
      ensures && FileName(id, Blob) in d.files && d.files[FileName(id, Blob)] == d.jobs[id].payloadBytes
              && 1 <= d.jobs[id].payloadBytes <= MAX_ATTACHMENT
    {
      RecoveredRowsMeet(s.disk.jobs, id);
      assert NeedsPayload(s.disk.jobs[id]);
    }
    forall f | f in d.files
      ensures KeptByRecovery(d, f) && d.files[f] == d.jobs[f.id].payloadBytes && 1 <= d.files[f] <= MAX_ATTACHMENT
    {
      assert f == FileName(f.id, Blob);
    }
    forall id | id in d.jobs ensures d.jobs[id].state != Staging && d.jobs[id].state != Submitting {
      RecoveredRowsMeet(s.disk.jobs, id);
    }
  }

  /* ---------------------------------------------------------------- one effect at a time */

  ghost predicate Replays(cfg: Config, s: System, trail: seq<Step>, d: Disk) {
    Run(cfg, s, trail) == s.(disk := d)
  }

  /** Removing a file that the recovered rows do not keep leaves the outcome of recovery alone. */
  lemma UnlinkKeepsOutcome(d: Disk, file: FileName)
    requires !KeptByRecovery(d.(jobs := RecoveredRows(d.jobs)), file)
    ensures RecoveredDisk(d.(files := d.files - {file})) == RecoveredDisk(d)
  {
    assert RecoveredDisk(d.(files := d.files - {file})).files == RecoveredDisk(d).files;
  }

  lemma DropKeepsOutcome(d: Disk, id: JobId)
    requires id in d.jobs && d.jobs[id].state == Staging
    ensures RecoveredDisk(d.(jobs := d.jobs - {id})) == RecoveredDisk(d)
  {
    assert RecoveredRows(d.jobs - {id}) == RecoveredRows(d.jobs);
  }

  lemma UncertainKeepsOutcome(d: Disk, id: JobId)
    requires id in d.jobs && d.jobs[id].state == Submitting
    ensures RecoveredDisk(d.(jobs := d.jobs[id := MakeUncertain(d.jobs[id])])) == RecoveredDisk(d)
  {
    assert RecoveredRows(d.jobs[id := MakeUncertain(d.jobs[id])]) == RecoveredRows(d.jobs);
  }

  /** Once no row is staged or submitting and every file is kept, the disk is the recovered one. */
  lemma NothingLeftToRecover(d: Disk)
    requires forall id :: id in d.jobs ==> d.jobs[id].state != Staging && d.jobs[id].state != Submitting
    requires forall f :: f in d.files ==> KeptByRecovery(d, f)
    ensures RecoveredDisk(d) == d
  {
    assert RecoveredRows(d.jobs) == d.jobs;
    assert RecoveredDisk(d).files == d.files;
  }

  lemma ReplayOneMore(cfg: Config, s: System, trail: seq<Step>, d: Disk, step: Step, e: Disk)
    requires Replays(cfg, s, trail, d) && Apply(cfg, s.(disk := d), step) == s.(disk := e)
    ensures Replays(cfg, s, trail + [step], e)
  {
    hide Apply;
    RunThen(cfg, s, trail, step);
  }

  lemma IsReplay(cfg: Config, s: System, trail: seq<Step>, d: Disk)
    requires Run(cfg, s, trail) == s.(disk := d)
    ensures Replays(cfg, s, trail, d)
  {
  }

  lemma StandStill(cfg: Config, s: System)
    ensures Replays(cfg, s, [], s.disk)
  {
  }

  /** An unpublished upload is cleaned up at startup, or by its writer once that has stopped. */
  predicate MayClean(mem: Memory, id: JobId) {
    !mem.running || (id in mem.writers && mem.writers[id].Stopping?)
  }

  lemma UnlinkStagedReplays(cfg: Config, s: System, trail: seq<Step>, d: Disk, file: FileName)
    requires MayClean(s.mem, file.id) && Replays(cfg, s, trail, d) && file.id in d.jobs &&
             d.jobs[file.id].state == Staging
    ensures Replays(cfg, s, trail + [UnlinkStaged(file)], d.(files := d.files - {file}))
  {
    hide Replays;
    ReplayOneMore(cfg, s, trail, d, UnlinkStaged(file), d.(files := d.files - {file}));
  }

  lemma DropRuns(cfg: Config, s: System, trail: seq<Step>, d: Disk, id: JobId)
    requires MayClean(s.mem, id) && Replays(cfg, s, trail, d) && id in d.jobs && d.jobs[id].state == Staging
    requires FileName(id, Tmp) !in d.files && FileName(id, Blob) !in d.files
    ensures Run(cfg, s, trail + [DropStaged(id)])
         == s.(disk := d.(jobs := d.jobs - {id}), mem := s.mem.(writers := s.mem.writers - {id}))
  {
    RunThen(cfg, s, trail, DropStaged(id));
  }

  /** A cold memory has no writers to close. */
  lemma ColdHasNoWriters(cfg: Config, s: System, trail: seq<Step>, d: Disk, id: JobId)
    requires s.mem == COLD && Run(cfg, s, trail) == s.(disk := d, mem := s.mem.(writers := s.mem.writers - {id}))
    ensures Replays(cfg, s, trail, d)
  {
    assert COLD.writers - {id} == COLD.writers;
  }

  lemma UncertainReplays(cfg: Config, s: System, trail: seq<Step>, d: Disk, id: JobId)
    requires s.mem == COLD && Replays(cfg, s, trail, d) && id in d.jobs && d.jobs[id].state == Submitting
    ensures Replays(cfg, s, trail + [RecoverAttempt(id)], d.(jobs := d.jobs[id := MakeUncertain(d.jobs[id])]))
  {
    hide Replays, MakeUncertain;
    ReplayOneMore(cfg, s, trail, d, RecoverAttempt(id), d.(jobs := d.jobs[id := MakeUncertain(d.jobs[id])]));
  }

  lemma StrayReplays(cfg: Config, s: System, trail: seq<Step>, d: Disk, file: FileName)
    requires s.mem == COLD && Replays(cfg, s, trail, d) && !KeptByRecovery(d, file)
    requires file.id in d.jobs ==> d.jobs[file.id].state != Submitting
    ensures Replays(cfg, s, trail + [RecoverUnlink(file)], d.(files := d.files - {file}))
  {
    hide Replays, KeptByRecovery;
    if file !in d.files {
      assert d.files - {file} == d.files;
    }
    ReplayOneMore(cfg, s, trail, d, RecoverUnlink(file), d.(files := d.files - {file}));
  }

  lemma StagedFilesGo(d: Disk, file: FileName)
    requires file.id in d.jobs && d.jobs[file.id].state == Staging
    ensures !KeptByRecovery(d.(jobs := RecoveredRows(d.jobs)), file)
  {
  }

  lemma SpentFilesGo(d: Disk, id: JobId)
    requires id in d.jobs && NeedsNoPayload(d.jobs[id].state)
    ensures !KeptByRecovery(d.(jobs := RecoveredRows(d.jobs)), FileName(id, Blob)) &&
            !KeptByRecovery(d, FileName(id, Blob))
  {
  }

  lemma NothingInFlight(d: Disk, file: FileName)
    requires forall id :: id in d.jobs ==> d.jobs[id].state != Staging && d.jobs[id].state != Submitting
    requires !KeptByRecovery(d, file)
    ensures !KeptByRecovery(d.(jobs := RecoveredRows(d.jobs)), file)
  {
    assert RecoveredRows(d.jobs) == d.jobs;
  }

  lemma SpoolFits(cfg: Config, s: System, trail: seq<Step>, d: Disk)
    requires cfg.Valid() && Inv(cfg, s) && Replays(cfg, s, trail, d)
    ensures |d.files| <= 20000
  {
    hide Inv;
    RunKeepsInv(cfg, s, trail);
    SpoolIsSmall(cfg, s.(disk := d));
  }

  lemma KeptFilesMatch(cfg: Config, s: System, trail: seq<Step>, d: Disk, file: FileName)
    requires cfg.Valid() && Inv(cfg, s) && Replays(cfg, s, trail, d) && file in d.files && KeptByRecovery(d, file)
    ensures d.files[file] == d.jobs[file.id].payloadBytes && 1 <= d.jobs[file.id].payloadBytes <= MAX_ATTACHMENT
  {
    RunKeepsInv(cfg, s, trail);
    assert NeedsPayload(d.jobs[file.id]) && file == FileName(file.id, Blob);
  }
}
