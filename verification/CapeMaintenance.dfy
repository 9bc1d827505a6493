/** What one maintenance pass does to the rows and the spool, and why it is a run of protocol steps. */
module CapeMaintenance {
  import opened Basics
  import opened CapeJob
  import opened CapeProtocol
  import opened CapeRows
  import opened CapeSafety
  import opened CapeTransitions

  /** The rows after the deadline pass over `batch`. */
  function ExpiredRows(jobs: map<JobId, Job>, batch: seq<JobId>, now: Instant): map<JobId, Job> {
    if batch == [] then jobs
    else
      var rows, id := ExpiredRows(jobs, batch[..|batch| - 1], now), batch[|batch| - 1];
      if id in rows then rows[id := Expire(rows[id], now)] else rows
  }

  /** The rows after the cleanup pass over `batch`. */
  function CleanedRows(jobs: map<JobId, Job>, batch: seq<JobId>, now: Instant): map<JobId, Job> {
    if batch == [] then jobs
    else CleanedRow(CleanedRows(jobs, batch[..|batch| - 1], now), batch[|batch| - 1], now)
  }

  function CleanedRow(rows: map<JobId, Job>, id: JobId, now: Instant): map<JobId, Job> {
    if id !in rows || !Terminal(rows[id].state) || !RetentionElapsed(rows[id], now) then rows
    else if Forgettable(rows[id]) then rows - {id}
    else rows[id := Minimize(rows[id])]
  }

  /** The payloads of the rows in `batch` that never need their bytes again. */
  function SpentPayloads(jobs: map<JobId, Job>, batch: seq<JobId>): set<FileName> {
    set id | id in batch && id in jobs && NeedsNoPayload(jobs[id].state) :: FileName(id, Blob)
  }

  /* ---------------------------------------------------------------- what the passes achieve */

  /** The deadline pass expires exactly the overdue rows of its batch. */
  lemma {:induction false} ExpiresTheOverdue(jobs: map<JobId, Job>, batch: seq<JobId>, now: Instant, id: JobId)
    requires id in jobs
    ensures id in ExpiredRows(jobs, batch, now)
    ensures ExpiredRows(jobs, batch, now)[id] == if id in batch then Expire(jobs[id], now) else jobs[id]
    ensures RowInv(jobs[id]) ==>
              if id in batch && Overdue(jobs[id], now)
              then Ended(jobs[id], ExpiredRows(jobs, batch, now)[id], Expired, Deadline, now)
              else ExpiredRows(jobs, batch, now)[id] == jobs[id]
  {
    hide RowInv, Ended, Overdue;
    if RowInv(jobs[id]) {
      ExpiresExactly(jobs[id], now);
    }
    if batch != [] {
      var front, last := batch[..|batch| - 1], batch[|batch| - 1];
      ExpiresTheOverdue(jobs, front, now, id);
      assert batch == front + [last];
    }
  }

  lemma {:induction false} CleaningKeepsStates(jobs: map<JobId, Job>, batch: seq<JobId>, now: Instant, id: JobId)
    requires id in CleanedRows(jobs, batch, now)
    ensures id in jobs && CleanedRows(jobs, batch, now)[id].state == jobs[id].state
  {
    if batch != [] {
      CleaningKeepsStates(jobs, batch[..|batch| - 1], now, id);
    }
  }

  /** A row vanishes only when its retention is over and nothing remote can be owed for it; a row that
      still owes loses its result and its verdict but keeps its barrier. */
  lemma {:induction false} CleansExactly(jobs: map<JobId, Job>, batch: seq<JobId>, now: Instant, id: JobId)
    requires id in jobs
    ensures var over := id in batch && Terminal(jobs[id].state) && RetentionElapsed(jobs[id], now);
            var rows := CleanedRows(jobs, batch, now);
            && (id !in rows <==> over && Forgettable(jobs[id]))
            && (id in rows ==> rows[id] == if over then Minimize(jobs[id]) else jobs[id])
  {
    if batch != [] {
      var front, last := batch[..|batch| - 1], batch[|batch| - 1];
      CleansExactly(jobs, front, now, id);
      assert batch == front + [last];
    }
  }

  /** After a day a terminal row is gone, unless something remote may be owed for it; then its result and its verdict
      are gone, and its barrier stays. */
  lemma RetentionDecides(jobs: map<JobId, Job>, batch: seq<JobId>, now: Instant, id: JobId)
    requires id in jobs && RowInv(jobs[id])
    ensures var j, rows := jobs[id], CleanedRows(jobs, batch, now);
            var over := id in batch && Terminal(j.state) && j.terminalAt.value + 24 * HOUR <= now;
            && (id !in rows <==> over && !j.dedupBarrier)
            && (over && j.dedupBarrier ==>
                  && rows[id].result.None? && rows[id].suppressed && rows[id].staticVerdict == ""
                  && rows[id] == j.(result := None, suppressed := true, staticVerdict := "",
                                    version := rows[id].version))
            && (!over ==> rows[id] == j)
  {
    CleansExactly(jobs, batch, now, id);
    ForgettableExactly(jobs[id]);
    MinimizesExactly(jobs[id]);
  }

  lemma {:induction false} LostRowsAreSpent(jobs: map<JobId, Job>, batch: seq<JobId>, now: Instant, id: JobId)
    requires id in jobs && id !in CleanedRows(jobs, batch, now)
    ensures FileName(id, Blob) in SpentPayloads(jobs, batch)
  {
    CleansExactly(jobs, batch, now, id);
  }

  lemma ExpireOneMore(jobs: map<JobId, Job>, batch: seq<JobId>, now: Instant, i: nat)
    requires i < |batch|
    ensures var rows := ExpiredRows(jobs, batch[..i], now);
            ExpiredRows(jobs, batch[..i + 1], now)
            == if batch[i] in rows then rows[batch[i] := Expire(rows[batch[i]], now)] else rows
    ensures batch[i] in ExpiredRows(jobs, batch[..i], now) &&
            !DeadlinePassed(ExpiredRows(jobs, batch[..i], now)[batch[i]], now)
            ==> ExpiredRows(jobs, batch[..i + 1], now) == ExpiredRows(jobs, batch[..i], now)
  {
    assert batch[..i + 1][..i] == batch[..i];
  }

  lemma CleanOneMore(jobs: map<JobId, Job>, batch: seq<JobId>, now: Instant, i: nat)
    requires i < |batch|
    ensures var rows := CleanedRows(jobs, batch[..i], now);
            && CleanedRows(jobs, batch[..i + 1], now) == CleanedRow(rows, batch[i], now)
            && SpentPayloads(jobs, batch[..i + 1]) ==
               SpentPayloads(jobs, batch[..i])
               + (if batch[i] in rows && NeedsNoPayload(rows[batch[i]].state) then {FileName(batch[i], Blob)} else {})
  {
    assert batch[..i + 1][..i] == batch[..i];
    assert batch[..i + 1] == batch[..i] + [batch[i]];
    var rows := CleanedRows(jobs, batch[..i], now);
    if batch[i] in rows {
      CleaningKeepsStates(jobs, batch[..i], now, batch[i]);
    } else if batch[i] in jobs {
      LostRowsAreSpent(jobs, batch[..i], now, batch[i]);
    }
  }

  /* ---------------------------------------------------------------- the passes as runs */

  function ExpireSteps(batch: seq<JobId>, now: Instant): seq<Step> {
    if batch == [] then [] else ExpireSteps(batch[..|batch| - 1], now) + [UpdateRow(batch[|batch| - 1], ExpireRow, now)]
  }

  function UnlinkSteps(batch: seq<JobId>): seq<Step> {
    if batch == [] then [] else UnlinkSteps(batch[..|batch| - 1]) + [UnlinkPayload(batch[|batch| - 1])]
  }

  function CleanSteps(batch: seq<JobId>, now: Instant): seq<Step> {
    if batch == [] then []
    else
      var id := batch[|batch| - 1];
      CleanSteps(batch[..|batch| - 1], now) + [UnlinkPayload(id)] + [Forget(id, now)] +
        [UpdateRow(id, MinimizeRow, now)]
  }

  lemma {:induction false} ExpirePassRuns(cfg: Config, s: System, batch: seq<JobId>, now: Instant)
    requires s.mem.running && s.disk.clock == Some(now)
    ensures Run(cfg, s, ExpireSteps(batch, now)) == s.(disk := s.disk.(jobs := ExpiredRows(s.disk.jobs, batch, now)))
  {
    if batch != [] {
      var front, id := batch[..|batch| - 1], batch[|batch| - 1];
      ExpirePassRuns(cfg, s, front, now);
      RunThen(cfg, s, ExpireSteps(front, now), UpdateRow(id, ExpireRow, now));
    }
  }

  function Spent(jobs: map<JobId, Job>, id: JobId): set<FileName> {
    if id in jobs && NeedsNoPayload(jobs[id].state) then {FileName(id, Blob)} else {}
  }

  lemma UnlinkRuns(cfg: Config, s: System, id: JobId)
    requires s.mem.running
    ensures Apply(cfg, s, UnlinkPayload(id)) == s.(disk := s.disk.(files := s.disk.files - Spent(s.disk.jobs, id)))
  {
    assert s.disk.files - {} == s.disk.files;
  }

  lemma {:induction false} UnlinkPassRuns(cfg: Config, s: System, batch: seq<JobId>)
    requires s.mem.running
    ensures Run(cfg, s, UnlinkSteps(batch))
            == s.(disk := s.disk.(files := s.disk.files - SpentPayloads(s.disk.jobs, batch)))
  {
    hide Apply, NeedsNoPayload;
    if batch == [] {
      assert s.disk.files - SpentPayloads(s.disk.jobs, batch) == s.disk.files;
    } else {
      var front, id := batch[..|batch| - 1], batch[|batch| - 1];
      UnlinkPassRuns(cfg, s, front);
      RunThen(cfg, s, UnlinkSteps(front), UnlinkPayload(id));
      UnlinkRuns(cfg, Run(cfg, s, UnlinkSteps(front)), id);
      assert batch == front + [id];
      assert SpentPayloads(s.disk.jobs, batch) == SpentPayloads(s.disk.jobs, front) + Spent(s.disk.jobs, id);
      assert s.disk.files - SpentPayloads(s.disk.jobs, batch)
          == s.disk.files - SpentPayloads(s.disk.jobs, front) - Spent(s.disk.jobs, id);
    }
  }

  lemma RetireRuns(cfg: Config, s: System, id: JobId, now: Instant)
    requires s.mem.running && s.disk.clock == Some(now)
    requires id in s.disk.jobs && NeedsNoPayload(s.disk.jobs[id].state) ==> FileName(id, Blob) !in s.disk.files
    ensures Apply(cfg, Apply(cfg, s, Forget(id, now)), UpdateRow(id, MinimizeRow, now))
            == s.(disk := s.disk.(jobs := CleanedRow(s.disk.jobs, id, now)))
  {
    hide Minimize;
    if id in s.disk.jobs {
      assert s.disk.jobs[id := s.disk.jobs[id]] == s.disk.jobs;
    }
  }

  /** One row of the cleanup pass: unlink first, then forget or minimize. */
  lemma CleanRowRuns(cfg: Config, s: System, id: JobId, now: Instant)
    requires s.mem.running && s.disk.clock == Some(now)
    ensures Apply(cfg, Apply(cfg, Apply(cfg, s, UnlinkPayload(id)), Forget(id, now)), UpdateRow(id, MinimizeRow, now))
            == s.(disk := s.disk.(jobs := CleanedRow(s.disk.jobs, id, now),
                                  files := s.disk.files - Spent(s.disk.jobs, id)))
  {
    hide Apply, CleanedRow;
    UnlinkRuns(cfg, s, id);
    RetireRuns(cfg, Apply(cfg, s, UnlinkPayload(id)), id, now);
  }

  lemma {:induction false} CleanPassRuns(cfg: Config, s: System, batch: seq<JobId>, now: Instant)
    requires s.mem.running && s.disk.clock == Some(now)
    ensures Run(cfg, s, CleanSteps(batch, now)) ==
            s.(disk := s.disk.(jobs := CleanedRows(s.disk.jobs, batch, now),
                               files := s.disk.files - SpentPayloads(s.disk.jobs, batch)))
  {
    hide Apply, CleanedRow, NeedsNoPayload;
    if batch == [] {
      assert s.disk.files - SpentPayloads(s.disk.jobs, batch) == s.disk.files;
    } else {
      var front, id := batch[..|batch| - 1], batch[|batch| - 1];
      var steps := CleanSteps(front, now);
      CleanPassRuns(cfg, s, front, now);
      var t := Run(cfg, s, steps);
      RunThen(cfg, s, steps, UnlinkPayload(id));
      RunThen(cfg, s, steps + [UnlinkPayload(id)], Forget(id, now));
      RunThen(cfg, s, steps + [UnlinkPayload(id)] + [Forget(id, now)], UpdateRow(id, MinimizeRow, now));
      CleanRowRuns(cfg, t, id, now);
      CleanOneMore(s.disk.jobs, batch, now, |front|);
      assert batch[..|batch|] == batch;
      assert s.disk.files - SpentPayloads(s.disk.jobs, batch)
          == s.disk.files - SpentPayloads(s.disk.jobs, front) - Spent(t.disk.jobs, id);
    }
  }

  /** The deadline transaction: read the clock, then expire. */
  lemma DeadlinePassReplays(cfg: Config, s: System, batch: seq<JobId>, wall: Instant, now: Instant)
    requires s.mem.running && ReadClock(s.disk.clock, wall) == Ok(now)
    ensures Run(cfg, s, [Tick(wall)] + ExpireSteps(batch, now))
            == s.(disk := s.disk.(clock := Some(now), jobs := ExpiredRows(s.disk.jobs, batch, now)))
  {
    hide ExpiredRows, ExpireSteps;
    var t := Apply(cfg, s, Tick(wall));
    ExpirePassRuns(cfg, t, batch, now);
    assert ([Tick(wall)] + ExpireSteps(batch, now))[1..] == ExpireSteps(batch, now);
  }
}
