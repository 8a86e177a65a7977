/** Every action of the OCR queue keeps it safe. */
module OcrSteps {
  import opened Prelude
  import opened IdCodec
  import opened OcrJobs
  import opened OcrSystem
  import opened OcrSafety

  // ---- transitions keep a job consistent -----------------------------------------------------

  lemma ClaimedMoves(job: Job, now: int)
    requires JobConsistent(job) && job.status == Queued && RowAccepted(Claimed(job, now))
    ensures JobConsistent(Claimed(job, now))
    ensures Moves(job, Claimed(job, now), Claiming, job.attempts + 1)
  {}

  lemma InterruptedMoves(job: Job, now: int)
    requires JobConsistent(job) && job.status == Running && RowAccepted(Interrupted(job, now))
    ensures JobConsistent(Interrupted(job, now))
    ensures Moves(job, Interrupted(job, now), Interrupting, job.attempts)
  {}

  lemma WithdrawnMoves(job: Job, now: int)
    requires JobConsistent(job) && job.status == Queued && RowAccepted(CancelledWhileQueued(job, now))
    ensures JobConsistent(CancelledWhileQueued(job, now))
    ensures Moves(job, CancelledWhileQueued(job, now), Withdrawing, job.attempts)
  {}

  lemma RetriedMoves(job: Job, now: int)
    requires JobConsistent(job) && RetryEligible(job) && RowAccepted(RetriedByHand(job, now))
    ensures JobConsistent(RetriedByHand(job, now))
    ensures Moves(job, RetriedByHand(job, now), Retrying, job.attempts)
  {}

  lemma FinishedMoves(job: Job, runId: Id, run: Run, retryable: bool, now: int, kind: EventKind)
    requires JobConsistent(job) && job.status == Running && !job.cancel
    requires RunAccepted(run.status, run.text, run.reason, run.message)
    requires RowAccepted(Finished(job, runId, run, retryable, now))
    requires kind == Recording || kind == Completing
    ensures JobConsistent(Finished(job, runId, run, retryable, now))
    ensures Moves(job, Finished(job, runId, run, retryable, now), kind, job.attempts)
    ensures Finished(job, runId, run, retryable, now).status == Recognized <==> run.status != RunUnavailable
    ensures Finished(job, runId, run, retryable, now).lastRun == Some(runId)
    ensures Finished(job, runId, run, retryable, now).input == job.input
  {}

  lemma DroppedMoves(job: Job, provider: Provider, now: int)
    requires JobConsistent(job) && job.status == Running
    requires RowAccepted(CancelledAtCommit(job, provider, now))
    ensures JobConsistent(CancelledAtCommit(job, provider, now))
    ensures Moves(job, CancelledAtCommit(job, provider, now), Dropping, job.attempts)
  {}

  lemma CompletedMoves(job: Job, runId: Id, run: Run, retryable: bool, now: int)
    requires JobConsistent(job) && job.status == Running
    requires RunAccepted(run.status, run.text, run.reason, run.message)
    requires RowAccepted(Completed(job, runId, run, retryable, now))
    ensures JobConsistent(Completed(job, runId, run, retryable, now))
    ensures Moves(job, Completed(job, runId, run, retryable, now), Completing, job.attempts)
    ensures Completed(job, runId, run, retryable, now).input == job.input
    ensures Completed(job, runId, run, retryable, now).status == Recognized ==>
              run.status != RunUnavailable && Completed(job, runId, run, retryable, now).lastRun == Some(runId)
  {
    if !(job.cancel || run.reason == Some(CancelledByUser)) {
      FinishedMoves(job, runId, run, retryable, now, Completing);
    }
  }

  // ---- results -------------------------------------------------------------------------------

  lemma MoveKeepsOwner(r: Id, d: Delivery, runs: Runs, jobs: Jobs, id: Id, job': Job, kind: EventKind, attempt: nat)
    requires id in jobs && Moves(jobs[id], job', kind, attempt) && job'.input == jobs[id].input
    requires DeliveryOwned(r, d, runs, jobs)
    ensures DeliveryOwned(r, d, runs, jobs[id := job'])
  {}

  /** A job that moves without a finalize writing results. */
  lemma MoveKeepsResults(s: State, id: Id, job': Job, kind: EventKind, attempt: nat)
    requires ResultsSafe(s) && id in s.jobs
    requires Moves(s.jobs[id], job', kind, attempt) && job'.input == s.jobs[id].input
    requires RecognizedNamesText(job', s.runs)
    ensures ResultsSafe(Logged(WithJob(s, id, job'), id, kind, attempt))
  {
    var s' := Logged(WithJob(s, id, job'), id, kind, attempt);
    forall r | r in s.deliveries
      ensures DeliveryOwned(r, s.deliveries[r], s.runs, s'.jobs)
    {
      MoveKeepsOwner(r, s.deliveries[r], s.runs, s.jobs, id, job', kind, attempt);
    }
  }

  lemma MoveStep(s: State, id: Id, job': Job, kind: EventKind, attempt: nat)
    requires Safe(s) && id in s.jobs
    requires JobConsistent(job') && Moves(s.jobs[id], job', kind, attempt)
    requires job'.input == s.jobs[id].input
    requires kind == Claiming ==> NoneRunning(s.jobs)
    requires kind == Retrying ==> ScanIdle(s.jobs, s.jobs[id].input.scan)
    requires RecognizedNamesText(job', s.runs)
    ensures Safe(Logged(WithJob(s, id, job'), id, kind, attempt))
  {
    MoveKeepsQueue(s.jobs, s.log, id, job', kind, attempt);
    MoveKeepsResults(s, id, job', kind, attempt);
  }

  lemma InsertKeepsResults(s: State, id: Id, input: Input, now: int)
    requires ResultsSafe(s) && id !in s.jobs
    ensures ResultsSafe(Logged(WithJob(s, id, NewJob(input, now)), id, Queuing, 0))
  {
    var jobs' := s.jobs[id := NewJob(input, now)];
    forall r | r in s.deliveries
      ensures DeliveryOwned(r, s.deliveries[r], s.runs, jobs')
    {
      assert DeliveryOwned(r, s.deliveries[r], s.runs, s.jobs);
    }
  }

  lemma EnqueueStep(s: State, id: Id, input: Input, now: int)
    requires Safe(s) && Allowed(s, Enqueue(id, input, now))
    ensures Safe(Next(s, Enqueue(id, input, now)))
  {
    InsertKeepsQueue(s.jobs, s.log, id, input, now);
    InsertKeepsResults(s, id, input, now);
  }

  lemma SoundJob(s: State, id: Id)
    requires Safe(s) && id in s.jobs
    ensures JobSound(s.jobs[id], id, s.log)
  {
    assert JobSound(s.jobs[id], id, s.log);
  }

  lemma InterruptStep(s: State, id: Id, now: int)
    requires Safe(s) && Allowed(s, Interrupt(id, now))
    ensures Safe(Next(s, Interrupt(id, now)))
  {
    SoundJob(s, id);
    InterruptedMoves(s.jobs[id], now);
    MoveStep(s, id, Interrupted(s.jobs[id], now), Interrupting, s.jobs[id].attempts);
  }

  lemma ClaimStep(s: State, id: Id, now: int)
    requires Safe(s) && Allowed(s, Claim(id, now))
    ensures Safe(Next(s, Claim(id, now)))
  {
    var job := s.jobs[id];
    SoundJob(s, id);
    ClaimedMoves(job, now);
    MoveStep(s, id, Claimed(job, now), Claiming, job.attempts + 1);
  }

  lemma RetryStep(s: State, id: Id, now: int)
    requires Safe(s) && Allowed(s, RetryByHand(id, now))
    ensures Safe(Next(s, RetryByHand(id, now)))
  {
    SoundJob(s, id);
    RetriedMoves(s.jobs[id], now);
    MoveStep(s, id, RetriedByHand(s.jobs[id], now), Retrying, s.jobs[id].attempts);
  }

  lemma CancelStep(s: State, id: Id, now: int)
    requires Safe(s) && Allowed(s, RequestCancel(id, now))
    ensures Safe(Next(s, RequestCancel(id, now)))
  {
    SoundJob(s, id);
    var job := s.jobs[id];
    if job.status == Queued {
      WithdrawnMoves(job, now);
      MoveStep(s, id, CancelledWhileQueued(job, now), Withdrawing, job.attempts);
    } else {
      FlagKeepsQueue(s.jobs, s.log, id, now);
      FlagKeepsResults(s, id, now);
    }
  }

  lemma FlagKeepsResults(s: State, id: Id, now: int)
    requires ResultsSafe(s) && id in s.jobs && s.jobs[id].status == Running
    ensures ResultsSafe(WithJob(s, id, Flagged(s.jobs[id], now)))
  {
    var s' := WithJob(s, id, Flagged(s.jobs[id], now));
    forall r | r in s.deliveries
      ensures DeliveryOwned(r, s.deliveries[r], s.runs, s'.jobs)
    {
      assert DeliveryOwned(r, s.deliveries[r], s.runs, s.jobs);
    }
  }

  lemma CompleteStep(s: State, a: Action)
    requires Safe(s) && a.Complete? && Allowed(s, a)
    ensures Safe(Next(s, a))
  {
    SoundJob(s, a.id);
    var job, run := s.jobs[a.id], s.runs[a.runId];
    CompletedMoves(job, a.runId, run, a.retryable, a.now);
    MoveStep(s, a.id, Completed(job, a.runId, run, a.retryable, a.now), Completing, job.attempts);
  }

  lemma NewRunKeepsResults(s: State, runId: Id, run: Run)
    requires ResultsSafe(s) && runId !in s.runs && runId !in s.deliveries
    requires RunAccepted(run.status, run.text, run.reason, run.message)
    ensures ResultsSafe(s.(runs := s.runs[runId := run]))
  {
    var runs' := s.runs[runId := run];
    forall r | r in s.deliveries
      ensures DeliveryKept(r, s.deliveries[r], runs', s.regions)
      ensures DeliveryOwned(r, s.deliveries[r], runs', s.jobs)
    {
      assert DeliveryKept(r, s.deliveries[r], s.runs, s.regions);
      assert DeliveryOwned(r, s.deliveries[r], s.runs, s.jobs);
    }
    forall id | id in s.jobs
      ensures RecognizedNamesText(s.jobs[id], runs')
    {
      assert RecognizedNamesText(s.jobs[id], s.runs);
    }
  }

  // ---- the finalize transaction --------------------------------------------------------------

  lemma {:induction false} RegionRowKeys(runId: Id, ids: seq<Id>, regions: seq<RegionRequest>, at: int, id: Id)
    requires |ids| == |regions| && id in RegionRows(runId, ids, regions, at)
    ensures id in ids
  {
    var n := |ids| - 1;
    if id != ids[n] {
      RegionRowKeys(runId, ids[..n], regions[..n], at, id);
    }
  }

  lemma {:induction false} RegionRowAt(runId: Id, ids: seq<Id>, regions: seq<RegionRequest>, at: int, i: nat)
    requires |ids| == |regions| && Distinct(ids) && i < |ids|
    ensures ids[i] in RegionRows(runId, ids, regions, at)
    ensures RegionRows(runId, ids, regions, at)[ids[i]] == RegionOf(runId, regions[i], at)
  {
    var n := |ids| - 1;
    if i < n {
      RegionRowAt(runId, ids[..n], regions[..n], at, i);
    }
  }

  /** Every region row is there, and no other. */
  lemma RegionRowsAt(runId: Id, ids: seq<Id>, regions: seq<RegionRequest>, at: int)
    requires |ids| == |regions| && Distinct(ids)
    ensures forall id :: id in RegionRows(runId, ids, regions, at) ==> id in ids
    ensures forall i :: 0 <= i < |ids| ==>
              && ids[i] in RegionRows(runId, ids, regions, at)
              && RegionRows(runId, ids, regions, at)[ids[i]] == RegionOf(runId, regions[i], at)
  {
    forall id | id in RegionRows(runId, ids, regions, at)
      ensures id in ids
    {
      RegionRowKeys(runId, ids, regions, at, id);
    }
    forall i | 0 <= i < |ids|
      ensures ids[i] in RegionRows(runId, ids, regions, at)
      ensures RegionRows(runId, ids, regions, at)[ids[i]] == RegionOf(runId, regions[i], at)
    {
      RegionRowAt(runId, ids, regions, at, i);
    }
  }

  lemma NewRegionsKeepDeliveries(s: State, rows: Regions)
    requires DeliveriesKept(s)
    requires forall id :: id in rows ==> id !in s.regions
    ensures DeliveriesKept(s.(regions := s.regions + rows))
  {
    forall r | r in s.deliveries
      ensures DeliveryKept(r, s.deliveries[r], s.runs, s.regions + rows)
    {
      assert DeliveryKept(r, s.deliveries[r], s.runs, s.regions);
    }
  }

  /** Points accepted by the first section are within the source of the job the transaction closes. */
  lemma AcceptedPointsInSource(s: State, job: Job, input: Input, req: FinalizeRequest, at: int, i: nat)
    requires input == job.input && GeometryAccepted(s, input, req) && RegionsAccepted(req.regions, at)
    requires RequestAccepted(req) && i < |req.regions|
    ensures InSource(req.regions[i].polygon, job.input)
  {
    assert RegionAccepted(req.regions[i], at) && PolygonWithin(req.regions[i].polygon, input.width, input.height);
    forall k | 0 <= k < |req.regions[i].polygon|
      ensures var p := req.regions[i].polygon[k];
              0.0 <= p.x <= input.width as real && 0.0 <= p.y <= input.height as real
    {
      assert PointWithin(req.regions[i].polygon[k], input.width, input.height);
    }
  }

  ghost function Recorded(s: State, req: FinalizeRequest, runId: Id, regionIds: seq<Id>, at: int): State
    requires req.job in s.jobs && |regionIds| == |req.regions|
  {
    s.(
      runs := s.runs[runId := RunOf(s.jobs[req.job], req)],
      regions := s.regions + RegionRows(runId, regionIds, req.regions, at),
      deliveries := s.deliveries[runId := Delivery(req.job, s.jobs[req.job].attempts, regionIds, req.regions)])
  }

  /** What the new rows give the one new delivery. */
  lemma NewDelivery(s: State, req: FinalizeRequest, runId: Id, regionIds: seq<Id>, at: int)
    requires req.job in s.jobs && |regionIds| == |req.regions| && Distinct(regionIds)
    ensures var s' := Recorded(s, req, runId, regionIds, at);
            DeliveryKept(runId, s'.deliveries[runId], s'.runs, s'.regions)
  {
    RegionRowsAt(runId, regionIds, req.regions, at);
  }

  lemma RecordingKeepsDeliveries(s: State, req: FinalizeRequest, runId: Id, regionIds: seq<Id>, at: int)
    requires DeliveriesKept(s) && req.job in s.jobs
    requires FreshIds(s, runId, regionIds, |req.regions|) && Distinct(regionIds)
    ensures DeliveriesKept(Recorded(s, req, runId, regionIds, at))
  {
    var s' := Recorded(s, req, runId, regionIds, at);
    RegionRowsAt(runId, regionIds, req.regions, at);
    NewDelivery(s, req, runId, regionIds, at);
    NewRegionsKeepDeliveries(s, RegionRows(runId, regionIds, req.regions, at));
    forall r | r in s.deliveries
      ensures DeliveryKept(r, s.deliveries[r], s'.runs, s'.regions)
    {
      assert DeliveryKept(r, s.deliveries[r], s.runs, s'.regions);
    }
  }

  /** The job the transaction closes owns the new delivery; every other delivery keeps its owner. */
  lemma RecordingKeepsOwners(s: State, req: FinalizeRequest, runId: Id, regionIds: seq<Id>, at: int, job': Job)
    requires DeliveriesOwned(s) && req.job in s.jobs && runId !in s.deliveries && runId !in s.runs
    requires |regionIds| == |req.regions|
    requires Moves(s.jobs[req.job], job', Recording, s.jobs[req.job].attempts)
    requires job'.input == s.jobs[req.job].input
    requires req.status != RunUnavailable ==> job'.status == Recognized && job'.lastRun == Some(runId)
    requires req.regions != [] ==> req.status == Detected
    requires forall i :: 0 <= i < |req.regions| ==> InSource(req.regions[i].polygon, job'.input)
    ensures DeliveriesOwned(WithJob(Recorded(s, req, runId, regionIds, at), req.job, job'))
  {
    var s' := WithJob(Recorded(s, req, runId, regionIds, at), req.job, job');
    forall r | r in s'.deliveries
      ensures DeliveryOwned(r, s'.deliveries[r], s'.runs, s'.jobs)
    {
      if r != runId {
        MoveKeepsOwner(r, s.deliveries[r], s.runs, s.jobs, req.job, job', Recording, s.jobs[req.job].attempts);
      }
    }
  }

  /** The attempt being closed has delivered nothing yet. */
  lemma RecordingIsFirst(s: State, req: FinalizeRequest, runId: Id, regionIds: seq<Id>, at: int)
    requires DeliveriesOwned(s) && OneDeliveryPerAttempt(s.deliveries)
    requires req.job in s.jobs && s.jobs[req.job].status == Running && |regionIds| == |req.regions|
    ensures OneDeliveryPerAttempt(Recorded(s, req, runId, regionIds, at).deliveries)
  {
    var deliveries' := Recorded(s, req, runId, regionIds, at).deliveries;
    forall r, q | SameAttempt(deliveries', r, q)
      ensures r == q
    {
      assert r != runId ==> DeliveryOwned(r, s.deliveries[r], s.runs, s.jobs);
      assert q != runId ==> DeliveryOwned(q, s.deliveries[q], s.runs, s.jobs);
      if r != runId && q != runId {
        assert SameAttempt(s.deliveries, r, q);
      }
    }
  }

  lemma RecordingKeepsText(s: State, req: FinalizeRequest, runId: Id, job': Job)
    requires RecognizedHaveText(s.jobs, s.runs) && req.job in s.jobs && runId !in s.runs
    requires job'.status == Recognized ==> req.status != RunUnavailable && job'.lastRun == Some(runId)
    requires job'.input == s.jobs[req.job].input
    ensures RecognizedHaveText(s.jobs[req.job := job'], s.runs[runId := RunOf(s.jobs[req.job], req)])
  {
    forall id | id in s.jobs && id != req.job
      ensures RecognizedNamesText(s.jobs[id], s.runs[runId := RunOf(s.jobs[req.job], req)])
    {
      assert RecognizedNamesText(s.jobs[id], s.runs);
    }
  }

  lemma CommitStep(s: State, a: Action)
    requires Safe(s) && a.Commit? && Allowed(s, a)
    ensures Safe(Next(s, a))
  {
    var req, job := a.req, s.jobs[a.req.job];
    SoundJob(s, req.job);
    if CommitCancels(job, req) {
      DroppedMoves(job, req.provider, a.now);
      MoveStep(s, req.job, CancelledAtCommit(job, req.provider, a.now), Dropping, job.attempts);
    } else {
      RecordingStep(s, req, a.runId, a.regionIds, a.now);
    }
  }

  lemma RecordingStep(s: State, req: FinalizeRequest, runId: Id, regionIds: seq<Id>, now: int)
    requires Safe(s) && Allowed(s, Commit(req, runId, regionIds, now)) && !CommitCancels(s.jobs[req.job], req)
    ensures Safe(Committed(s, req, runId, regionIds, now))
  {
    var job, at := s.jobs[req.job], CompletionTime(req, now);
    var run := RunOf(job, req);
    var job' := Finished(job, runId, run, req.retryable, now);
    SoundJob(s, req.job);
    FinishedMoves(job, runId, run, req.retryable, now, Recording);
    MoveKeepsQueue(s.jobs, s.log, req.job, job', Recording, job.attempts);
    RecordingPointsInSource(s, req, at);
    RecordingKeepsResults(s, req, runId, regionIds, at, job');
    assert Committed(s, req, runId, regionIds, now)
        == Logged(WithJob(Recorded(s, req, runId, regionIds, at), req.job, job'), req.job, Recording, job.attempts);
  }

  lemma RecordingPointsInSource(s: State, req: FinalizeRequest, at: int)
    requires SnapshotsTrue(s.snapshots, s.jobs) && req.job in s.jobs
    requires RequestAccepted(req) && RegionsAccepted(req.regions, at)
    requires exists input :: (req.job, input) in s.snapshots && GeometryAccepted(s, input, req)
    ensures forall i :: 0 <= i < |req.regions| ==> InSource(req.regions[i].polygon, s.jobs[req.job].input)
  {
    var input :| (req.job, input) in s.snapshots && GeometryAccepted(s, input, req);
    forall i | 0 <= i < |req.regions|
      ensures InSource(req.regions[i].polygon, s.jobs[req.job].input)
    {
      AcceptedPointsInSource(s, s.jobs[req.job], input, req, at, i);
    }
  }

  lemma RecordingKeepsResults(s: State, req: FinalizeRequest, runId: Id, regionIds: seq<Id>, at: int, job': Job)
    requires ResultsSafe(s) && req.job in s.jobs && s.jobs[req.job].status == Running
    requires FreshIds(s, runId, regionIds, |req.regions|) && Distinct(regionIds)
    requires RunAccepted(req.status, req.text, req.reason, req.message) && RequestAccepted(req)
    requires Moves(s.jobs[req.job], job', Recording, s.jobs[req.job].attempts)
    requires job'.input == s.jobs[req.job].input
    requires job'.lastRun == Some(runId) && (job'.status == Recognized <==> req.status != RunUnavailable)
    requires forall i :: 0 <= i < |req.regions| ==> InSource(req.regions[i].polygon, job'.input)
    ensures ResultsSafe(Logged(WithJob(Recorded(s, req, runId, regionIds, at), req.job, job'), req.job, Recording,
                               s.jobs[req.job].attempts))
  {
    RecordingKeepsDeliveries(s, req, runId, regionIds, at);
    RecordingKeepsOwners(s, req, runId, regionIds, at, job');
    RecordingIsFirst(s, req, runId, regionIds, at);
    RecordingKeepsText(s, req, runId, job');
  }

  // ---- every action, every run ---------------------------------------------------------------

  lemma ActionKeepsSafe(s: State, a: Action)
    requires Safe(s) && Allowed(s, a)
    ensures Safe(Next(s, a))
  {
    match a
    case Enqueue(id, input, now) => EnqueueStep(s, id, input, now);
    case Interrupt(id, now) => InterruptStep(s, id, now);
    case Claim(id, now) => ClaimStep(s, id, now);
    case RequestCancel(id, now) => CancelStep(s, id, now);
    case RecordRun(runId, run, warnings, completedAt) => NewRunKeepsResults(s, runId, run);
    case Complete(id, runId, retryable, now) => CompleteStep(s, a);
    case ReadJob(id) =>
    case Commit(req, runId, regionIds, now) => CommitStep(s, a);
    case RetryByHand(id, now) => RetryStep(s, id, now);
    case Restart =>
  }

  lemma StepKeepsSafe(s: State, s': State)
    requires Safe(s) && Step(s, s')
    ensures Safe(s')
  {
    var a :| StepBy(s, a, s');
    ActionKeepsSafe(s, a);
  }

  lemma {:induction false} RunIsSafe(run: seq<State>, n: nat)
    requires IsRun(run) && n < |run|
    ensures Safe(run[n])
  {
    if n == 0 {
      InitiallySafe(run[0]);
    } else {
      RunIsSafe(run, n - 1);
      assert StepAt(run, n - 1);
      StepKeepsSafe(run[n - 1], run[n]);
    }
  }
}
