/** What the OCR queue promises, over every run. */
module OcrTheorems {
  import opened Prelude
  import opened IdCodec
  import opened OcrJobs
  import opened OcrSystem
  import opened OcrSafety
  import opened OcrSteps

  // ---- a job along a run ---------------------------------------------------------------------

  /** What one step may do to one job: nothing, flag it while it runs, or move it by one event. */
  ghost predicate JobStep(job: Job, job': Job) {
    || job' == job
    || (job.status == job'.status == Running && job'.cancel && job'.attempts == job.attempts
          && job'.input == job.input)
    || (exists kind, attempt :: Moves(job, job', kind, attempt) && job'.input == job.input
          && (job.cancel ==> job'.status == Cancelled))
  }

  lemma MoveIsJobStep(job: Job, job': Job, kind: EventKind, attempt: nat)
    requires Moves(job, job', kind, attempt) && job'.input == job.input
    requires job.cancel ==> job'.status == Cancelled
    ensures JobStep(job, job')
  {}

  /** The job an action moves or flags. */
  function Target(a: Action): Option<Id> {
    match a
    case Enqueue(id, input, now) => Some(id)
    case Interrupt(id, now) => Some(id)
    case Claim(id, now) => Some(id)
    case RequestCancel(id, now) => Some(id)
    case Complete(id, runId, retryable, now) => Some(id)
    case Commit(req, runId, regionIds, now) => Some(req.job)
    case RetryByHand(id, now) => Some(id)
    case _ => None
  }

  lemma OthersUntouched(s: State, a: Action, id: Id)
    requires Allowed(s, a) && id in s.jobs && Target(a) != Some(id)
    ensures id in Next(s, a).jobs && Next(s, a).jobs[id] == s.jobs[id]
  {
    assert Next(s, a).jobs == s.jobs
        || (Target(a).Some? && Next(s, a).jobs == s.jobs[Target(a).value := Next(s, a).jobs[Target(a).value]]);
  }

  lemma InterruptIsJobStep(s: State, id: Id, now: int)
    requires Safe(s) && Allowed(s, Interrupt(id, now))
    ensures JobStep(s.jobs[id], Next(s, Interrupt(id, now)).jobs[id])
  {
    SoundJob(s, id);
    InterruptedMoves(s.jobs[id], now);
    MoveIsJobStep(s.jobs[id], Interrupted(s.jobs[id], now), Interrupting, s.jobs[id].attempts);
  }

  lemma ClaimIsJobStep(s: State, id: Id, now: int)
    requires Safe(s) && Allowed(s, Claim(id, now))
    ensures JobStep(s.jobs[id], Next(s, Claim(id, now)).jobs[id])
  {
    SoundJob(s, id);
    ClaimedMoves(s.jobs[id], now);
    MoveIsJobStep(s.jobs[id], Claimed(s.jobs[id], now), Claiming, s.jobs[id].attempts + 1);
  }

  lemma CancelIsJobStep(s: State, id: Id, now: int)
    requires Safe(s) && Allowed(s, RequestCancel(id, now))
    ensures JobStep(s.jobs[id], Next(s, RequestCancel(id, now)).jobs[id])
  {
    SoundJob(s, id);
    if s.jobs[id].status == Queued {
      WithdrawnMoves(s.jobs[id], now);
      MoveIsJobStep(s.jobs[id], CancelledWhileQueued(s.jobs[id], now), Withdrawing, s.jobs[id].attempts);
    }
  }

  lemma CompleteIsJobStep(s: State, a: Action)
    requires Safe(s) && a.Complete? && Allowed(s, a)
    ensures JobStep(s.jobs[a.id], Next(s, a).jobs[a.id])
  {
    SoundJob(s, a.id);
    var job, run := s.jobs[a.id], s.runs[a.runId];
    CompletedMoves(job, a.runId, run, a.retryable, a.now);
    MoveIsJobStep(job, Completed(job, a.runId, run, a.retryable, a.now), Completing, job.attempts);
  }

  lemma RetryIsJobStep(s: State, id: Id, now: int)
    requires Safe(s) && Allowed(s, RetryByHand(id, now))
    ensures JobStep(s.jobs[id], Next(s, RetryByHand(id, now)).jobs[id])
  {
    SoundJob(s, id);
    RetriedMoves(s.jobs[id], now);
    MoveIsJobStep(s.jobs[id], RetriedByHand(s.jobs[id], now), Retrying, s.jobs[id].attempts);
  }

  lemma ActionIsJobStep(s: State, a: Action, id: Id)
    requires Safe(s) && Allowed(s, a) && id in s.jobs
    ensures id in Next(s, a).jobs && JobStep(s.jobs[id], Next(s, a).jobs[id])
  {
    if Target(a) != Some(id) {
      OthersUntouched(s, a, id);
    } else {
      TargetIsJobStep(s, a);
    }
  }

  lemma QueueIsJobStep(s: State, a: Action)
    requires Safe(s) && Allowed(s, a) && Target(a).Some? && Target(a).value in s.jobs && !a.Complete? && !a.Commit?
    ensures Target(a).value in Next(s, a).jobs
    ensures JobStep(s.jobs[Target(a).value], Next(s, a).jobs[Target(a).value])
  {
    if a.Interrupt? {
      InterruptIsJobStep(s, a.id, a.now);
    } else if a.Claim? {
      ClaimIsJobStep(s, a.id, a.now);
    } else if a.RequestCancel? {
      CancelIsJobStep(s, a.id, a.now);
    } else if a.RetryByHand? {
      RetryIsJobStep(s, a.id, a.now);
    }
  }

  lemma TargetIsJobStep(s: State, a: Action)
    requires Safe(s) && Allowed(s, a) && Target(a).Some? && Target(a).value in s.jobs
    ensures Target(a).value in Next(s, a).jobs
    ensures JobStep(s.jobs[Target(a).value], Next(s, a).jobs[Target(a).value])
  {
    if a.Complete? {
      CompleteIsJobStep(s, a);
    } else if a.Commit? {
      CommitIsJobStep(s, a.req, a.runId, a.regionIds, a.now);
    } else {
      QueueIsJobStep(s, a);
    }
  }

  lemma CommitIsJobStep(s: State, req: FinalizeRequest, runId: Id, regionIds: seq<Id>, now: int)
    requires Safe(s) && Allowed(s, Commit(req, runId, regionIds, now))
    ensures JobStep(s.jobs[req.job], Committed(s, req, runId, regionIds, now).jobs[req.job])
  {
    var job := s.jobs[req.job];
    SoundJob(s, req.job);
    if CommitCancels(job, req) {
      DroppedMoves(job, req.provider, now);
      MoveIsJobStep(job, CancelledAtCommit(job, req.provider, now), Dropping, job.attempts);
    } else {
      FinishedMoves(job, runId, RunOf(job, req), req.retryable, now, Recording);
      MoveIsJobStep(job, Finished(job, runId, RunOf(job, req), req.retryable, now), Recording, job.attempts);
    }
  }

  /** What that leaves true of the job, whichever event it was. */
  ghost predicate Advances(job: Job, job': Job) {
    && job'.input == job.input
    && job'.attempts >= job.attempts
    && (job'.attempts == job.attempts && job.status != Running ==> job'.status != Running)
    && (Settled(job.status) ==> job' == job)
    && (job.status == Running && job.cancel ==>
          job'.status == Cancelled
          || (job'.status == Running && job'.cancel && job'.attempts == job.attempts))
    && (job'.status != job.status ==> 0 <= Measure(job') < Measure(job))
    && (job'.status == job.status ==> Measure(job') == Measure(job))
  }

  lemma JobStepAdvances(job: Job, job': Job)
    requires JobStep(job, job') && JobConsistent(job) && JobConsistent(job')
    ensures Advances(job, job')
  {}

  lemma JobAlong(run: seq<State>, n: nat, id: Id)
    requires IsRun(run) && n + 1 < |run| && id in run[n].jobs
    ensures id in run[n + 1].jobs && Advances(run[n].jobs[id], run[n + 1].jobs[id])
  {
    RunIsSafe(run, n);
    RunIsSafe(run, n + 1);
    assert StepAt(run, n);
    StepIsJobStep(run[n], run[n + 1], id);
    SoundJob(run[n], id);
    SoundJob(run[n + 1], id);
    JobStepAdvances(run[n].jobs[id], run[n + 1].jobs[id]);
  }

  lemma StepIsJobStep(s: State, s': State, id: Id)
    requires Safe(s) && Step(s, s') && id in s.jobs
    ensures id in s'.jobs && JobStep(s.jobs[id], s'.jobs[id])
  {
    var a :| StepBy(s, a, s');
    ActionIsJobStep(s, a, id);
  }

  // ---- cancellation --------------------------------------------------------------------------

  /** A queued job carries no cancellation request, so the claim that clears the flag drops nothing. */
  lemma QueuedIsUnflagged(run: seq<State>, n: nat, id: Id)
    requires IsRun(run) && n < |run| && id in run[n].jobs
    ensures run[n].jobs[id].status == Queued ==> !run[n].jobs[id].cancel
    ensures run[n].jobs[id].cancel ==> run[n].jobs[id].status == Running || run[n].jobs[id].status == Cancelled
  {
    RunIsSafe(run, n);
    SoundJob(run[n], id);
  }

  /** Once a running job is flagged, it stays that attempt, flagged, until it is Cancelled for good. */
  lemma {:induction false} CancellationIsNeverLost(run: seq<State>, m: nat, n: nat, id: Id)
    requires IsRun(run) && m <= n < |run| && id in run[m].jobs
    requires run[m].jobs[id].status == Running && run[m].jobs[id].cancel
    ensures id in run[n].jobs
    ensures var job := run[n].jobs[id];
            || job.status == Cancelled
            || (job.status == Running && job.cancel && job.attempts == run[m].jobs[id].attempts)
    decreases n - m
  {
    if m < n {
      CancellationIsNeverLost(run, m, n - 1, id);
      JobAlong(run, n - 1, id);
    }
  }

  /** Recognized and Cancelled are final. */
  lemma {:induction false} SettledForGood(run: seq<State>, m: nat, n: nat, id: Id)
    requires IsRun(run) && m <= n < |run| && id in run[m].jobs && Settled(run[m].jobs[id].status)
    ensures id in run[n].jobs && run[n].jobs[id] == run[m].jobs[id]
    decreases n - m
  {
    if m < n {
      SettledForGood(run, m, n - 1, id);
      JobAlong(run, n - 1, id);
    }
  }

  // ---- fencing -------------------------------------------------------------------------------

  /** The attempt is over: ended, or replaced by a later one. */
  predicate Spent(job: Job, attempt: nat) {
    job.attempts > attempt || (job.attempts == attempt && job.status != Running)
  }

  lemma {:induction false} SpentForGood(run: seq<State>, m: nat, n: nat, id: Id, attempt: nat)
    requires IsRun(run) && m <= n < |run| && id in run[m].jobs && Spent(run[m].jobs[id], attempt)
    ensures id in run[n].jobs && Spent(run[n].jobs[id], attempt)
    decreases n - m
  {
    if m < n {
      SpentForGood(run, m, n - 1, id, attempt);
      JobAlong(run, n - 1, id);
    }
  }

  /** A claim superseded by recovery, or already finalized, can never finalize later in the run. */
  lemma SupersededNeverCommits(run: seq<State>, m: nat, n: nat, req: FinalizeRequest, runId: Id,
                               regionIds: seq<Id>, now: int)
    requires IsRun(run) && m <= n < |run| && req.job in run[m].jobs && Spent(run[m].jobs[req.job], req.attempt)
    ensures !Allowed(run[n], Commit(req, runId, regionIds, now))
  {
    SpentForGood(run, m, n, req.job, req.attempt);
  }

  predicate EndsJob(a: Action, id: Id) {
    (a.Interrupt? && a.id == id) || (a.Commit? && a.req.job == id) || (a.Complete? && a.id == id)
  }

  /** A running attempt ends in exactly these ways: interrupted, completed, or committed. */
  lemma AttemptEndsExactly(s: State, a: Action, id: Id)
    requires Safe(s) && Allowed(s, a) && id in s.jobs && s.jobs[id].status == Running
    ensures id in Next(s, a).jobs
    ensures Spent(Next(s, a).jobs[id], s.jobs[id].attempts) <==> EndsJob(a, id)
  {
    if EndsJob(a, id) {
      EndingSpends(s, a, id);
    }
  }

  lemma EndingSpends(s: State, a: Action, id: Id)
    requires Safe(s) && Allowed(s, a) && EndsJob(a, id)
    ensures id in Next(s, a).jobs && Spent(Next(s, a).jobs[id], s.jobs[id].attempts)
  {
    SoundJob(s, id);
    var job := s.jobs[id];
    if a.Interrupt? {
      InterruptedMoves(job, a.now);
    } else if a.Complete? {
      CompletedMoves(job, a.runId, s.runs[a.runId], a.retryable, a.now);
    } else if CommitCancels(job, a.req) {
      DroppedMoves(job, a.req.provider, a.now);
    } else {
      FinishedMoves(job, a.runId, RunOf(job, a.req), a.req.retryable, a.now, Recording);
    }
  }

  /** Claims of one job carry strictly increasing attempts, and an attempt ends at most once: at most
      one finalize ever succeeds for a job and attempt. */
  lemma AttemptsAscend(run: seq<State>, n: nat, i: nat, j: nat)
    requires IsRun(run) && n < |run| && i < j < |run[n].log| && SameRole(run[n].log[i], run[n].log[j])
    ensures run[n].log[i].attempt < run[n].log[j].attempt
  {
    RunIsSafe(run, n);
  }

  // ---- attempts and termination --------------------------------------------------------------

  /** `attempt_count` is the claims made, and all of them have ended but the running one. */
  lemma AttemptsAreConserved(run: seq<State>, n: nat, id: Id)
    requires IsRun(run) && n < |run| && id in run[n].jobs
    ensures var job, log := run[n].jobs[id], run[n].log;
            && job.attempts == Count(log, id, Claims)
            && job.attempts == Count(log, id, EndsAttempt) + (if job.status == Running then 1 else 0)
            && job.attempts <= MAX_ATTEMPTS
            && (job.status == Queued ==> job.attempts < MAX_ATTEMPTS)
  {
    RunIsSafe(run, n);
    SoundJob(run[n], id);
  }

  /** The job claim picks is never at the limit: that error cannot happen. */
  lemma ClaimLimitIsUnreachable(run: seq<State>, n: nat, id: Id, now: int)
    requires IsRun(run) && n < |run| && NextDue(run[n].jobs, id, now)
    ensures run[n].jobs[id].attempts < MAX_ATTEMPTS
  {
    RunIsSafe(run, n);
    SoundJob(run[n], id);
  }

  /** Every change of status, retries by hand included, lowers the measure. */
  lemma MeasureDrops(run: seq<State>, n: nat, id: Id)
    requires IsRun(run) && n + 1 < |run| && id in run[n].jobs
    ensures id in run[n + 1].jobs
    ensures run[n + 1].jobs[id].status != run[n].jobs[id].status ==>
              0 <= Measure(run[n + 1].jobs[id]) < Measure(run[n].jobs[id])
    ensures run[n + 1].jobs[id].status == run[n].jobs[id].status ==>
              Measure(run[n + 1].jobs[id]) == Measure(run[n].jobs[id])
  {
    JobAlong(run, n, id);
  }

  /** A job changes status at most eight times in any run. */
  lemma AtMostEightChanges(run: seq<State>, n: nat, id: Id)
    requires IsRun(run) && n < |run| && id in run[n].jobs
    ensures Count(run[n].log, id, ChangesStatus) <= 8
  {
    RunIsSafe(run, n);
    SoundJob(run[n], id);
  }

  // ---- bounds --------------------------------------------------------------------------------

  /** One job running, one active job a scan, and the capacity exceeded only by retries by hand. */
  lemma QueueIsBounded(run: seq<State>, n: nat)
    requires IsRun(run) && n < |run|
    ensures OneRunning(run[n].jobs) && OneActivePerScan(run[n].jobs)
    ensures |ActiveIds(run[n].jobs)| <= MAX_ACTIVE_JOBS + Retried(run[n].log)
  {
    RunIsSafe(run, n);
  }

  // ---- results -------------------------------------------------------------------------------

  /** A text result written by finalize is in the tables with all its regions, and its job is
      recognized and names it; no other result finalize wrote is named by a recognized job. */
  lemma CommitsAreAtomic(run: seq<State>, n: nat, r: Id)
    requires IsRun(run) && n < |run| && r in run[n].deliveries
    ensures var s, d := run[n], run[n].deliveries[r];
            && r in s.runs && d.job in s.jobs
            && DeliveryKept(r, d, s.runs, s.regions)
            && (s.runs[r].status != RunUnavailable <==>
                  s.jobs[d.job].status == Recognized && s.jobs[d.job].lastRun == Some(r))
  {
    RunIsSafe(run, n);
    var s, d := run[n], run[n].deliveries[r];
    assert DeliveryOwned(r, d, s.runs, s.jobs);
    assert RecognizedNamesText(s.jobs[d.job], s.runs);
  }

  /** A recognized job always has a stored text result of its own scan and asset. */
  lemma RecognizedHasText(run: seq<State>, n: nat, id: Id)
    requires IsRun(run) && n < |run| && id in run[n].jobs && run[n].jobs[id].status == Recognized
    ensures var job := run[n].jobs[id];
            && job.lastRun.Some? && job.lastRun.value in run[n].runs
            && run[n].runs[job.lastRun.value].status != RunUnavailable
            && RunFits(run[n].runs[job.lastRun.value], job.input)
  {
    RunIsSafe(run, n);
    assert RecognizedNamesText(run[n].jobs[id], run[n].runs);
  }

  /** A job keeps the scan, asset and dimensions it was enqueued with. */
  lemma {:induction false} InputNeverChanges(run: seq<State>, m: nat, n: nat, id: Id)
    requires IsRun(run) && m <= n < |run| && id in run[m].jobs
    ensures id in run[n].jobs && run[n].jobs[id].input == run[m].jobs[id].input
    decreases n - m
  {
    if m < n {
      InputNeverChanges(run, m, n - 1, id);
      JobAlong(run, n - 1, id);
    }
  }

  /** Stored region points lie in the job's source image, although the bounds were checked before the
      transaction. */
  lemma RegionPointsInSource(run: seq<State>, n: nat, r: Id, i: nat)
    requires IsRun(run) && n < |run| && r in run[n].deliveries && i < |run[n].deliveries[r].regionIds|
    ensures var s, d := run[n], run[n].deliveries[r];
            && d.job in s.jobs && d.regionIds[i] in s.regions
            && InSource(s.regions[d.regionIds[i]].polygon, s.jobs[d.job].input)
  {
    RunIsSafe(run, n);
    assert DeliveryKept(r, run[n].deliveries[r], run[n].runs, run[n].regions);
    assert DeliveryOwned(r, run[n].deliveries[r], run[n].runs, run[n].jobs);
  }
}
