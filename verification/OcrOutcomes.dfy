/**
 * What every operation of the queue makes of a job, told field by field: which results requeue it and until when,
 * what the others leave, and that a job requeued after a failure really waits.
 */
module OcrOutcomes {
  import opened Prelude
  import opened IdCodec
  import opened OcrJobs
  import opened OcrSystem
  import opened OcrSafety
  import opened OcrSteps
  import opened OcrTheorems

  // ---- closing an attempt --------------------------------------------------------------------

  /** A failure that may pass. */
  predicate Passing(reason: Option<Reason>) {
    reason == Some(ProviderUnavailable) || reason == Some(ProviderFailed) || reason == Some(ResourceUnavailable)
  }

  /** What finalize and complete leave of the attempt, by the status and reason of its result. */
  ghost predicate ClosedAs(job: Job, after: Job, status: RunStatus, reason: Option<Reason>, retryable: bool, now: int) {
    && after.input == job.input && after.createdAt == job.createdAt && after.attempts == job.attempts
    && after.cancel == job.cancel && after.updatedAt == now
    && (after.status == Queued <==>
          !job.cancel && status == RunUnavailable && Passing(reason) && retryable && job.attempts <= 2)
    && (after.status == Queued ==>
          && after.startedAt.None? && after.completedAt.None? && after.retryable
          && after.nextRetryAt == Some(Min(now + (if job.attempts == 1 then 2_000 else 4_000), 0x7fff_ffff_ffff_ffff)))
    && (after.status != Queued ==>
          && after.startedAt == job.startedAt && after.completedAt == Some(now)
          && !after.retryable && after.nextRetryAt.None?)
    && (after.status == Cancelled <==> job.cancel || reason == Some(CancelledByUser))
    && (after.status == Recognized <==> !job.cancel && reason != Some(CancelledByUser) && status != RunUnavailable)
    && after.status != Running
    && Labelled(after, reason)
  }

  /** The error code and the availability say how the attempt went. */
  ghost predicate Labelled(after: Job, reason: Option<Reason>) {
    if after.status == Cancelled then after.error == Some("OCR_CANCELLED") && after.availability == Available
    else
      match reason
      case None => after.error.None? && after.availability == Available
      case Some(ProviderUnavailable) =>
        after.error == Some("OCR_PROVIDER_UNAVAILABLE") && after.availability == ProviderAbsent
      case Some(ProviderFailed) => after.error == Some("OCR_PROVIDER_FAILED") && after.availability == Failed
      case Some(ResourceUnavailable) =>
        after.error == Some("OCR_RESOURCE_UNAVAILABLE") && after.availability == ProviderAbsent
      case Some(UnsupportedInput) => after.error == Some("OCR_UNSUPPORTED_INPUT") && after.availability == Available
      case Some(CancelledByUser) => false
  }

  lemma DelayAfter(attempts: nat, now: int)
    requires attempts == 1 || attempts == 2
    ensures RetryAt(attempts, now) == Min(now + (if attempts == 1 then 2_000 else 4_000), 0x7fff_ffff_ffff_ffff)
  {
    assert Doublings(0) == 1 && Doublings(1) == 2;
  }

  lemma FinishedOutcome(job: Job, runId: Id, run: Run, retryable: bool, now: int)
    requires job.status == Running && 1 <= job.attempts <= 3 && !job.cancel && run.reason != Some(CancelledByUser)
    requires RunAccepted(run.status, run.text, run.reason, run.message)
    ensures ClosedAs(job, Finished(job, runId, run, retryable, now), run.status, run.reason, retryable, now)
  {
    if job.attempts <= 2 {
      DelayAfter(job.attempts, now);
    }
  }

  lemma CancelledOutcome(job: Job, provider: Provider, status: RunStatus, reason: Option<Reason>, retryable: bool,
                         now: int)
    requires job.status == Running && (job.cancel || reason == Some(CancelledByUser))
    ensures ClosedAs(job, CancelledAtCommit(job, provider, now), status, reason, retryable, now)
  {}

  /** Finalize and complete close an attempt alike, whichever of them does. */
  lemma CommitOutcome(run: seq<State>, n: nat, req: FinalizeRequest, runId: Id, regionIds: seq<Id>, now: int)
    requires IsRun(run) && n < |run| && Allowed(run[n], Commit(req, runId, regionIds, now))
    ensures var s, s' := run[n], Next(run[n], Commit(req, runId, regionIds, now));
            && req.job in s.jobs && req.job in s'.jobs && s'.jobs == s.jobs[req.job := s'.jobs[req.job]]
            && ClosedAs(s.jobs[req.job], s'.jobs[req.job], req.status, req.reason, req.retryable, now)
            && s'.jobs[req.job].provider == Some(req.provider)
            && s'.jobs[req.job].lastRun == (if s'.jobs[req.job].status == Cancelled then s.jobs[req.job].lastRun
                                            else Some(runId))
  {
    RunIsSafe(run, n);
    SoundJob(run[n], req.job);
    var job := run[n].jobs[req.job];
    if CommitCancels(job, req) {
      CancelledOutcome(job, req.provider, req.status, req.reason, req.retryable, now);
    } else {
      FinishedOutcome(job, runId, RunOf(job, req), req.retryable, now);
    }
  }

  lemma CompleteOutcome(run: seq<State>, n: nat, id: Id, r: Id, retryable: bool, now: int)
    requires IsRun(run) && n < |run| && Allowed(run[n], Complete(id, r, retryable, now))
    ensures var s, s' := run[n], Next(run[n], Complete(id, r, retryable, now));
            && id in s.jobs && r in s.runs && id in s'.jobs && s'.jobs == s.jobs[id := s'.jobs[id]]
            && ClosedAs(s.jobs[id], s'.jobs[id], s.runs[r].status, s.runs[r].reason, retryable, now)
            && s'.jobs[id].provider == Some(s.runs[r].provider) && s'.jobs[id].lastRun == Some(r)
  {
    RunIsSafe(run, n);
    SoundJob(run[n], id);
    var job, result := run[n].jobs[id], run[n].runs[r];
    if job.cancel || result.reason == Some(CancelledByUser) {
      CancelledOutcome(job, result.provider, result.status, result.reason, retryable, now);
    } else {
      FinishedOutcome(job, r, result, retryable, now);
    }
  }

  /** The rows a finalize stores: the run as requested, and every region under its own id. */
  lemma CommitStores(s: State, req: FinalizeRequest, runId: Id, regionIds: seq<Id>, now: int, i: nat)
    requires Allowed(s, Commit(req, runId, regionIds, now)) && !CommitCancels(s.jobs[req.job], req)
    ensures var s' := Next(s, Commit(req, runId, regionIds, now));
            && s'.runs == s.runs[runId := Run(s.jobs[req.job].input.scan, Some(s.jobs[req.job].input.asset), req.provider,
                                              req.status, req.text, req.reason, req.message)]
            && |regionIds| == |req.regions|
            && (i < |regionIds| ==>
                  && regionIds[i] in s'.regions
                  && var region, asked := s'.regions[regionIds[i]], req.regions[i];
                     && region.run == runId && region.polygon == asked.polygon && region.text == asked.text
                     && region.confidence == asked.confidence
                     && region.createdAt == (if asked.createdAt.Some? then asked.createdAt.value
                                             else if req.completedAt.Some? then req.completedAt.value else now))
            && (forall r :: r in s'.regions && r !in s.regions ==> r in regionIds)
  {
    var at := CompletionTime(req, now);
    RegionRowsAt(runId, regionIds, req.regions, at);
    if i < |regionIds| {
      RegionRowAt(runId, regionIds, req.regions, at, i);
    }
  }

  // ---- the other operations ------------------------------------------------------------------

  /** A job as the other operations leave it. */
  ghost predicate Became(job: Job, after: Job, a: Action) {
    match a
    case Claim(id, now) =>
      after == job.(status := Running, updatedAt := now, startedAt := Some(now), completedAt := None,
                    attempts := job.attempts + 1, retryable := true, nextRetryAt := None)
    case Interrupt(id, now) =>
      && after == job.(status := after.status, updatedAt := now, startedAt := after.startedAt,
                       completedAt := after.completedAt, retryable := after.retryable, nextRetryAt := after.nextRetryAt,
                       error := Some("OCR_EXECUTION_INTERRUPTED"), availability := Unknown)
      && after.status == (if job.cancel then Cancelled else if job.attempts <= 2 then Queued else Unavailable)
      && (if after.status == Queued
          then after.startedAt.None? && after.completedAt.None? && after.retryable && after.nextRetryAt == Some(now)
          else after.startedAt == job.startedAt && after.completedAt == Some(now) && !after.retryable
               && after.nextRetryAt.None?)
    case RequestCancel(id, now) =>
      after == if job.status == Running then job.(updatedAt := now, cancel := true)
               else job.(status := Cancelled, updatedAt := now, completedAt := Some(now), retryable := false,
                         nextRetryAt := None, cancel := true, error := Some("OCR_CANCELLED"))
    case RetryByHand(id, now) =>
      after == job.(status := Queued, updatedAt := now, startedAt := None, completedAt := None, retryable := true,
                    nextRetryAt := Some(now))
    case _ => false
  }

  /** Claiming clears no flag, because a queued job has none; interrupted and retried jobs are due at once. */
  lemma OtherOutcome(run: seq<State>, n: nat, a: Action, id: Id)
    requires IsRun(run) && n < |run| && Allowed(run[n], a) && Target(a) == Some(id)
    requires !a.Enqueue? && !a.Commit? && !a.Complete?
    ensures var s, s' := run[n], Next(run[n], a);
            id in s.jobs && id in s'.jobs && s'.jobs == s.jobs[id := s'.jobs[id]] && Became(s.jobs[id], s'.jobs[id], a)
  {
    RunIsSafe(run, n);
    SoundJob(run[n], id);
  }

  lemma EnqueueOutcome(s: State, id: Id, input: Input, now: int)
    requires Allowed(s, Enqueue(id, input, now))
    ensures Next(s, Enqueue(id, input, now)).jobs
            == s.jobs[id := Job(input, Queued, now, now, None, None, 0, true, None, None, None, Unknown, None, false)]
  {}

  // ---- when the tables refuse a row ----------------------------------------------------------

  /** The tables refuse what an operation makes of a job only if the clock was set back past its creation. */
  lemma RefusedByClock(job: Job, now: int)
    requires JobConsistent(job)
    ensures job.status == Queued ==> (RowAccepted(Claimed(job, now)) <==> job.createdAt <= now)
    ensures job.status == Queued ==> (RowAccepted(CancelledWhileQueued(job, now)) <==> job.createdAt <= now)
    ensures job.status == Running ==> (RowAccepted(Interrupted(job, now)) <==> job.createdAt <= now)
    ensures job.status == Running ==> (RowAccepted(Flagged(job, now)) <==> job.createdAt <= now)
    ensures RetryEligible(job) ==> (RowAccepted(RetriedByHand(job, now)) <==> job.createdAt <= now)
  {}

  lemma ClosingRefusedByClock(job: Job, runId: Id, run: Run, provider: Provider, retryable: bool, now: int)
    requires JobConsistent(job) && job.status == Running
    ensures RowAccepted(CancelledAtCommit(job, provider, now)) <==> job.createdAt <= now
    ensures RunAccepted(run.status, run.text, run.reason, run.message) ==>
              (RowAccepted(Finished(job, runId, run, retryable, now)) <==> job.createdAt <= now)
    ensures RunAccepted(run.status, run.text, run.reason, run.message) ==>
              (RowAccepted(Completed(job, runId, run, retryable, now)) <==> job.createdAt <= now)
  {}

  // ---- a requeued job waits ------------------------------------------------------------------

  /** A queued job can only be claimed or cancelled. */
  lemma {:induction false} QueuedWaits(run: seq<State>, m: nat, n: nat, id: Id)
    requires IsRun(run) && m <= n < |run| && id in run[m].jobs && run[m].jobs[id].status == Queued
    ensures id in run[n].jobs && run[n].jobs[id].attempts >= run[m].jobs[id].attempts
    ensures run[n].jobs[id].attempts == run[m].jobs[id].attempts ==>
              run[n].jobs[id] == run[m].jobs[id] || run[n].jobs[id].status == Cancelled
    decreases n - m
  {
    if m < n {
      QueuedWaits(run, m, n - 1, id);
      JobAlong(run, n - 1, id);
      assert StepAt(run, n - 1);
      RunIsSafe(run, n - 1);
      StepIsJobStep(run[n - 1], run[n], id);
    }
  }

  predicate Closes(a: Action, id: Id) {
    (a.Commit? && a.req.job == id) || (a.Complete? && a.id == id)
  }

  function ClosedAt(a: Action): int
    requires a.Commit? || a.Complete?
  {
    a.now
  }

  /** Two seconds after a first failed attempt and four after a second, however long the run and whatever else
      happens in it: nothing, not even a retry by hand, gets the job claimed earlier. */
  lemma RequeuedJobWaits(run: seq<State>, m: nat, n: nat, a: Action, id: Id, now: int)
    requires IsRun(run) && m < n < |run| && StepBy(run[m], a, run[m + 1]) && Closes(a, id)
    requires id in run[m].jobs && id in run[m + 1].jobs && run[m + 1].jobs[id].status == Queued
    requires Allowed(run[n], Claim(id, now)) && run[n].jobs[id].attempts == run[m].jobs[id].attempts
    ensures now >= Min(ClosedAt(a) + (if run[m].jobs[id].attempts == 1 then 2_000 else 4_000), 0x7fff_ffff_ffff_ffff)
  {
    if a.Commit? {
      CommitOutcome(run, m, a.req, a.runId, a.regionIds, a.now);
    } else {
      CompleteOutcome(run, m, a.id, a.runId, a.retryable, a.now);
    }
    QueuedWaits(run, m + 1, n, id);
  }
}
