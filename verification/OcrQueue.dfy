/**
 * The OCR queue's operations over their tables. A method is one section executed under the storage
 * lock: enqueue and finalize have two each, and other operations may run in between. `trace` is the
 * history of durable states, and every method only ever extends it by allowed steps.
 */
module OcrQueue {
  import opened Prelude
  import opened IdCodec
  import opened OcrJobs
  import opened OcrSystem
  import opened OcrSafety
  import opened OcrSteps
  import opened OcrTheorems
  import opened OcrOutcomes
  import opened Texts

  datatype QueueError =
    | JobMissing
    | RunMissing
    | RunMismatch
    | NotRunning
    | StaleAttempt
    | CapacityExceeded
    | AttemptLimit
    | AlreadyTerminal
    | RequestInvalid
    | GeometryMismatch
    | OutOfBounds
    | InputUnusable
    | RunStateInvalid
    | RegionInvalid
    | RetryIneligible
    | RowRejected

  datatype Resolution = CompletedRun | RetryScheduled | TerminalUnavailable | CancelledBeforeCommit

  function ResolutionOf(status: Status): Resolution {
    match status
    case Recognized => CompletedRun
    case Queued => RetryScheduled
    case Cancelled => CancelledBeforeCommit
    case _ => TerminalUnavailable
  }

  /** The first of some jobs in the order the queries ask for. */
  method Oldest(jobs: Jobs, candidates: set<Id>) returns (first: Id)
    requires candidates != {} && forall id :: id in candidates ==> id in jobs
    ensures first in candidates && forall id :: id in candidates ==> Older(jobs, first, id)
    ensures forall id :: id in candidates ==>
              jobs[first].createdAt <= jobs[id].createdAt && (jobs[first].createdAt == jobs[id].createdAt ==> first <= id)
  {
    first :| first in candidates;
    var rest := candidates - {first};
    while rest != {}
      invariant first in candidates && rest <= candidates
      invariant forall id :: id in candidates - rest ==> Older(jobs, first, id)
      decreases rest
    {
      var id :| id in rest;
      if !Older(jobs, first, id) {
        forall other | other in candidates - rest
          ensures Older(jobs, id, other)
        {
          assert Older(jobs, first, other);
        }
        first := id;
      }
      rest := rest - {id};
    }
  }

  method Newest(jobs: Jobs, candidates: set<Id>) returns (last: Id)
    requires candidates != {} && forall id :: id in candidates ==> id in jobs
    ensures last in candidates && forall id :: id in candidates ==> NoNewer(jobs, id, last)
    ensures forall id :: id in candidates ==>
              && jobs[id].updatedAt <= jobs[last].updatedAt
              && (jobs[id].updatedAt == jobs[last].updatedAt ==> jobs[id].createdAt <= jobs[last].createdAt)
              && (jobs[id].updatedAt == jobs[last].updatedAt && jobs[id].createdAt == jobs[last].createdAt ==> id <= last)
  {
    last :| last in candidates;
    var rest := candidates - {last};
    while rest != {}
      invariant last in candidates && rest <= candidates
      invariant forall id :: id in candidates - rest ==> NoNewer(jobs, id, last)
      decreases rest
    {
      var id :| id in rest;
      if !NoNewer(jobs, id, last) {
        forall other | other in candidates - rest
          ensures NoNewer(jobs, other, id)
        {
          assert NoNewer(jobs, other, last);
        }
        last := id;
      }
      rest := rest - {id};
    }
  }

  predicate LabelInBounds(text: string) {
    1 <= Utf8Length(text) <= 120
  }

  /** What the labels, texts and times of a result have to keep to. */
  predicate HeaderInBounds(provider: Provider, message: Option<string>, warnings: seq<string>, completedAt: Option<int>) {
    && LabelInBounds(provider.name) && LabelInBounds(provider.version)
    && (provider.model.Some? ==> LabelInBounds(provider.model.value))
    && (completedAt.Some? ==> completedAt.value >= 0)
    && (message.Some? ==> 1 <= Utf8Length(message.value) <= 1_000)
    && |warnings| <= 64
    && (forall i :: 0 <= i < |warnings| ==> 1 <= Utf8Length(warnings[i]) <= 1_000)
  }

  /** The asset cannot change, sits in a slot of the scan, and is of the kind of the first slot it sits in. */
  predicate InputIsThere(scans: map<Id, Slots>, sources: map<Id, Source>, scan: Id, asset: Id) {
    && scan in scans && asset in sources && sources[asset].immutable
    && match sources[asset].kind
       case OriginalInput => scans[scan].original == asset
       case CorrectedInput => scans[scan].original != asset && scans[scan].corrected == Some(asset)
       case OcrInput =>
         scans[scan].original != asset && scans[scan].corrected != Some(asset) && scans[scan].ocr == Some(asset)
  }

  /** The terminal transition finalize and complete share, field by field. */
  method ApplyTerminalTransition(before: Job, runId: Id, run: Run, requestRetryable: bool, now: int)
    returns (job: Job)
    requires RunAccepted(run.status, run.text, run.reason, run.message)
    ensures job == Finished(before, runId, run, requestRetryable, now)
  {
    job := before.(updatedAt := now, provider := Some(run.provider), lastRun := Some(runId));
    match run.status
    case RunUnavailable =>
      var reason := run.reason.value;
      job := job.(availability := AvailabilityFor(reason), error := Some(ErrorFor(reason)));
      if requestRetryable && Retryable(reason) && job.attempts < MAX_ATTEMPTS {
        job := job.(status := Queued, startedAt := None, completedAt := None, retryable := true,
                    nextRetryAt := Some(RetryAt(job.attempts, now)));
      } else {
        job := job.(status := Unavailable, completedAt := Some(now), retryable := false, nextRetryAt := None);
      }
    case _ =>
      job := job.(status := Recognized, completedAt := Some(now), retryable := false, nextRetryAt := None,
                  availability := Available, error := None);
  }

  /** Completion: a flagged job, or a run the user cancelled, ends Cancelled. */
  method CompleteWith(before: Job, runId: Id, run: Run, requestRetryable: bool, now: int) returns (job: Job)
    requires RunAccepted(run.status, run.text, run.reason, run.message)
    ensures job == Completed(before, runId, run, requestRetryable, now)
    ensures before.cancel ==> job.status == Cancelled
  {
    if before.cancel || run.reason == Some(CancelledByUser) {
      return CancelledAtCompletion(before, runId, run, now);
    }
    job := ApplyTerminalTransition(before, runId, run, requestRetryable, now);
  }

  method RegionsInBounds(regions: seq<RegionRequest>, width: nat, height: nat) returns (ok: bool)
    ensures ok == RegionsWithin(regions, width, height)
    ensures ok <==> forall i, j :: 0 <= i < |regions| && 0 <= j < |regions[i].polygon| ==>
              regions[i].polygon[j].x <= width as real && regions[i].polygon[j].y <= height as real
  {
    for r := 0 to |regions|
      invariant forall i :: 0 <= i < r ==> PolygonWithin(regions[i].polygon, width, height)
    {
      var polygon := regions[r].polygon;
      for p := 0 to |polygon|
        invariant forall i :: 0 <= i < p ==> PointWithin(polygon[i], width, height)
      {
        if polygon[p].x > width as real || polygon[p].y > height as real {
          assert !PointWithin(polygon[p], width, height);
          assert !PolygonWithin(regions[r].polygon, width, height);
          assert regions[r].polygon[p].x > width as real || regions[r].polygon[p].y > height as real;
          return false;
        }
      }
    }
    return true;
  }

  method BuildRegions(runId: Id, ids: seq<Id>, regions: seq<RegionRequest>, at: int)
    returns (rows: Option<Regions>)
    requires |ids| == |regions|
    ensures rows == if RegionsAccepted(regions, at) then Some(RegionRows(runId, ids, regions, at)) else None
    ensures rows.Some? <==> forall i :: 0 <= i < |regions| ==>
              && 3 <= |regions[i].polygon| <= 8
              && (forall k :: 0 <= k < |regions[i].polygon| ==>
                    regions[i].polygon[k].x >= 0.0 && regions[i].polygon[k].y >= 0.0)
              && 1 <= Utf8Length(regions[i].text) <= 20_000
              && (regions[i].confidence.Some? ==> 0.0 <= regions[i].confidence.value <= 1.0)
              && (if regions[i].createdAt.Some? then regions[i].createdAt.value else at) >= 0
  {
    var built: Regions := map[];
    for i := 0 to |regions|
      invariant RegionsAccepted(regions[..i], at)
      invariant built == RegionRows(runId, ids[..i], regions[..i], at)
    {
      if !RegionAccepted(regions[i], at) {
        return None;
      }
      built := built[ids[i] := RegionOf(runId, regions[i], at)];
      assert ids[..i + 1][..i] == ids[..i] && regions[..i + 1][..i] == regions[..i];
    }
    assert ids[..|ids|] == ids && regions[..|regions|] == regions;
    return Some(built);
  }

  /** Writing exactly the rows of a recorded result is the commit step. */
  lemma RecordedIsStep(s: State, req: FinalizeRequest, runId: Id, regionIds: seq<Id>, now: int)
    requires RequestAccepted(req) && exists input :: (req.job, input) in s.snapshots && GeometryAccepted(s, input, req)
    requires CommitAllowed(s, req, now) && !CommitCancels(s.jobs[req.job], req)
    requires FreshIds(s, runId, regionIds, |req.regions|) && Distinct(regionIds)
    requires RowAccepted(Finished(s.jobs[req.job], runId, RunOf(s.jobs[req.job], req), req.retryable, now))
    ensures StepBy(s, Commit(req, runId, regionIds, now), Committed(s, req, runId, regionIds, now))
  {}

  /** Every job that was running is interrupted, but for the pending ones. */
  ghost predicate RecoveredBut(was: Jobs, jobs: Jobs, pending: set<Id>, now: int) {
    && jobs.Keys == was.Keys
    && (forall id :: id in pending ==> id in jobs && jobs[id] == was[id] && jobs[id].status == Running)
    && (forall id :: id in jobs && id !in pending ==>
          && jobs[id].status != Running
          && (jobs[id] == was[id]
              || (was[id].status == Running && was[id].createdAt <= now && jobs[id] == Interrupted(was[id], now))))
  }

  lemma OneMoreRecovered(was: Jobs, before: Jobs, after: Jobs, pending: set<Id>, id: Id, now: int)
    requires RecoveredBut(was, before, pending, now) && id in pending
    requires after == before[id := Interrupted(before[id], now)] && was[id].createdAt <= now
    ensures RecoveredBut(was, after, pending - {id}, now)
  {}

  lemma StepOutcome(s: State, s': State, req: FinalizeRequest, runId: Id, regionIds: seq<Id>, now: int)
    requires StepBy(s, Commit(req, runId, regionIds, now), s') && JobConsistent(s.jobs[req.job])
    ensures req.job in s.jobs && req.job in s'.jobs
    ensures ClosedAs(s.jobs[req.job], s'.jobs[req.job], req.status, req.reason, req.retryable, now)
  {
    var job := s.jobs[req.job];
    if CommitCancels(job, req) {
      CancelledOutcome(job, req.provider, req.status, req.reason, req.retryable, now);
    } else {
      FinishedOutcome(job, runId, RunOf(job, req), req.retryable, now);
    }
  }

  /** What a retry by hand answers about the latest job of the scan. */
  predicate RetryAnswered(job: Job, id: Id, now: int, result: Result<Id, QueueError>) {
    if job.status != Unavailable || job.attempts > 2
       || job.error !in {Some("OCR_PROVIDER_UNAVAILABLE"), Some("OCR_PROVIDER_FAILED"), Some("OCR_RESOURCE_UNAVAILABLE")}
    then result == Err(RetryIneligible)
    else if now < job.createdAt then result == Err(RowRejected)
    else result == Ok(id)
  }

  class Queue {
    const scans: map<Id, Slots>
    const sources: map<Id, Source>
    var jobs: Jobs
    var runs: Runs
    var regions: Regions
    ghost var deliveries: map<Id, Delivery>
    ghost var snapshots: set<(Id, Input)>
    ghost var log: seq<Event>
    ghost var trace: seq<State>

    ghost function Now(): State
      reads this
    {
      State(scans, sources, jobs, runs, regions, deliveries, snapshots, log)
    }

    /** The object's whole history is a run that ends in its present state. */
    ghost predicate Valid()
      reads this
    {
      IsRun(trace) && trace[|trace| - 1] == Now()
    }

    constructor (scans: map<Id, Slots>, sources: map<Id, Source>)
      ensures Valid() && this.scans == scans && this.sources == sources
      ensures jobs == map[] && runs == map[] && regions == map[]
    {
      this.scans, this.sources := scans, sources;
      jobs, runs, regions := map[], map[], map[];
      deliveries, snapshots, log := map[], {}, [];
      trace := [State(scans, sources, map[], map[], map[], map[], {}, [])];
    }

    lemma ValidIsSafe()
      requires Valid()
      ensures Safe(Now())
    {
      RunIsSafe(trace, |trace| - 1);
    }

    lemma HeldIsConsistent(id: Id)
      requires Valid() && id in jobs
      ensures JobConsistent(jobs[id])
    {
      ValidIsSafe();
      SoundJob(Now(), id);
    }

    /** Notes in the history that the step just taken was an allowed one. */
    ghost method Took(before: State, a: Action)
      requires IsRun(trace) && trace[|trace| - 1] == before && StepBy(before, a, Now())
      modifies this`trace
      ensures Valid() && trace == old(trace) + [Now()]
    {
      assert Step(before, Now());
      trace := trace + [Now()];
      forall i | 0 <= i < |trace| - 1
        ensures StepAt(trace, i)
      {
        if i < |trace| - 2 {
          assert StepAt(old(trace), i);
        }
      }
    }

    // ---- queries -----------------------------------------------------------------------------

    method FindActiveForScan(scan: Id) returns (found: Option<Id>)
      ensures found.None? <==> ScanIdle(jobs, scan)
      ensures found.Some? ==> ActiveFor(jobs, scan, found.value)
      ensures found.Some? <==>
                exists id :: id in jobs && jobs[id].input.scan == scan && jobs[id].status in {Queued, Running}
    {
      var candidates := set id | id in jobs && ActiveFor(jobs, scan, id);
      if candidates == {} {
        assert forall id :: id in jobs && ActiveFor(jobs, scan, id) ==> id in candidates;
        return None;
      }
      var first := Oldest(jobs, candidates);
      return Some(first);
    }

    method NextDueJob(now: int) returns (found: Option<Id>)
      ensures found.Some? ==> NextDue(jobs, found.value, now)
      ensures found.None? ==> forall id :: id in jobs ==> !Due(jobs[id], now)
      ensures found.Some? <==> exists id :: id in jobs && jobs[id].status == Queued && !jobs[id].cancel
                                && (jobs[id].nextRetryAt.None? || jobs[id].nextRetryAt.value <= now)
    {
      var candidates := set id | id in jobs && Due(jobs[id], now);
      if candidates == {} {
        assert forall id :: id in jobs && Due(jobs[id], now) ==> id in candidates;
        return None;
      }
      var first := Oldest(jobs, candidates);
      return Some(first);
    }

    // ---- enqueue -----------------------------------------------------------------------------

    /** The second section of enqueue; the first is `FindActiveForScan` and the lookup of the input. */
    method Enqueue(input: Input, id: Id, now: int) returns (result: Result<Id, QueueError>)
      requires Valid() && id !in jobs
      modifies this`jobs, this`log, this`trace
      ensures Valid() && old(trace) <= trace
      ensures !ScanIdle(old(jobs), input.scan) ==>
                result.Ok? && ActiveFor(jobs, input.scan, result.value) && Now() == old(Now())
      ensures ScanIdle(old(jobs), input.scan) && result.Ok? ==>
                result.value == id && StepBy(old(Now()), OcrSystem.Enqueue(id, input, now), Now())
      ensures result.Err? ==> Now() == old(Now())
      ensures result == Err(CapacityExceeded) <==>
                ScanIdle(old(jobs), input.scan) && |ActiveIds(old(jobs))| >= MAX_ACTIVE_JOBS
      ensures ScanIdle(old(jobs), input.scan) && |ActiveIds(old(jobs))| < MAX_ACTIVE_JOBS ==>
                if input.width == 0 || input.height == 0 || now < 0 then result == Err(RowRejected)
                else
                  && result == Ok(id)
                  && jobs == old(jobs)[id := Job(input, Queued, now, now, None, None, 0, true, None, None, None, Unknown,
                                                 None, false)]
    {
      ghost var before := Now();
      var existing := FindActiveForScan(input.scan);
      if existing.Some? {
        return Ok(existing.value);
      }
      if |ActiveIds(jobs)| >= MAX_ACTIVE_JOBS {
        return Err(CapacityExceeded);
      }
      var job := NewJob(input, now);
      if !RowAccepted(job) {
        return Err(RowRejected);
      }
      jobs := jobs[id := job];
      log := log + [Event(id, Queuing, 0)];
      Took(before, OcrSystem.Enqueue(id, input, now));
      return Ok(id);
    }

    // ---- claim -------------------------------------------------------------------------------

    method RecoverOne(id: Id, now: int) returns (ok: bool)
      requires Valid() && id in jobs && jobs[id].status == Running
      modifies this`jobs, this`log, this`trace
      ensures Valid() && old(trace) <= trace
      ensures ok ==> jobs == old(jobs)[id := Interrupted(old(jobs)[id], now)]
      ensures !ok ==> jobs == old(jobs)
      ensures ok <==> old(jobs)[id].createdAt <= now
    {
      ghost var before := Now();
      HeldIsConsistent(id);
      RefusedByClock(jobs[id], now);
      var job := Interrupted(jobs[id], now);
      if !RowAccepted(job) {
        return false;
      }
      log := log + [Event(id, Interrupting, jobs[id].attempts)];
      jobs := jobs[id := job];
      Took(before, Interrupt(id, now));
      return true;
    }

    /** Each job found running is closed or queued again, one durable update at a time. */
    method RecoverInterrupted(now: int) returns (ok: bool)
      requires Valid()
      modifies this`jobs, this`log, this`trace
      ensures Valid() && old(trace) <= trace && jobs.Keys == old(jobs).Keys
      ensures forall id :: id in jobs ==>
                || jobs[id] == old(jobs)[id]
                || (old(jobs)[id].status == Running && jobs[id] == Interrupted(old(jobs)[id], now))
      ensures ok ==> NoneRunning(jobs)
      ensures ok <==> forall id :: id in old(jobs) && old(jobs)[id].status == Running ==> old(jobs)[id].createdAt <= now
      ensures runs == old(runs) && regions == old(regions)
    {
      var pending := set id | id in jobs && jobs[id].status == Running;
      while pending != {}
        invariant Valid() && old(trace) <= trace && RecoveredBut(old(jobs), jobs, pending, now)
        decreases pending
      {
        var id := Oldest(jobs, pending);
        ghost var sofar := jobs;
        var recovered := RecoverOne(id, now);
        if !recovered {
          return false;
        }
        OneMoreRecovered(old(jobs), sofar, jobs, pending, id, now);
        pending := pending - {id};
      }
      return true;
    }

    /** What recovery leaves due. */
    lemma RecoveredJobs(before: Jobs, after: Jobs, now: int)
      requires after.Keys == before.Keys && NoneRunning(after)
      requires forall id :: id in after ==>
                 || after[id] == before[id]
                 || (before[id].status == Running && after[id] == Interrupted(before[id], now))
      ensures forall id :: id in after ==>
                if before[id].status == Running then Became(before[id], after[id], Interrupt(id, now))
                else after[id] == before[id]
      ensures forall id :: id in after ==> (Due(after[id], now) <==> IsDue(before[id], now))
      ensures forall id :: id in after ==> after[id].createdAt == before[id].createdAt
    {
      forall id | id in after && before[id].status == Running
        ensures Became(before[id], after[id], Interrupt(id, now))
        ensures Due(after[id], now) <==> IsDue(before[id], now)
      {
        RecoveredJob(before[id], id, now);
      }
    }

    lemma RecoveredJob(job: Job, id: Id, now: int)
      requires job.status == Running
      ensures Became(job, Interrupted(job, now), Interrupt(id, now))
      ensures Due(Interrupted(job, now), now) <==> IsDue(job, now)
    {}

    lemma AttemptsAreLeft(id: Id, now: int)
      requires Valid() && NextDue(jobs, id, now)
      ensures jobs[id].attempts < MAX_ATTEMPTS
    {
      HeldIsConsistent(id);
    }

    method ClaimOne(id: Id, now: int) returns (result: Result<Option<Id>, QueueError>)
      requires Valid() && NoneRunning(jobs) && NextDue(jobs, id, now)
      modifies this`jobs, this`log, this`trace
      ensures Valid() && old(trace) <= trace
      ensures result == Ok(Some(id)) || result == Err(RowRejected)
      ensures result.Ok? ==> jobs == old(jobs)[id := Claimed(old(jobs)[id], now)]
      ensures result.Ok? <==> old(jobs)[id].createdAt <= now
      ensures result.Ok? ==> Became(old(jobs)[id], jobs[id], Claim(id, now))
      ensures result.Err? ==> jobs == old(jobs)
    {
      ghost var before := Now();
      AttemptsAreLeft(id, now);
      HeldIsConsistent(id);
      RefusedByClock(jobs[id], now);
      if jobs[id].attempts >= MAX_ATTEMPTS {
        return Err(AttemptLimit);
      }
      var job := Claimed(jobs[id], now);
      if !RowAccepted(job) {
        return Err(RowRejected);
      }
      jobs := jobs[id := job];
      log := log + [Event(id, Claiming, job.attempts)];
      Took(before, Claim(id, now));
      return Ok(Some(id));
    }

    /** The job claimed is the oldest due one once every running job has been recovered, and the
        attempt-limit error cannot happen. */
    method ClaimNext(now: int) returns (result: Result<Option<Id>, QueueError>)
      requires Valid()
      modifies this`jobs, this`log, this`trace
      ensures Valid() && old(trace) <= trace && runs == old(runs) && regions == old(regions)
      ensures jobs.Keys == old(jobs).Keys
      ensures result.Err? ==> result.error == RowRejected
      ensures result.Err? <==> exists id :: ClockRefuses(old(jobs), id, now)
      ensures result.Ok? ==> ClaimsNext(old(jobs), jobs, result.value, now)
    {
      var recovered := RecoverInterrupted(now);
      if !recovered {
        assert exists id :: ClockRefuses(old(jobs), id, now) by {
          var id :| id in old(jobs) && old(jobs)[id].status == Running && now < old(jobs)[id].createdAt;
          assert ClockRefuses(old(jobs), id, now);
        }
        return Err(RowRejected);
      }
      ghost var ready := jobs;
      RecoveredJobs(old(jobs), ready, now);
      var due := NextDueJob(now);
      if due.None? {
        return Ok(None);
      }
      FirstOfTheDue(old(jobs), ready, due.value, now);
      result := ClaimOne(due.value, now);
      ClaimedAfterRecovery(old(jobs), ready, jobs, due.value, now, result.Ok?);
    }

    /** The clock was set back past the creation of a running job, or of the one to claim. */
    ghost predicate ClockRefuses(jobs: Jobs, id: Id, now: int) {
      id in jobs && now < jobs[id].createdAt && (jobs[id].status == Running || FirstDue(jobs, id, now))
    }

    /** Every running job is recovered, the first of those then due is claimed if there is one, and only that one
        runs. */
    ghost predicate ClaimsNext(before: Jobs, after: Jobs, claimed: Option<Id>, now: int)
      requires after.Keys == before.Keys
    {
      && (forall id :: id in after && Some(id) != claimed ==>
            if before[id].status == Running then Became(before[id], after[id], Interrupt(id, now))
            else after[id] == before[id])
      && (claimed.Some? <==> exists id :: id in before && IsDue(before[id], now))
      && (claimed.Some? ==>
            && FirstDue(before, claimed.value, now)
            && Became(if before[claimed.value].status == Running then Interrupted(before[claimed.value], now)
                      else before[claimed.value],
                      after[claimed.value], Claim(claimed.value, now))
            && forall id :: id in after && after[id].status == Running ==> id == claimed.value)
    }

    lemma ClaimedAfterRecovery(before: Jobs, ready: Jobs, after: Jobs, first: Id, now: int, ok: bool)
      requires ready.Keys == before.Keys && NoneRunning(ready) && FirstDue(before, first, now)
      requires forall id :: id in ready ==>
                 || (ready[id] == before[id] && before[id].status != Running)
                 || (before[id].status == Running && before[id].createdAt <= now
                     && ready[id] == Interrupted(before[id], now))
      requires ok ==> first in after && after == ready[first := after[first]]
      requires ok ==> Became(ready[first], after[first], Claim(first, now))
      requires ok <==> ready[first].createdAt <= now
      ensures ok ==> after.Keys == before.Keys && ClaimsNext(before, after, Some(first), now)
      ensures !ok <==> exists id :: ClockRefuses(before, id, now)
    {
      if ok {
        forall id
          ensures !ClockRefuses(before, id, now)
        {
          if FirstDue(before, id, now) {
            assert id == first;
          }
        }
      } else {
        assert ClockRefuses(before, first, now);
      }
    }

    /** Nothing due comes before it in the order of the queue. */
    ghost predicate FirstDue(jobs: Jobs, first: Id, now: int) {
      && first in jobs && IsDue(jobs[first], now)
      && forall other :: other in jobs && IsDue(jobs[other], now) ==>
           || jobs[first].createdAt < jobs[other].createdAt
           || (jobs[first].createdAt == jobs[other].createdAt && first <= other)
    }

    lemma FirstOfTheDue(before: Jobs, after: Jobs, first: Id, now: int)
      requires after.Keys == before.Keys && NextDue(after, first, now)
      requires forall id :: id in after ==> (Due(after[id], now) <==> IsDue(before[id], now))
      requires forall id :: id in after ==> after[id].createdAt == before[id].createdAt
      ensures FirstDue(before, first, now)
    {
      forall other | other in before && IsDue(before[other], now)
        ensures Older(after, first, other)
      {
        assert Due(after[other], now);
      }
    }

    /** Due, or running, and then due as soon as it is recovered. */
    predicate IsDue(job: Job, now: int) {
      && !job.cancel
      && ((job.status == Queued && (job.nextRetryAt.None? || job.nextRetryAt.value <= now))
          || (job.status == Running && job.attempts <= 2))
    }

    // ---- cancellation ------------------------------------------------------------------------

    /** A queued job is cancelled at once; a running one is only flagged. */
    method RequestCancellation(id: Id, now: int) returns (result: Result<Status, QueueError>)
      requires Valid()
      modifies this`jobs, this`log, this`trace
      ensures Valid() && old(trace) <= trace
      ensures result.Ok? ==> id in old(jobs) && id in jobs && (jobs[id].cancel || jobs[id].status == Cancelled)
      ensures result.Err? || old(jobs)[id].status == Cancelled ==> Now() == old(Now())
      ensures result.Ok? && Active(old(jobs)[id].status) ==>
                && StepBy(old(Now()), RequestCancel(id, now), Now())
                && result.value == (if old(jobs)[id].status == Queued then Cancelled else Running)
      ensures if id !in old(jobs) then result == Err(JobMissing)
              else if old(jobs)[id].status in {Recognized, Unavailable} then result == Err(AlreadyTerminal)
              else if old(jobs)[id].status == Cancelled then result == Ok(Cancelled)
              else if now < old(jobs)[id].createdAt then result == Err(RowRejected)
              else result.Ok? && id in jobs && Became(old(jobs)[id], jobs[id], RequestCancel(id, now))
    {
      if id !in jobs {
        return Err(JobMissing);
      }
      ghost var before := Now();
      HeldIsConsistent(id);
      RefusedByClock(jobs[id], now);
      var job := jobs[id];
      match job.status {
        case Queued =>
          job := CancelledWhileQueued(job, now);
          if !RowAccepted(job) {
            return Err(RowRejected);
          }
          jobs := jobs[id := job];
          log := log + [Event(id, Withdrawing, job.attempts)];
          Took(before, RequestCancel(id, now));
        case Running =>
          job := Flagged(job, now);
          if !RowAccepted(job) {
            return Err(RowRejected);
          }
          jobs := jobs[id := job];
          Took(before, RequestCancel(id, now));
        case Cancelled =>
        case _ => return Err(AlreadyTerminal);
      }
      return Ok(job.status);
    }

    // ---- complete ----------------------------------------------------------------------------

    method RecordOcrRun(runId: Id, scan: Id, asset: Id, provider: Provider, status: RunStatus, text: string,
                        reason: Option<Reason>, message: Option<string>, warnings: seq<string>,
                        completedAt: Option<int>)
      returns (ok: bool)
      requires Valid() && runId !in runs && runId !in deliveries
      modifies this`runs, this`trace
      ensures Valid() && old(trace) <= trace
      ensures ok <==>
                && HeaderAccepted(provider, message, warnings, completedAt)
                && AssetUsable(old(Now()), scan, asset)
                && RunAccepted(status, text, reason, message)
      ensures ok <==>
                && HeaderInBounds(provider, message, warnings, completedAt)
                && InputIsThere(scans, sources, scan, asset)
                && (if status == Detected then text != "" && reason.None? && message.None?
                    else if status == NoTextDetected then text == "" && reason.None? && message.None?
                    else text == "" && reason.Some?)
      ensures runs == if ok then old(runs)[runId := Run(scan, Some(asset), provider, status, text, reason, message)]
                      else old(runs)
    {
      if !HeaderAccepted(provider, message, warnings, completedAt) || scan !in scans || asset !in sources {
        return false;
      }
      if SlotKind(scans[scan], asset) != Some(sources[asset].kind) || !sources[asset].immutable {
        return false;
      }
      if !RunAccepted(status, text, reason, message) {
        return false;
      }
      ghost var before := Now();
      var run := Run(scan, Some(asset), provider, status, text, reason, message);
      runs := runs[runId := run];
      Took(before, RecordRun(runId, run, warnings, completedAt));
      return true;
    }

    lemma StoredRunIsAccepted(runId: Id)
      requires Valid() && runId in runs
      ensures RunAccepted(runs[runId].status, runs[runId].text, runs[runId].reason, runs[runId].message)
    {
      ValidIsSafe();
    }

    /** A running job closed with a run recorded earlier; a flagged one is cancelled whatever the run says. */
    method CompleteJob(id: Id, runId: Id, retryable: bool, now: int) returns (result: Result<Status, QueueError>)
      requires Valid()
      modifies this`jobs, this`log, this`trace
      ensures Valid() && old(trace) <= trace
      ensures result.Err? ==> Now() == old(Now())
      ensures result.Ok? ==>
                && StepBy(old(Now()), Complete(id, runId, retryable, now), Now())
                && result.value == jobs[id].status
                && (old(jobs)[id].cancel ==> result.value == Cancelled)
      ensures if id !in old(jobs) then result == Err(JobMissing)
              else if old(jobs)[id].status != Running then result == Err(NotRunning)
              else if runId !in runs then result == Err(RunMissing)
              else if runs[runId].scan != old(jobs)[id].input.scan || runs[runId].asset != Some(old(jobs)[id].input.asset)
              then result == Err(RunMismatch)
              else if now < old(jobs)[id].createdAt then result == Err(RowRejected)
              else
                && result.Ok? && id in jobs
                && ClosedAs(old(jobs)[id], jobs[id], runs[runId].status, runs[runId].reason, retryable, now)
                && jobs[id].lastRun == Some(runId) && jobs[id].provider == Some(runs[runId].provider)
    {
      if id !in jobs {
        return Err(JobMissing);
      }
      HeldIsConsistent(id);
      var job := jobs[id];
      if job.status != Running {
        return Err(NotRunning);
      }
      if runId !in runs {
        return Err(RunMissing);
      }
      var run := runs[runId];
      if run.scan != job.input.scan || run.asset != Some(job.input.asset) {
        return Err(RunMismatch);
      }
      StoredRunIsAccepted(runId);
      ClosingRefusedByClock(job, runId, run, run.provider, retryable, now);
      job := CompleteWith(job, runId, run, retryable, now);
      if !RowAccepted(job) {
        return Err(RowRejected);
      }
      StoreCompleted(id, job, runId, retryable, now);
      return Ok(job.status);
    }

    method StoreCompleted(id: Id, job: Job, ghost runId: Id, ghost retryable: bool, ghost now: int)
      requires Valid() && Allowed(Now(), Complete(id, runId, retryable, now))
      requires job == Completed(jobs[id], runId, runs[runId], retryable, now)
      modifies this`jobs, this`log, this`trace
      ensures Valid() && old(trace) <= trace && StepBy(old(Now()), Complete(id, runId, retryable, now), Now())
      ensures jobs == old(jobs)[id := job]
      ensures ClosedAs(old(jobs)[id], job, runs[runId].status, runs[runId].reason, retryable, now)
      ensures job.lastRun == Some(runId) && job.provider == Some(runs[runId].provider)
    {
      ghost var before := Now();
      log := log + [Event(id, Completing, jobs[id].attempts)];
      jobs := jobs[id := job];
      Took(before, Complete(id, runId, retryable, now));
      CompleteOutcome(trace, |trace| - 2, id, runId, retryable, now);
    }

    // ---- finalize ----------------------------------------------------------------------------

    /** The first section: the request is well formed, and its points lie in the source of the job read. */
    method FinalizeRead(req: FinalizeRequest) returns (result: Result<Input, QueueError>)
      requires Valid()
      modifies this`snapshots, this`trace
      ensures Valid() && old(trace) <= trace
      ensures old(snapshots) <= snapshots
      ensures result.Ok? <==>
                && RequestAccepted(req) && req.job in jobs
                && GeometryAccepted(old(Now()), jobs[req.job].input, req)
      ensures result.Ok? ==> result.value == jobs[req.job].input && (req.job, result.value) in snapshots
      ensures result.Err? ==> Now() == old(Now())
      ensures result == Err(RequestInvalid) <==>
                || !HeaderInBounds(req.provider, req.message, req.warnings, req.completedAt)
                || |req.regions| > 20_000 || (req.status != Detected && req.regions != [])
      ensures result == Err(JobMissing) ==> req.job !in jobs
      ensures result == Err(InputUnusable) ==> req.job in jobs && jobs[req.job].input.asset !in sources
      ensures result == Err(GeometryMismatch) ==>
                && req.job in jobs && jobs[req.job].input.asset in sources
                && var source := sources[jobs[req.job].input.asset];
                   || source.width != jobs[req.job].input.width || source.height != jobs[req.job].input.height
                   || source.width == 0 || source.height == 0
      ensures result == Err(OutOfBounds) ==>
                && req.job in jobs
                && (exists i, j :: 0 <= i < |req.regions| && 0 <= j < |req.regions[i].polygon|
                      && (req.regions[i].polygon[j].x > jobs[req.job].input.width as real
                          || req.regions[i].polygon[j].y > jobs[req.job].input.height as real))
      ensures result.Ok? || result.error in {RequestInvalid, JobMissing, InputUnusable, GeometryMismatch, OutOfBounds}
    {
      if !RequestAccepted(req) {
        return Err(RequestInvalid);
      }
      if req.job !in jobs {
        return Err(JobMissing);
      }
      ghost var before := Now();
      var input := jobs[req.job].input;
      if req.status == Detected && req.regions != [] {
        if input.asset !in sources {
          return Err(InputUnusable);
        }
        var source := sources[input.asset];
        if input.width != source.width || input.height != source.height || source.width == 0 || source.height == 0 {
          return Err(GeometryMismatch);
        }
        var ok := RegionsInBounds(req.regions, source.width, source.height);
        if !ok {
          return Err(OutOfBounds);
        }
      }
      snapshots := snapshots + {(req.job, input)};
      Took(before, ReadJob(req.job));
      return Ok(input);
    }

    /** What the transaction may rely on: the first section of the same finalize succeeded. */
    ghost predicate ReadBefore(req: FinalizeRequest)
      reads this
    {
      RequestAccepted(req) && exists input :: (req.job, input) in snapshots && GeometryAccepted(Now(), input, req)
    }

    predicate Holds(req: FinalizeRequest)
      reads this
    {
      req.job in jobs && jobs[req.job].status == Running && jobs[req.job].attempts == req.attempt
    }

    /** A cancellation seen inside the transaction wins: nothing is recorded. */
    method CommitCancelled(req: FinalizeRequest, ghost runId: Id, ghost regionIds: seq<Id>, now: int)
      returns (ok: bool)
      requires Valid() && ReadBefore(req) && Holds(req) && CommitCancels(jobs[req.job], req)
      modifies this`jobs, this`log, this`trace
      ensures Valid() && old(trace) <= trace
      ensures !ok ==> Now() == old(Now())
      ensures ok ==> StepBy(old(Now()), Commit(req, runId, regionIds, now), Now())
      ensures ok ==> jobs[req.job].status == Cancelled
      ensures ok <==> old(jobs)[req.job].createdAt <= now
    {
      ghost var before := Now();
      HeldIsConsistent(req.job);
      var job := CancelledAtCommit(jobs[req.job], req.provider, now);
      if !RowAccepted(job) {
        return false;
      }
      jobs := jobs[req.job := job];
      log := log + [Event(req.job, Dropping, job.attempts)];
      Took(before, Commit(req, runId, regionIds, now));
      return true;
    }

    method InputStillUsable(input: Input) returns (ok: bool)
      ensures ok == InputUsable(Now(), input)
      ensures ok == InputIsThere(scans, sources, input.scan, input.asset)
    {
      if input.scan !in scans || input.asset !in sources {
        return false;
      }
      var kind := SlotKind(scans[input.scan], input.asset);
      return kind == Some(sources[input.asset].kind) && sources[input.asset].immutable;
    }

    /** The rows of a result, or why there are none. Nothing is visible yet. */
    method BuildRows(req: FinalizeRequest, runId: Id, regionIds: seq<Id>, now: int)
      returns (built: Result<(Job, Regions), QueueError>)
      requires Holds(req) && !CommitCancels(jobs[req.job], req) && |regionIds| == |req.regions|
      ensures built.Ok? ==>
                && CommitAllowed(Now(), req, now)
                && built.value.0 == Finished(jobs[req.job], runId, RunOf(jobs[req.job], req), req.retryable, now)
                && RowAccepted(built.value.0)
                && built.value.1 == RegionRows(runId, regionIds, req.regions, CompletionTime(req, now))
      ensures if !InputIsThere(scans, sources, jobs[req.job].input.scan, jobs[req.job].input.asset)
              then built == Err(InputUnusable)
              else if !RunAccepted(req.status, req.text, req.reason, req.message) then built == Err(RunStateInvalid)
              else if !RegionsAccepted(req.regions, CompletionTime(req, now)) then built == Err(RegionInvalid)
              else built.Ok? || (built == Err(RowRejected)
                     && !RowAccepted(Finished(jobs[req.job], runId, RunOf(jobs[req.job], req), req.retryable, now)))
    {
      var usable := InputStillUsable(jobs[req.job].input);
      if !usable {
        return Err(InputUnusable);
      }
      if !RunAccepted(req.status, req.text, req.reason, req.message) {
        return Err(RunStateInvalid);
      }
      var rows := BuildRegions(runId, regionIds, req.regions, CompletionTime(req, now));
      if rows.None? {
        return Err(RegionInvalid);
      }
      var job := ApplyTerminalTransition(jobs[req.job], runId, RunOf(jobs[req.job], req), req.retryable, now);
      return if RowAccepted(job) then Ok((job, rows.value)) else Err(RowRejected);
    }

    /** All rows of the result are built before any of them becomes visible. */
    method CommitRecorded(req: FinalizeRequest, runId: Id, regionIds: seq<Id>, now: int)
      returns (failure: Option<QueueError>)
      requires Valid() && ReadBefore(req) && Holds(req) && !CommitCancels(jobs[req.job], req)
      requires FreshIds(Now(), runId, regionIds, |req.regions|) && Distinct(regionIds)
      modifies this`jobs, this`runs, this`regions, this`deliveries, this`log, this`trace
      ensures Valid() && old(trace) <= trace
      ensures failure.Some? ==> Now() == old(Now())
      ensures failure.None? ==> StepBy(old(Now()), Commit(req, runId, regionIds, now), Now())
      ensures failure.None? ==> jobs[req.job].status != Cancelled
      ensures if !InputIsThere(scans, sources, old(jobs)[req.job].input.scan, old(jobs)[req.job].input.asset)
              then failure == Some(InputUnusable)
              else if !RunAccepted(req.status, req.text, req.reason, req.message) then failure == Some(RunStateInvalid)
              else if !RegionsAccepted(req.regions, CompletionTime(req, now)) then failure == Some(RegionInvalid)
              else if now < old(jobs)[req.job].createdAt then failure == Some(RowRejected)
              else failure.None?
    {
      HeldIsConsistent(req.job);
      ClosingRefusedByClock(jobs[req.job], runId, RunOf(jobs[req.job], req), req.provider, req.retryable, now);
      var built := BuildRows(req, runId, regionIds, now);
      if built.Err? {
        return Some(built.error);
      }
      StoreRecorded(req, runId, regionIds, built.value.0, built.value.1, now);
      return None;
    }

    method StoreRecorded(req: FinalizeRequest, runId: Id, ghost regionIds: seq<Id>, job: Job, rows: Regions,
                         ghost now: int)
      requires Valid() && ReadBefore(req) && Holds(req) && !CommitCancels(jobs[req.job], req)
      requires FreshIds(Now(), runId, regionIds, |req.regions|) && Distinct(regionIds)
      requires CommitAllowed(Now(), req, now) && RowAccepted(job)
      requires job == Finished(jobs[req.job], runId, RunOf(jobs[req.job], req), req.retryable, now)
      requires rows == RegionRows(runId, regionIds, req.regions, CompletionTime(req, now))
      modifies this`jobs, this`runs, this`regions, this`deliveries, this`log, this`trace
      ensures Valid() && old(trace) <= trace && StepBy(old(Now()), Commit(req, runId, regionIds, now), Now())
      ensures req.job in jobs && jobs[req.job] == job
    {
      ghost var before := Now();
      StoreResult(req, runId, regionIds, job, rows);
      assert Now() == Committed(before, req, runId, regionIds, now);
      RecordedIsStep(before, req, runId, regionIds, now);
      Took(before, Commit(req, runId, regionIds, now));
    }

    method StoreResult(req: FinalizeRequest, runId: Id, ghost regionIds: seq<Id>, job: Job, rows: Regions)
      requires req.job in jobs
      modifies this`jobs, this`runs, this`regions, this`deliveries, this`log
      ensures jobs == old(jobs)[req.job := job] && regions == old(regions) + rows
      ensures runs == old(runs)[runId := RunOf(old(jobs)[req.job], req)]
      ensures deliveries == old(deliveries)[runId := Delivery(req.job, req.attempt, regionIds, req.regions)]
      ensures log == old(log) + [Event(req.job, Recording, req.attempt)]
    {
      runs := runs[runId := RunOf(jobs[req.job], req)];
      regions := regions + rows;
      jobs := jobs[req.job := job];
      deliveries := deliveries[runId := Delivery(req.job, req.attempt, regionIds, req.regions)];
      log := log + [Event(req.job, Recording, req.attempt)];
    }

    /** The transaction: job, run and regions change together or not at all. */
    method FinalizeCommit(req: FinalizeRequest, runId: Id, regionIds: seq<Id>, now: int)
      returns (result: Result<Resolution, QueueError>)
      requires Valid() && ReadBefore(req)
      requires FreshIds(Now(), runId, regionIds, |req.regions|) && Distinct(regionIds)
      modifies this`jobs, this`runs, this`regions, this`deliveries, this`log, this`trace
      ensures Valid() && old(trace) <= trace
      ensures result.Err? ==> Now() == old(Now())
      ensures result.Ok? ==> StepBy(old(Now()), Commit(req, runId, regionIds, now), Now())
      ensures result.Ok? ==> req.job in jobs && result.value == ResolutionOf(jobs[req.job].status)
      ensures result.Ok? && old(jobs)[req.job].cancel ==> result.value == CancelledBeforeCommit
      ensures result == Ok(CancelledBeforeCommit) ==> runs == old(runs) && regions == old(regions)
      ensures result.Ok? ==> (result.value == CompletedRun <==> jobs[req.job].status == Recognized)
      ensures result.Ok? ==> (result.value == RetryScheduled <==> jobs[req.job].status == Queued)
      ensures result.Ok? ==> (result.value == TerminalUnavailable <==> jobs[req.job].status == Unavailable)
      ensures result.Ok? ==> (result.value == CancelledBeforeCommit <==> jobs[req.job].status == Cancelled)
      ensures result.Ok? ==> ClosedAs(old(jobs)[req.job], jobs[req.job], req.status, req.reason, req.retryable, now)
      ensures if req.job !in old(jobs) then result == Err(JobMissing)
              else if old(jobs)[req.job].status != Running then result == Err(NotRunning)
              else if old(jobs)[req.job].attempts != req.attempt then result == Err(StaleAttempt)
              else
                var cancels := old(jobs)[req.job].cancel || req.reason == Some(CancelledByUser);
                if !cancels && !InputIsThere(scans, sources, old(jobs)[req.job].input.scan, old(jobs)[req.job].input.asset)
                then result == Err(InputUnusable)
                else if !cancels && !RunAccepted(req.status, req.text, req.reason, req.message)
                then result == Err(RunStateInvalid)
                else if !cancels && !RegionsAccepted(req.regions, CompletionTime(req, now))
                then result == Err(RegionInvalid)
                else if now < old(jobs)[req.job].createdAt then result == Err(RowRejected)
                else result.Ok?
    {
      if req.job !in jobs {
        return Err(JobMissing);
      }
      if jobs[req.job].status != Running {
        return Err(NotRunning);
      }
      if jobs[req.job].attempts != req.attempt {
        return Err(StaleAttempt);
      }
      HeldIsConsistent(req.job);
      if CommitCancels(jobs[req.job], req) {
        var dropped := CommitCancelled(req, runId, regionIds, now);
        if dropped {
          StepOutcome(old(Now()), Now(), req, runId, regionIds, now);
        }
        return if dropped then Ok(CancelledBeforeCommit) else Err(RowRejected);
      }
      var failure := CommitRecorded(req, runId, regionIds, now);
      if failure.Some? {
        return Err(failure.value);
      }
      StepOutcome(old(Now()), Now(), req, runId, regionIds, now);
      return Ok(ResolutionOf(jobs[req.job].status));
    }

    // ---- retry by hand -----------------------------------------------------------------------

    method FindLatestForScan(scan: Id) returns (found: Option<Id>)
      ensures found.Some? ==> LatestFor(jobs, scan, found.value)
      ensures found.Some? ==> forall id :: id in jobs && jobs[id].input.scan == scan ==>
                && jobs[id].updatedAt <= jobs[found.value].updatedAt
                && (jobs[id].updatedAt == jobs[found.value].updatedAt ==>
                      jobs[id].createdAt <= jobs[found.value].createdAt)
                && (jobs[id].updatedAt == jobs[found.value].updatedAt ==>
                      jobs[id].createdAt == jobs[found.value].createdAt ==> id <= found.value)
      ensures found.None? ==> forall id :: id in jobs ==> jobs[id].input.scan != scan
    {
      var candidates := set id | id in jobs && jobs[id].input.scan == scan;
      if candidates == {} {
        assert forall id :: id in jobs && jobs[id].input.scan == scan ==> id in candidates;
        return None;
      }
      var last := Newest(jobs, candidates);
      return Some(last);
    }

    method RetryJob(id: Id, now: int) returns (ok: bool)
      requires Valid() && id in jobs && ScanIdle(jobs, jobs[id].input.scan)
      requires LatestFor(jobs, jobs[id].input.scan, id) && RetryEligible(jobs[id])
      modifies this`jobs, this`log, this`trace
      ensures Valid() && old(trace) <= trace
      ensures ok ==> StepBy(old(Now()), RetryByHand(id, now), Now())
      ensures ok ==> jobs[id].status == Queued && jobs[id].attempts == old(jobs)[id].attempts
      ensures !ok ==> Now() == old(Now())
      ensures ok <==> old(jobs)[id].createdAt <= now
      ensures ok ==> Became(old(jobs)[id], jobs[id], RetryByHand(id, now))
    {
      ghost var before := Now();
      HeldIsConsistent(id);
      RefusedByClock(jobs[id], now);
      var job := jobs[id].(status := Queued, updatedAt := now, startedAt := None, completedAt := None,
                           retryable := true, nextRetryAt := Some(now), cancel := false);
      if !RowAccepted(job) {
        return false;
      }
      jobs := jobs[id := job];
      log := log + [Event(id, Retrying, job.attempts)];
      Took(before, RetryByHand(id, now));
      return true;
    }

    /** Requeues the scan's latest job, if it ended for a passing reason with attempts to spare. */
    method ManualRetry(scan: Id, now: int) returns (result: Result<Id, QueueError>)
      requires Valid()
      modifies this`jobs, this`log, this`trace
      ensures Valid() && old(trace) <= trace
      ensures result.Err? ==> Now() == old(Now())
      ensures result.Ok? ==>
                && LatestFor(old(jobs), scan, result.value) && RetryEligible(old(jobs)[result.value])
                && ScanIdle(old(jobs), scan)
                && StepBy(old(Now()), RetryByHand(result.value, now), Now())
                && result.value in jobs
                && Became(old(jobs)[result.value], jobs[result.value], RetryByHand(result.value, now))
      ensures if exists id :: id in old(jobs) && old(jobs)[id].input.scan == scan
                              && old(jobs)[id].status in {Queued, Running}
              then result == Err(RetryIneligible)
              else if forall id :: id in old(jobs) ==> old(jobs)[id].input.scan != scan then result == Err(JobMissing)
              else
                exists id :: LatestFor(old(jobs), scan, id) && RetryAnswered(old(jobs)[id], id, now, result)
    {
      var active := FindActiveForScan(scan);
      if active.Some? {
        return Err(RetryIneligible);
      }
      var latest := FindLatestForScan(scan);
      if latest.None? {
        return Err(JobMissing);
      }
      if !RetryEligible(jobs[latest.value]) {
        return Err(RetryIneligible);
      }
      var retried := RetryJob(latest.value, now);
      return if retried then Ok(latest.value) else Err(RowRejected);
    }
  }
}
