/**
 * The OCR queue as a transition system. The durable state is the job, run and region tables; each
 * section the core executes while holding the storage lock is one action, so sections of different
 * operations interleave freely. `snapshots` is what finalize remembers between its first section and its
 * transaction, and `log` only records what happened.
 */
module OcrSystem {
  import opened Prelude
  import opened IdCodec
  import opened OcrJobs

  datatype Slots = Slots(original: Id, corrected: Option<Id>, ocr: Option<Id>)

  datatype Source = Source(kind: InputKind, immutable: bool, width: nat, height: nat)

  type Jobs = map<Id, Job>
  type Runs = map<Id, Run>
  type Regions = map<Id, Region>

  datatype EventKind =
    | Queuing        // inserted by enqueue
    | Claiming
    | Recording      // finalize wrote a run
    | Dropping       // finalize found the job cancelled
    | Completing     // complete closed the job with a run recorded earlier
    | Interrupting   // recovery found the job running
    | Withdrawing    // cancelled while queued
    | Retrying       // retried by hand

  datatype Event = Event(job: Id, kind: EventKind, attempt: nat)

  /** What a finalize wrote: the job and attempt it served, and its regions in order. */
  datatype Delivery = Delivery(job: Id, attempt: nat, regionIds: seq<Id>, regions: seq<RegionRequest>)

  datatype State = State(
    scans: map<Id, Slots>,
    sources: map<Id, Source>,
    jobs: Jobs,
    runs: Runs,
    regions: Regions,
    deliveries: map<Id, Delivery>,
    snapshots: set<(Id, Input)>,
    log: seq<Event>
  )

  datatype Action =
    | Enqueue(id: Id, input: Input, now: int)
    | Interrupt(id: Id, now: int)
    | Claim(id: Id, now: int)
    | RequestCancel(id: Id, now: int)
    | RecordRun(runId: Id, run: Run, warnings: seq<string>, completedAt: Option<int>)
    | Complete(id: Id, runId: Id, retryable: bool, now: int)
    | ReadJob(id: Id)
    | Commit(req: FinalizeRequest, runId: Id, regionIds: seq<Id>, now: int)
    | RetryByHand(id: Id, now: int)
    | Restart

  // ---- queries -------------------------------------------------------------------------------

  function ActiveIds(jobs: Jobs): set<Id> {
    set id | id in jobs && Active(jobs[id].status)
  }

  predicate ActiveFor(jobs: Jobs, scan: Id, id: Id) {
    id in jobs && Active(jobs[id].status) && jobs[id].input.scan == scan
  }

  predicate ScanIdle(jobs: Jobs, scan: Id) {
    forall id :: id in jobs ==> !ActiveFor(jobs, scan, id)
  }

  predicate NoneRunning(jobs: Jobs) {
    forall id :: id in jobs ==> jobs[id].status != Running
  }

  predicate Due(job: Job, now: int) {
    job.status == Queued && !job.cancel && (job.nextRetryAt.Some? ==> job.nextRetryAt.value <= now)
  }

  /** `ORDER BY created_at, id`: the text order of ids is their numeric order. */
  predicate Older(jobs: Jobs, a: Id, b: Id)
    requires a in jobs && b in jobs
  {
    jobs[a].createdAt < jobs[b].createdAt || (jobs[a].createdAt == jobs[b].createdAt && a <= b)
  }

  predicate NextDue(jobs: Jobs, id: Id, now: int) {
    && id in jobs && Due(jobs[id], now)
    && forall other {:trigger Older(jobs, id, other)} ::
         other in jobs && Due(jobs[other], now) ==> Older(jobs, id, other)
  }

  /** `ORDER BY updated_at DESC, created_at DESC, id DESC`. */
  predicate NoNewer(jobs: Jobs, a: Id, b: Id)
    requires a in jobs && b in jobs
  {
    || jobs[b].updatedAt > jobs[a].updatedAt
    || (jobs[b].updatedAt == jobs[a].updatedAt && Older(jobs, a, b))
  }

  predicate LatestFor(jobs: Jobs, scan: Id, id: Id) {
    && id in jobs && jobs[id].input.scan == scan
    && forall other {:trigger NoNewer(jobs, other, id)} ::
         other in jobs && jobs[other].input.scan == scan ==> NoNewer(jobs, other, id)
  }

  predicate RetryEligible(job: Job) {
    && job.status == Unavailable && job.attempts < MAX_ATTEMPTS
    && job.error in {Some("OCR_PROVIDER_UNAVAILABLE"), Some("OCR_PROVIDER_FAILED"),
                     Some("OCR_RESOURCE_UNAVAILABLE")}
  }

  /** The kind of the scan's slot the asset sits in, tried in the order original, corrected, OCR. */
  function SlotKind(slots: Slots, asset: Id): Option<InputKind> {
    if asset == slots.original then Some(OriginalInput)
    else if slots.corrected == Some(asset) then Some(CorrectedInput)
    else if slots.ocr == Some(asset) then Some(OcrInput)
    else None
  }

  /** The scan is there, the asset sits in one of its slots and is of that slot's kind, and cannot change. */
  predicate AssetUsable(s: State, scan: Id, asset: Id) {
    && scan in s.scans && asset in s.sources
    && SlotKind(s.scans[scan], asset) == Some(s.sources[asset].kind)
    && s.sources[asset].immutable
  }

  predicate InputUsable(s: State, input: Input) {
    AssetUsable(s, input.scan, input.asset)
  }

  /** The first section of finalize accepts the regions against the decoded source of the job it read. */
  predicate GeometryAccepted(s: State, input: Input, req: FinalizeRequest) {
    req.status == Detected && req.regions != [] ==>
      && input.asset in s.sources
      && s.sources[input.asset].width == input.width > 0
      && s.sources[input.asset].height == input.height > 0
      && RegionsWithin(req.regions, input.width, input.height)
  }

  function CompletionTime(req: FinalizeRequest, now: int): int {
    if req.completedAt.Some? then req.completedAt.value else now
  }

  function RunOf(job: Job, req: FinalizeRequest): Run {
    Run(job.input.scan, Some(job.input.asset), req.provider, req.status, req.text, req.reason, req.message)
  }

  function RegionOf(runId: Id, r: RegionRequest, completedAt: int): Region {
    Region(runId, r.polygon, r.text, r.confidence,
           if r.createdAt.Some? then r.createdAt.value else completedAt)
  }

  predicate CommitCancels(job: Job, req: FinalizeRequest) {
    job.cancel || req.reason == Some(CancelledByUser)
  }

  ghost predicate Distinct(ids: seq<Id>) {
    forall i, j :: 0 <= i < j < |ids| ==> ids[i] != ids[j]
  }

  // ---- when an action succeeds ---------------------------------------------------------------

  predicate CommitAllowed(s: State, req: FinalizeRequest, now: int) {
    && req.job in s.jobs
    && s.jobs[req.job].status == Running
    && s.jobs[req.job].attempts == req.attempt
    && var job := s.jobs[req.job];
       if CommitCancels(job, req) then RowAccepted(CancelledAtCommit(job, req.provider, now))
       else
         && InputUsable(s, job.input)
         && RunAccepted(req.status, req.text, req.reason, req.message)
         && RegionsAccepted(req.regions, CompletionTime(req, now))
  }

  predicate FreshIds(s: State, runId: Id, regionIds: seq<Id>, count: nat) {
    && runId !in s.runs && runId !in s.deliveries
    && |regionIds| == count
    && forall i :: 0 <= i < count ==> regionIds[i] !in s.regions
  }

  ghost predicate Allowed(s: State, a: Action) {
    match a
    case Enqueue(id, input, now) =>
      && id !in s.jobs && ScanIdle(s.jobs, input.scan)
      && |ActiveIds(s.jobs)| < MAX_ACTIVE_JOBS && RowAccepted(NewJob(input, now))
    case Interrupt(id, now) =>
      id in s.jobs && s.jobs[id].status == Running && RowAccepted(Interrupted(s.jobs[id], now))
    case Claim(id, now) =>
      && NoneRunning(s.jobs) && NextDue(s.jobs, id, now)
      && s.jobs[id].attempts < MAX_ATTEMPTS && RowAccepted(Claimed(s.jobs[id], now))
    case RequestCancel(id, now) =>
      && id in s.jobs && Active(s.jobs[id].status)
      && RowAccepted(if s.jobs[id].status == Queued then CancelledWhileQueued(s.jobs[id], now)
                     else Flagged(s.jobs[id], now))
    case RecordRun(runId, run, warnings, completedAt) =>
      && runId !in s.runs && runId !in s.deliveries
      && HeaderAccepted(run.provider, run.message, warnings, completedAt)
      && run.asset.Some? && AssetUsable(s, run.scan, run.asset.value)
      && RunAccepted(run.status, run.text, run.reason, run.message)
    case Complete(id, runId, retryable, now) =>
      && id in s.jobs && s.jobs[id].status == Running && runId in s.runs
      && s.runs[runId].scan == s.jobs[id].input.scan
      && s.runs[runId].asset == Some(s.jobs[id].input.asset)
      && RunAccepted(s.runs[runId].status, s.runs[runId].text, s.runs[runId].reason, s.runs[runId].message)
      && RowAccepted(Completed(s.jobs[id], runId, s.runs[runId], retryable, now))
    case ReadJob(id) => id in s.jobs
    case Commit(req, runId, regionIds, now) =>
      && RequestAccepted(req) && CommitAllowed(s, req, now)
      && (exists input :: (req.job, input) in s.snapshots && GeometryAccepted(s, input, req))
      && (!CommitCancels(s.jobs[req.job], req) ==>
            && FreshIds(s, runId, regionIds, |req.regions|) && Distinct(regionIds)
            && RowAccepted(Finished(s.jobs[req.job], runId, RunOf(s.jobs[req.job], req), req.retryable, now)))
    case RetryByHand(id, now) =>
      && id in s.jobs && ScanIdle(s.jobs, s.jobs[id].input.scan)
      && LatestFor(s.jobs, s.jobs[id].input.scan, id)
      && RetryEligible(s.jobs[id]) && RowAccepted(RetriedByHand(s.jobs[id], now))
    case Restart => true
  }

  function Completed(job: Job, runId: Id, run: Run, retryable: bool, now: int): Job
    requires RunAccepted(run.status, run.text, run.reason, run.message)
  {
    if job.cancel || run.reason == Some(CancelledByUser) then CancelledAtCompletion(job, runId, run, now)
    else Finished(job, runId, run, retryable, now)
  }

  // ---- what it does --------------------------------------------------------------------------

  function WithJob(s: State, id: Id, job: Job): State {
    s.(jobs := s.jobs[id := job])
  }

  function Logged(s: State, id: Id, kind: EventKind, attempt: nat): State {
    s.(log := s.log + [Event(id, kind, attempt)])
  }

  function RegionRows(runId: Id, ids: seq<Id>, regions: seq<RegionRequest>, completedAt: int): Regions
    requires |ids| == |regions|
  {
    if ids == [] then map[]
    else
      var n := |ids| - 1;
      RegionRows(runId, ids[..n], regions[..n], completedAt)[ids[n] := RegionOf(runId, regions[n], completedAt)]
  }

  /** The finalize transaction, all or nothing. */
  ghost function Committed(s: State, req: FinalizeRequest, runId: Id, regionIds: seq<Id>, now: int): State
    requires req.job in s.jobs
    requires !CommitCancels(s.jobs[req.job], req) ==>
               |regionIds| == |req.regions| && RunAccepted(req.status, req.text, req.reason, req.message)
  {
    var job := s.jobs[req.job];
    if CommitCancels(job, req) then
      Logged(WithJob(s, req.job, CancelledAtCommit(job, req.provider, now)), req.job, Dropping, job.attempts)
    else
      var run := RunOf(job, req);
      Logged(
        WithJob(s, req.job, Finished(job, runId, run, req.retryable, now)).(
          runs := s.runs[runId := run],
          regions := s.regions + RegionRows(runId, regionIds, req.regions, CompletionTime(req, now)),
          deliveries := s.deliveries[runId := Delivery(req.job, job.attempts, regionIds, req.regions)]),
        req.job, Recording, job.attempts)
  }

  ghost function Next(s: State, a: Action): State
    requires Allowed(s, a)
  {
    match a
    case Enqueue(id, input, now) => Logged(WithJob(s, id, NewJob(input, now)), id, Queuing, 0)
    case Interrupt(id, now) =>
      Logged(WithJob(s, id, Interrupted(s.jobs[id], now)), id, Interrupting, s.jobs[id].attempts)
    case Claim(id, now) =>
      Logged(WithJob(s, id, Claimed(s.jobs[id], now)), id, Claiming, s.jobs[id].attempts + 1)
    case RequestCancel(id, now) =>
      if s.jobs[id].status == Queued then
        Logged(WithJob(s, id, CancelledWhileQueued(s.jobs[id], now)), id, Withdrawing, s.jobs[id].attempts)
      else WithJob(s, id, Flagged(s.jobs[id], now))
    case RecordRun(runId, run, warnings, completedAt) => s.(runs := s.runs[runId := run])
    case Complete(id, runId, retryable, now) =>
      Logged(WithJob(s, id, Completed(s.jobs[id], runId, s.runs[runId], retryable, now)), id, Completing,
             s.jobs[id].attempts)
    case ReadJob(id) => s.(snapshots := s.snapshots + {(id, s.jobs[id].input)})
    case Commit(req, runId, regionIds, now) => Committed(s, req, runId, regionIds, now)
    case RetryByHand(id, now) =>
      Logged(WithJob(s, id, RetriedByHand(s.jobs[id], now)), id, Retrying, s.jobs[id].attempts)
    case Restart => s.(snapshots := {})
  }

  ghost predicate StepBy(s: State, a: Action, s': State) {
    Allowed(s, a) && s' == Next(s, a)
  }

  // ---- runs ----------------------------------------------------------------------------------

  ghost predicate Initial(s: State) {
    && s.jobs == map[] && s.regions == map[] && s.deliveries == map[] && s.snapshots == {} && s.log == []
    && forall r :: r in s.runs ==>
         RunAccepted(s.runs[r].status, s.runs[r].text, s.runs[r].reason, s.runs[r].message)
  }

  ghost predicate Step(s: State, s': State) {
    exists a :: StepBy(s, a, s')
  }

  ghost predicate StepAt(run: seq<State>, i: nat)
    requires i + 1 < |run|
  {
    Step(run[i], run[i + 1])
  }

  ghost predicate IsRun(run: seq<State>) {
    && run != [] && Initial(run[0])
    && forall i :: 0 <= i < |run| - 1 ==> StepAt(run, i)
  }
}
