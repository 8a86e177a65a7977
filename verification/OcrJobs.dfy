/**
 * OCR jobs, runs and regions, and what one operation does to one job. The methods of the queue apply
 * these functions to the row they read and write the result back.
 */
module OcrJobs {
  import opened Prelude
  import opened IdCodec
  import opened Texts

  const MAX_ACTIVE_JOBS := 64
  const MAX_ATTEMPTS := 3
  const BASE_RETRY_DELAY := 2_000
  const MAX_RETRY_DELAY := 30_000
  const MAX_TIME := 0x7fff_ffff_ffff_ffff
  const MAX_LABEL_BYTES := 120
  const MAX_WARNINGS := 64
  const MAX_WARNING_BYTES := 1_000
  const MAX_REGIONS := 20_000
  const MIN_POLYGON := 3
  const MAX_POLYGON := 8
  const MAX_REGION_BYTES := 20_000

  datatype Status = Queued | Running | Recognized | Unavailable | Cancelled

  datatype Availability = Unknown | Available | ProviderAbsent | Failed

  datatype Reason = ProviderUnavailable | ProviderFailed | ResourceUnavailable | UnsupportedInput | CancelledByUser

  datatype InputKind = OriginalInput | CorrectedInput | OcrInput

  datatype Input = Input(scan: Id, asset: Id, kind: InputKind, width: nat, height: nat)

  datatype Provider = Provider(name: string, version: string, model: Option<string>)

  datatype Job = Job(
    input: Input,
    status: Status,
    createdAt: int,
    updatedAt: int,
    startedAt: Option<int>,
    completedAt: Option<int>,
    attempts: nat,
    retryable: bool,
    nextRetryAt: Option<int>,
    error: Option<string>,
    provider: Option<Provider>,
    availability: Availability,
    lastRun: Option<Id>,
    cancel: bool
  )

  datatype RunStatus = Detected | NoTextDetected | RunUnavailable

  datatype Run = Run(
    scan: Id,
    asset: Option<Id>,
    provider: Provider,
    status: RunStatus,
    text: string,
    reason: Option<Reason>,
    message: Option<string>
  )

  datatype Point = Point(x: real, y: real)

  datatype RegionRequest = RegionRequest(
    polygon: seq<Point>,
    text: string,
    confidence: Option<real>,
    createdAt: Option<int>
  )

  datatype Region = Region(run: Id, polygon: seq<Point>, text: string, confidence: Option<real>, createdAt: int)

  datatype FinalizeRequest = FinalizeRequest(
    job: Id,
    attempt: nat,
    provider: Provider,
    status: RunStatus,
    text: string,
    reason: Option<Reason>,
    message: Option<string>,
    completedAt: Option<int>,
    warnings: seq<string>,
    retryable: bool,
    regions: seq<RegionRequest>
  )

  // ---- what the tables accept ----------------------------------------------------------------

  predicate Active(status: Status) {
    status == Queued || status == Running
  }

  predicate Before(earliest: int, at: Option<int>) {
    at.Some? ==> earliest <= at.value
  }

  /** The CHECK constraints on a job row. */
  predicate RowAccepted(job: Job) {
    && job.input.width > 0 && job.input.height > 0
    && 0 <= job.createdAt <= job.updatedAt
    && Before(job.createdAt, job.startedAt)
    && Before(job.createdAt, job.completedAt)
    && job.attempts <= 25
    && Before(0, job.nextRetryAt)
    && (!job.retryable ==> job.nextRetryAt.None?)
    && (job.status == Queued ==> job.startedAt.None? && job.completedAt.None?)
    && (job.status == Running ==> job.startedAt.Some? && job.completedAt.None?)
    && (!Active(job.status) ==> job.completedAt.Some?)
  }

  /** The terminal states an OCR run may be stored in. */
  predicate RunAccepted(status: RunStatus, text: string, reason: Option<Reason>, message: Option<string>) {
    match status
    case Detected => text != "" && reason.None? && message.None?
    case NoTextDetected => text == "" && reason.None? && message.None?
    case RunUnavailable => text == "" && reason.Some?
  }

  predicate RegionAccepted(r: RegionRequest, completedAt: int) {
    && MIN_POLYGON <= |r.polygon| <= MAX_POLYGON
    && (forall i :: 0 <= i < |r.polygon| ==> r.polygon[i].x >= 0.0 && r.polygon[i].y >= 0.0)
    && 0 < Utf8Length(r.text) <= MAX_REGION_BYTES
    && (r.confidence.Some? ==> 0.0 <= r.confidence.value <= 1.0)
    && 0 <= (if r.createdAt.Some? then r.createdAt.value else completedAt)
  }

  predicate RegionsAccepted(regions: seq<RegionRequest>, completedAt: int) {
    forall i :: 0 <= i < |regions| ==> RegionAccepted(regions[i], completedAt)
  }

  // ---- checks on the finalize request --------------------------------------------------------

  predicate LabelAccepted(text: string) {
    0 < Utf8Length(text) <= MAX_LABEL_BYTES
  }

  /** What recording a run and finalizing a job both demand of the provider and the texts. */
  predicate HeaderAccepted(provider: Provider, message: Option<string>, warnings: seq<string>,
                           completedAt: Option<int>) {
    && LabelAccepted(provider.name) && LabelAccepted(provider.version)
    && (provider.model.Some? ==> LabelAccepted(provider.model.value))
    && Before(0, completedAt)
    && (message.Some? ==> 0 < Utf8Length(message.value) <= MAX_WARNING_BYTES)
    && |warnings| <= MAX_WARNINGS
    && (forall i :: 0 <= i < |warnings| ==> 0 < Utf8Length(warnings[i]) <= MAX_WARNING_BYTES)
  }

  predicate RequestAccepted(req: FinalizeRequest) {
    && HeaderAccepted(req.provider, req.message, req.warnings, req.completedAt)
    && |req.regions| <= MAX_REGIONS
    && (req.status != Detected ==> req.regions == [])
  }

  predicate PointWithin(p: Point, width: nat, height: nat) {
    p.x <= width as real && p.y <= height as real
  }

  predicate PolygonWithin(polygon: seq<Point>, width: nat, height: nat) {
    forall i :: 0 <= i < |polygon| ==> PointWithin(polygon[i], width, height)
  }

  predicate RegionsWithin(regions: seq<RegionRequest>, width: nat, height: nat) {
    forall i :: 0 <= i < |regions| ==> PolygonWithin(regions[i].polygon, width, height)
  }

  // ---- retry policy --------------------------------------------------------------------------

  predicate Retryable(reason: Reason) {
    reason == ProviderUnavailable || reason == ProviderFailed || reason == ResourceUnavailable
  }

  function AvailabilityFor(reason: Reason): Availability {
    match reason
    case ProviderFailed => Failed
    case ProviderUnavailable => ProviderAbsent
    case ResourceUnavailable => ProviderAbsent
    case UnsupportedInput => Available
    case CancelledByUser => Available
  }

  function ErrorFor(reason: Reason): string {
    match reason
    case ProviderUnavailable => "OCR_PROVIDER_UNAVAILABLE"
    case ProviderFailed => "OCR_PROVIDER_FAILED"
    case ResourceUnavailable => "OCR_RESOURCE_UNAVAILABLE"
    case UnsupportedInput => "OCR_UNSUPPORTED_INPUT"
    case CancelledByUser => "OCR_CANCELLED"
  }

  function Doublings(n: nat): nat {
    if n == 0 then 1 else 2 * Doublings(n - 1)
  }

  function Min(a: int, b: int): int {
    if a < b then a else b
  }

  function RetryDelay(attempts: nat): int {
    Min(BASE_RETRY_DELAY * Doublings(Min(if attempts == 0 then 0 else attempts - 1, 4)), MAX_RETRY_DELAY)
  }

  function RetryAt(attempts: nat, now: int): int {
    Min(now + RetryDelay(attempts), MAX_TIME)
  }

  /** The delay starts at two seconds and doubles with every attempt, up to thirty. */
  lemma RetryDelayDoubles(attempts: nat)
    ensures RetryDelay(0) == RetryDelay(1) == 2_000
    ensures attempts >= 1 ==> RetryDelay(attempts + 1) == Min(2 * RetryDelay(attempts), 30_000)
  {
    assert Doublings(0) == 1;
    assert Doublings(1) == 2;
    assert Doublings(2) == 4;
    assert Doublings(3) == 8;
    assert Doublings(4) == 16;
  }

  // ---- transitions of one job ----------------------------------------------------------------

  function NewJob(input: Input, now: int): Job {
    Job(input, Queued, now, now, None, None, 0, true, None, None, None, Unknown, None, false)
  }

  function Claimed(job: Job, now: int): Job {
    job.(status := Running, updatedAt := now, startedAt := Some(now), completedAt := None,
         attempts := job.attempts + 1, retryable := true, nextRetryAt := None, cancel := false)
  }

  function Terminal(job: Job, status: Status, now: int): Job {
    job.(status := status, updatedAt := now, completedAt := Some(now), retryable := false, nextRetryAt := None)
  }

  function Requeued(job: Job, now: int, retryAt: int): Job {
    job.(status := Queued, updatedAt := now, startedAt := None, completedAt := None, retryable := true,
         nextRetryAt := Some(retryAt))
  }

  function CancelledWhileQueued(job: Job, now: int): Job {
    Terminal(job, Cancelled, now).(cancel := true, error := Some("OCR_CANCELLED"))
  }

  function Flagged(job: Job, now: int): Job {
    job.(updatedAt := now, cancel := true)
  }

  function Interrupted(job: Job, now: int): Job {
    var noted := job.(error := Some("OCR_EXECUTION_INTERRUPTED"), availability := Unknown);
    if job.cancel then Terminal(noted, Cancelled, now)
    else if job.attempts < MAX_ATTEMPTS then Requeued(noted, now, now)
    else Terminal(noted, Unavailable, now)
  }

  function RetriedByHand(job: Job, now: int): Job {
    Requeued(job, now, now).(cancel := false)
  }

  /** The transition both finalize and complete make for a stored run that was not cancelled. */
  function Finished(job: Job, runId: Id, run: Run, retryable: bool, now: int): Job
    requires RunAccepted(run.status, run.text, run.reason, run.message)
  {
    var noted := job.(provider := Some(run.provider), lastRun := Some(runId));
    if run.status != RunUnavailable then
      Terminal(noted, Recognized, now).(availability := Available, error := None)
    else
      var reason := run.reason.value;
      var failed := noted.(availability := AvailabilityFor(reason), error := Some(ErrorFor(reason)));
      if retryable && Retryable(reason) && job.attempts < MAX_ATTEMPTS
      then Requeued(failed, now, RetryAt(job.attempts, now))
      else Terminal(failed, Unavailable, now)
  }

  /** Finalize finds the job cancelled: nothing is recorded. */
  function CancelledAtCommit(job: Job, provider: Provider, now: int): Job {
    Terminal(job, Cancelled, now).(provider := Some(provider), availability := Available,
                                   error := Some("OCR_CANCELLED"))
  }

  /** Complete finds the job cancelled, and still notes the run it was given. */
  function CancelledAtCompletion(job: Job, runId: Id, run: Run, now: int): Job {
    CancelledAtCommit(job, run.provider, now).(lastRun := Some(runId))
  }

  // ---- the measure ---------------------------------------------------------------------------

  function Rank(status: Status): nat {
    match status
    case Running => 3
    case Unavailable => 2
    case Queued => 1
    case Recognized => 0
    case Cancelled => 0
  }

  /** Work left in a job: it drops with every change of status. */
  function Measure(job: Job): int {
    3 * (MAX_ATTEMPTS - job.attempts) + Rank(job.status)
  }
}
