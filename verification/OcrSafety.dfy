/** What every reachable state of the OCR queue keeps, under any interleaving of the lock sections. */
module OcrSafety {
  import opened Prelude
  import opened IdCodec
  import opened OcrJobs
  import opened OcrSystem

  // ---- counting what happened ----------------------------------------------------------------

  /** The events that end an attempt. */
  predicate EndsAttempt(kind: EventKind) {
    kind == Recording || kind == Dropping || kind == Completing || kind == Interrupting
  }

  predicate Claims(kind: EventKind) {
    kind == Claiming
  }

  predicate ChangesStatus(kind: EventKind) {
    kind != Queuing
  }

  function Count(log: seq<Event>, id: Id, kinds: EventKind -> bool): nat {
    if log == [] then 0
    else
      var e := log[|log| - 1];
      Count(log[..|log| - 1], id, kinds) + (if e.job == id && kinds(e.kind) then 1 else 0)
  }

  function Retried(log: seq<Event>): nat {
    if log == [] then 0
    else Retried(log[..|log| - 1]) + (if log[|log| - 1].kind == Retrying then 1 else 0)
  }

  lemma CountOneMore(log: seq<Event>, e: Event, id: Id, kinds: EventKind -> bool)
    ensures Count(log + [e], id, kinds) == Count(log, id, kinds) + (if e.job == id && kinds(e.kind) then 1 else 0)
  {
    assert (log + [e])[..|log|] == log;
  }

  lemma RetriedOneMore(log: seq<Event>, e: Event)
    ensures Retried(log + [e]) == Retried(log) + (if e.kind == Retrying then 1 else 0)
  {
    assert (log + [e])[..|log|] == log;
  }

  lemma {:induction false} CountUnheardOf(log: seq<Event>, id: Id, kinds: EventKind -> bool)
    requires forall i :: 0 <= i < |log| ==> log[i].job != id
    ensures Count(log, id, kinds) == 0
  {
    if log != [] {
      CountUnheardOf(log[..|log| - 1], id, kinds);
    }
  }

  // ---- one job -------------------------------------------------------------------------------

  predicate Settled(status: Status) {
    status == Recognized || status == Cancelled
  }

  predicate JobConsistent(job: Job) {
    && RowAccepted(job)
    && job.attempts <= MAX_ATTEMPTS
    && (job.status == Queued ==> job.attempts < MAX_ATTEMPTS)
    && (job.status == Running ==> job.attempts >= 1)
    && (job.cancel ==> job.status == Running || job.status == Cancelled)
  }

  /** Every attempt is one claim, and all but the running one have ended. */
  ghost predicate AttemptsCounted(job: Job, id: Id, log: seq<Event>) {
    && job.attempts == Count(log, id, Claims)
    && job.attempts == Count(log, id, EndsAttempt) + (if job.status == Running then 1 else 0)
  }

  ghost predicate ChangesBounded(job: Job, id: Id, log: seq<Event>) {
    && Count(log, id, ChangesStatus) <= 8
    && (!Settled(job.status) ==> Count(log, id, ChangesStatus) + Measure(job) <= 10)
  }

  /** Attempts already ended, and attempts already claimed. */
  ghost predicate AttemptsPast(job: Job, id: Id, log: seq<Event>) {
    && (forall i :: 0 <= i < |log| && log[i].job == id && EndsAttempt(log[i].kind) ==>
          log[i].attempt <= (if job.status == Running then job.attempts - 1 else job.attempts))
    && (forall i :: 0 <= i < |log| && log[i].job == id && log[i].kind == Claiming ==>
          log[i].attempt <= job.attempts)
  }

  ghost predicate JobSound(job: Job, id: Id, log: seq<Event>) {
    && JobConsistent(job)
    && AttemptsCounted(job, id, log)
    && ChangesBounded(job, id, log)
    && AttemptsPast(job, id, log)
  }

  ghost predicate JobsSound(jobs: Jobs, log: seq<Event>) {
    forall id {:trigger JobSound(jobs[id], id, log)} :: id in jobs ==> JobSound(jobs[id], id, log)
  }

  ghost predicate LogKnown(jobs: Jobs, log: seq<Event>) {
    forall i :: 0 <= i < |log| ==> log[i].job in jobs
  }

  ghost predicate SameRole(e: Event, f: Event) {
    && e.job == f.job
    && ((EndsAttempt(e.kind) && EndsAttempt(f.kind)) || (e.kind == Claiming && f.kind == Claiming))
  }

  /** Successive claims, and successive ends, of one job carry strictly increasing attempts. */
  ghost predicate LogAscends(log: seq<Event>) {
    forall i, j :: 0 <= i < j < |log| && SameRole(log[i], log[j]) ==> log[i].attempt < log[j].attempt
  }

  // ---- the queue -----------------------------------------------------------------------------

  ghost predicate OneRunning(jobs: Jobs) {
    forall a, b :: a in jobs && b in jobs && jobs[a].status == Running && jobs[b].status == Running ==> a == b
  }

  ghost predicate OneActivePerScan(jobs: Jobs) {
    forall scan, a, b :: ActiveFor(jobs, scan, a) && ActiveFor(jobs, scan, b) ==> a == b
  }

  ghost predicate ActiveBounded(jobs: Jobs, log: seq<Event>) {
    |ActiveIds(jobs)| <= MAX_ACTIVE_JOBS + Retried(log)
  }

  // ---- runs and regions ----------------------------------------------------------------------

  ghost predicate RunsAccepted(runs: Runs) {
    forall r :: r in runs ==> RunAccepted(runs[r].status, runs[r].text, runs[r].reason, runs[r].message)
  }

  ghost predicate SnapshotsTrue(snapshots: set<(Id, Input)>, jobs: Jobs) {
    forall id, input :: (id, input) in snapshots ==> id in jobs && jobs[id].input == input
  }

  predicate RunFits(run: Run, input: Input) {
    run.scan == input.scan && run.asset == Some(input.asset)
  }

  /** The points of a stored polygon lie in the source image, bounds included. */
  predicate InSource(polygon: seq<Point>, input: Input) {
    forall i :: 0 <= i < |polygon| ==>
      0.0 <= polygon[i].x <= input.width as real && 0.0 <= polygon[i].y <= input.height as real
  }

  /** Everything a finalize delivered is in the tables. */
  ghost predicate DeliveryKept(r: Id, d: Delivery, runs: Runs, regions: Regions) {
    && r in runs && |d.regionIds| == |d.regions|
    && forall i :: 0 <= i < |d.regionIds| ==>
         && d.regionIds[i] in regions
         && regions[d.regionIds[i]].run == r
         && regions[d.regionIds[i]].polygon == d.regions[i].polygon
         && regions[d.regionIds[i]].text == d.regions[i].text
  }

  /** A delivered text result belongs to a recognized job that names it. */
  ghost predicate DeliveryOwned(r: Id, d: Delivery, runs: Runs, jobs: Jobs) {
    && r in runs && d.job in jobs
    && RunFits(runs[r], jobs[d.job].input)
    && d.attempt <= (if jobs[d.job].status == Running then jobs[d.job].attempts - 1 else jobs[d.job].attempts)
    && (runs[r].status != RunUnavailable ==> jobs[d.job].status == Recognized && jobs[d.job].lastRun == Some(r))
    && (forall i :: 0 <= i < |d.regions| ==> InSource(d.regions[i].polygon, jobs[d.job].input))
    && (d.regions != [] ==> runs[r].status == Detected)
  }

  ghost predicate DeliveriesKept(s: State) {
    forall r :: r in s.deliveries ==> DeliveryKept(r, s.deliveries[r], s.runs, s.regions)
  }

  ghost predicate DeliveriesOwned(s: State) {
    forall r :: r in s.deliveries ==> DeliveryOwned(r, s.deliveries[r], s.runs, s.jobs)
  }

  ghost predicate SameAttempt(deliveries: map<Id, Delivery>, r: Id, q: Id) {
    && r in deliveries && q in deliveries
    && deliveries[r].job == deliveries[q].job && deliveries[r].attempt == deliveries[q].attempt
  }

  ghost predicate OneDeliveryPerAttempt(deliveries: map<Id, Delivery>) {
    forall r, q :: SameAttempt(deliveries, r, q) ==> r == q
  }

  /** A recognized job names a stored text result of its own scan and asset. */
  ghost predicate RecognizedNamesText(job: Job, runs: Runs) {
    job.status == Recognized ==>
      && job.lastRun.Some? && job.lastRun.value in runs
      && runs[job.lastRun.value].status != RunUnavailable
      && RunFits(runs[job.lastRun.value], job.input)
  }

  ghost predicate RecognizedHaveText(jobs: Jobs, runs: Runs) {
    forall id :: id in jobs ==> RecognizedNamesText(jobs[id], runs)
  }

  // ---- the invariant -------------------------------------------------------------------------

  ghost predicate QueueSafe(jobs: Jobs, log: seq<Event>) {
    && JobsSound(jobs, log) && LogKnown(jobs, log) && LogAscends(log)
    && OneRunning(jobs) && OneActivePerScan(jobs) && ActiveBounded(jobs, log)
  }

  ghost predicate ResultsSafe(s: State) {
    && RunsAccepted(s.runs) && SnapshotsTrue(s.snapshots, s.jobs)
    && DeliveriesKept(s) && DeliveriesOwned(s) && OneDeliveryPerAttempt(s.deliveries)
    && RecognizedHaveText(s.jobs, s.runs)
  }

  ghost predicate Safe(s: State) {
    QueueSafe(s.jobs, s.log) && ResultsSafe(s)
  }

  lemma InitiallySafe(s: State)
    requires Initial(s)
    ensures Safe(s)
  {}

  // ---- one job, one event --------------------------------------------------------------------

  /** The next status of a job, and the event that says so. */
  ghost predicate Moves(job: Job, job': Job, kind: EventKind, attempt: nat) {
    match kind
    case Queuing => false
    case Claiming => job.status == Queued && job'.status == Running && job'.attempts == attempt == job.attempts + 1
    case Recording => job.status == Running && job'.status != Running && job'.attempts == attempt == job.attempts
    case Dropping => job.status == Running && job'.status == Cancelled && job'.attempts == attempt == job.attempts
    case Completing => job.status == Running && job'.status != Running && job'.attempts == attempt == job.attempts
    case Interrupting => job.status == Running && job'.status != Running && job'.attempts == attempt == job.attempts
    case Withdrawing => job.status == Queued && job'.status == Cancelled && job'.attempts == attempt == job.attempts
    case Retrying => job.status == Unavailable && job'.status == Queued && job'.attempts == attempt == job.attempts
  }

  lemma MoveKeepsSound(job: Job, job': Job, id: Id, log: seq<Event>, kind: EventKind, attempt: nat)
    requires JobSound(job, id, log) && JobConsistent(job') && Moves(job, job', kind, attempt)
    ensures JobSound(job', id, log + [Event(id, kind, attempt)])
    ensures kind == Claiming || !EndsAttempt(kind) || job.attempts == attempt
  {
    var e := Event(id, kind, attempt);
    CountOneMore(log, e, id, Claims);
    CountOneMore(log, e, id, EndsAttempt);
    CountOneMore(log, e, id, ChangesStatus);
  }

  lemma OtherKeepsSound(job: Job, id: Id, log: seq<Event>, e: Event)
    requires JobSound(job, id, log) && e.job != id
    ensures JobSound(job, id, log + [e])
  {
    CountOneMore(log, e, id, Claims);
    CountOneMore(log, e, id, EndsAttempt);
    CountOneMore(log, e, id, ChangesStatus);
  }

  lemma NewKeepsSound(input: Input, now: int, id: Id, log: seq<Event>)
    requires RowAccepted(NewJob(input, now))
    requires forall i :: 0 <= i < |log| ==> log[i].job != id
    ensures JobSound(NewJob(input, now), id, log + [Event(id, Queuing, 0)])
  {
    var e := Event(id, Queuing, 0);
    CountUnheardOf(log, id, Claims);
    CountUnheardOf(log, id, EndsAttempt);
    CountUnheardOf(log, id, ChangesStatus);
    CountOneMore(log, e, id, Claims);
    CountOneMore(log, e, id, EndsAttempt);
    CountOneMore(log, e, id, ChangesStatus);
  }

  lemma EventAscends(job: Job, id: Id, log: seq<Event>, kind: EventKind, attempt: nat)
    requires LogAscends(log) && AttemptsPast(job, id, log)
    requires EndsAttempt(kind) ==> job.status == Running && attempt == job.attempts
    requires kind == Claiming ==> attempt == job.attempts + 1
    ensures LogAscends(log + [Event(id, kind, attempt)])
  {}

  // ---- the active jobs -----------------------------------------------------------------------

  lemma ActiveAfter(jobs: Jobs, id: Id, job': Job)
    ensures ActiveIds(jobs[id := job']) ==
            if Active(job'.status) then ActiveIds(jobs) + {id} else ActiveIds(jobs) - {id}
  {}

  lemma BoundKept(jobs: Jobs, log: seq<Event>, id: Id, job': Job, e: Event)
    requires ActiveBounded(jobs, log)
    requires Active(job'.status) ==>
               || (id in jobs && Active(jobs[id].status))
               || e.kind == Retrying
               || |ActiveIds(jobs)| < MAX_ACTIVE_JOBS
    ensures ActiveBounded(jobs[id := job'], log + [e])
  {
    ActiveAfter(jobs, id, job');
    RetriedOneMore(log, e);
    if id in jobs && Active(jobs[id].status) {
      assert id in ActiveIds(jobs);
      assert ActiveIds(jobs) + {id} == ActiveIds(jobs);
    }
  }

  /** One job moves, and the event is logged: the queue stays safe. */
  lemma MoveKeepsQueue(jobs: Jobs, log: seq<Event>, id: Id, job': Job, kind: EventKind, attempt: nat)
    requires QueueSafe(jobs, log) && id in jobs
    requires JobConsistent(job') && Moves(jobs[id], job', kind, attempt)
    requires job'.input == jobs[id].input
    requires kind == Claiming ==> NoneRunning(jobs)
    requires kind == Retrying ==> ScanIdle(jobs, jobs[id].input.scan)
    ensures QueueSafe(jobs[id := job'], log + [Event(id, kind, attempt)])
  {
    var e := Event(id, kind, attempt);
    forall other | other in jobs
      ensures JobSound(jobs[id := job'][other], other, log + [e])
    {
      assert other in jobs && JobSound(jobs[other], other, log);
      if other == id {
        MoveKeepsSound(jobs[id], job', id, log, kind, attempt);
      } else {
        OtherKeepsSound(jobs[other], other, log, e);
      }
    }
    assert JobSound(jobs[id], id, log);
    EventAscends(jobs[id], id, log, kind, attempt);
    BoundKept(jobs, log, id, job', e);
    MoveKeepsActive(jobs, id, job', kind, attempt);
  }

  lemma MoveKeepsActive(jobs: Jobs, id: Id, job': Job, kind: EventKind, attempt: nat)
    requires OneRunning(jobs) && OneActivePerScan(jobs) && id in jobs
    requires Moves(jobs[id], job', kind, attempt) && job'.input == jobs[id].input
    requires kind == Claiming ==> NoneRunning(jobs)
    requires kind == Retrying ==> ScanIdle(jobs, jobs[id].input.scan)
    ensures OneRunning(jobs[id := job']) && OneActivePerScan(jobs[id := job'])
  {
    var jobs' := jobs[id := job'];
    forall scan, a, b | ActiveFor(jobs', scan, a) && ActiveFor(jobs', scan, b)
      ensures a == b
    {
      assert a == id || ActiveFor(jobs, scan, a);
      assert b == id || ActiveFor(jobs, scan, b);
      assert kind != Retrying ==> (Active(job'.status) ==> Active(jobs[id].status));
      assert ActiveFor(jobs', jobs[id].input.scan, id) && kind != Retrying ==>
          ActiveFor(jobs, jobs[id].input.scan, id);
    }
  }

  lemma InsertKeepsJobs(jobs: Jobs, log: seq<Event>, id: Id, input: Input, now: int)
    requires JobsSound(jobs, log) && LogKnown(jobs, log) && id !in jobs
    requires RowAccepted(NewJob(input, now))
    ensures JobsSound(jobs[id := NewJob(input, now)], log + [Event(id, Queuing, 0)])
  {
    var jobs', log' := jobs[id := NewJob(input, now)], log + [Event(id, Queuing, 0)];
    NewKeepsSound(input, now, id, log);
    forall other | other in jobs'
      ensures JobSound(jobs'[other], other, log')
    {
      if other != id {
        OtherKeepsSound(jobs[other], other, log, Event(id, Queuing, 0));
      }
    }
  }

  lemma InsertKeepsLog(log: seq<Event>, id: Id)
    requires LogAscends(log)
    ensures LogAscends(log + [Event(id, Queuing, 0)])
  {}

  lemma InsertKeepsActive(jobs: Jobs, id: Id, input: Input, now: int)
    requires OneRunning(jobs) && OneActivePerScan(jobs) && id !in jobs && ScanIdle(jobs, input.scan)
    ensures OneRunning(jobs[id := NewJob(input, now)]) && OneActivePerScan(jobs[id := NewJob(input, now)])
  {
    var jobs' := jobs[id := NewJob(input, now)];
    forall scan, a, b | ActiveFor(jobs', scan, a) && ActiveFor(jobs', scan, b)
      ensures a == b
    {
      assert a == id || ActiveFor(jobs, scan, a);
      assert b == id || ActiveFor(jobs, scan, b);
    }
  }

  lemma InsertKeepsQueue(jobs: Jobs, log: seq<Event>, id: Id, input: Input, now: int)
    requires QueueSafe(jobs, log) && id !in jobs
    requires ScanIdle(jobs, input.scan) && |ActiveIds(jobs)| < MAX_ACTIVE_JOBS
    requires RowAccepted(NewJob(input, now))
    ensures QueueSafe(jobs[id := NewJob(input, now)], log + [Event(id, Queuing, 0)])
  {
    InsertKeepsJobs(jobs, log, id, input, now);
    InsertKeepsLog(log, id);
    InsertKeepsActive(jobs, id, input, now);
    BoundKept(jobs, log, id, NewJob(input, now), Event(id, Queuing, 0));
  }

  lemma FlagKeepsActive(jobs: Jobs, id: Id, job': Job)
    requires OneRunning(jobs) && OneActivePerScan(jobs) && id in jobs
    requires jobs[id].status == job'.status == Running && jobs[id].input == job'.input
    ensures OneRunning(jobs[id := job']) && OneActivePerScan(jobs[id := job'])
  {
    var jobs' := jobs[id := job'];
    forall scan, a, b | ActiveFor(jobs', scan, a) && ActiveFor(jobs', scan, b)
      ensures a == b
    {
      assert ActiveFor(jobs, scan, a) && ActiveFor(jobs, scan, b);
    }
  }

  /** Flagging a running job for cancellation moves nothing. */
  lemma FlagKeepsQueue(jobs: Jobs, log: seq<Event>, id: Id, now: int)
    requires QueueSafe(jobs, log) && id in jobs && jobs[id].status == Running
    requires RowAccepted(Flagged(jobs[id], now))
    ensures QueueSafe(jobs[id := Flagged(jobs[id], now)], log)
  {
    var job' := Flagged(jobs[id], now);
    ActiveAfter(jobs, id, job');
    assert id in ActiveIds(jobs);
    assert ActiveIds(jobs) + {id} == ActiveIds(jobs);
    assert JobSound(job', id, log) by {
      assert JobSound(jobs[id], id, log);
    }
    FlagKeepsActive(jobs, id, job');
  }
}
