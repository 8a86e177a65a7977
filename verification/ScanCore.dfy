/**
 * The scanner recovery operations and scan registration over a library's durable state. Every durable
 * write is one step of the registration system and is added to `trace`, so the whole history of an
 * object is one of its runs; a write that may fail does so at random, without a crash. Between
 * operations nothing is in progress.
 */
module ScanCore {
  import opened Prelude
  import opened IdCodec
  import opened ScanRecords
  import opened BatchSession
  import opened Registration
  import opened RegistrationSafety
  import opened RegistrationSteps

  datatype CoreError =
    | RequestInvalid
    | LimitExceeded
    | StagingInvalid
    | RecordUnreadable
    | AlreadyExists
    | WriteFailed      // the write did not happen
    | SyncFailed       // the write happened, but synchronizing its directory failed
    | PhaseConflict
    | DiscardNotAllowed
    | AcknowledgementMismatch
    | RegistrationMismatch
    | PageNotFound
    | ProcessingFailed
    | PageNotWritable
    | PageInconsistent
    | NotebookRequired
    | AssetFailed
    | TransactionFailed

  /** A write failed, or could not be synchronized. */
  predicate LostWrite(e: CoreError) {
    e == WriteFailed || e == SyncFailed
  }

  /** What the caller of register asks for, after the page code was resolved and the capture processed. */
  datatype Request = Request(
    approved: bool,
    capturedAt: int,
    page: Id,
    notebook: Option<Id>,
    layout: string,
    policy: nat,
    path: Path,
    token: Option<Token>,
    derived: Option<(Bytes, Bytes, Bytes)>   // corrected, OCR and thumbnail images, if processing succeeded
  )

  /** What registration reports beside the new row: cleanups it could not finish. */
  datatype Registered = Registered(
    scanId: Id,
    page: Id,
    assets: seq<Id>,
    preferred: bool,
    reconcile: bool,
    inspectJournal: bool,
    removeStaging: bool
  )

  lemma RecoveryIsStep(s: System, a: Action, s': System)
    requires RecoveryBy(s, a, s')
    ensures Step(s, s')
  {
    assert Enabled(s, a) && s' == Apply(s, a);
  }

  lemma RegistrationIsStep(s: System, a: Action, s': System)
    requires RegistrationBy(s, a, s')
    ensures Step(s, s')
  {
    assert Enabled(s, a) && s' == Apply(s, a);
  }

  lemma BatchIsStep(s: System, a: Action, s': System)
    requires BatchBy(s, a, s')
    ensures Step(s, s')
  {
    assert Enabled(s, a) && s' == Apply(s, a);
  }

  lemma ReservationIsReplaced(d: Disk, r: Record)
    requires r.token !in d.recoveries
    ensures WithoutRecord(d.(recoveries := d.recoveries[r.token := Reserved]), r.token) == d
    ensures WithRecord(d.(recoveries := d.recoveries[r.token := Reserved]), r) == WithRecord(d, r)
  {
    assert d.recoveries[r.token := Reserved] - {r.token} == d.recoveries;
    assert d.recoveries[r.token := Reserved][r.token := Stored(r)] == d.recoveries[r.token := Stored(r)];
  }

  lemma ListedCount(d: Disk)
    requires Listable(d)
    ensures |Records(d)| == |d.recoveries|
  {
    assert Records(d).Keys == d.recoveries.Keys;
    assert |Records(d).Keys| == |Records(d)| && |d.recoveries.Keys| == |d.recoveries|;
  }

  class Core {
    var disk: Disk
    ghost var flow: Flow
    ghost var begun: set<(Token, Path, Bytes)>
    ghost var dropped: set<(Token, Path, Bytes)>
    ghost var released: set<(Path, Bytes)>
    ghost var trace: seq<System>
    const reliable: bool   // no write ever fails

    ghost function Now(): System
      reads this
    {
      System(disk, flow, begun, dropped, released)
    }

    ghost predicate Valid()
      reads this
    {
      IsRun(trace) && trace[|trace| - 1] == Now()
    }

    /** Valid, and no operation in progress. */
    ghost predicate Ready()
      reads this
    {
      Valid() && flow == Idle
    }

    constructor (pages: Pages, reliable: bool)
      requires forall p :: p in pages ==> pages[p].preferred == None
      ensures Ready() && disk == Disk(map[], map[], map[], map[], {}, map[], pages, map[])
      ensures this.reliable == reliable
    {
      this.reliable := reliable;
      disk := Disk(map[], map[], map[], map[], {}, map[], pages, map[]);
      flow, begun, dropped, released := Idle, {}, {}, {};
      trace := [System(Disk(map[], map[], map[], map[], {}, map[], pages, map[]), Idle, {}, {}, {})];
    }

    lemma ValidIsSafe()
      requires Valid()
      ensures Safe(Now())
    {
      RunIsSafe(trace, |trace| - 1);
    }

    ghost method Recovered(before: System, a: Action)
      requires IsRun(trace) && trace[|trace| - 1] == before && RecoveryBy(before, a, Now())
      modifies this`trace
      ensures Valid() && old(trace) <= trace
    {
      RecoveryIsStep(before, a, Now());
      LongerRun(trace, before, Now());
      trace := trace + [Now()];
    }

    ghost method Moved(before: System, a: Action)
      requires IsRun(trace) && trace[|trace| - 1] == before && RegistrationBy(before, a, Now())
      modifies this`trace
      ensures Valid() && old(trace) <= trace
    {
      RegistrationIsStep(before, a, Now());
      LongerRun(trace, before, Now());
      trace := trace + [Now()];
    }

    ghost method Batched(before: System, a: Action)
      requires IsRun(trace) && trace[|trace| - 1] == before && BatchBy(before, a, Now())
      modifies this`trace
      ensures Valid() && old(trace) <= trace
    {
      BatchIsStep(before, a, Now());
      LongerRun(trace, before, Now());
      trace := trace + [Now()];
    }

    /** A crash, or an error returned in the middle: what was in progress is forgotten. */
    ghost method Stop()
      requires Valid()
      modifies this`flow, this`trace
      ensures Ready() && old(trace) <= trace
    {
      var before := Now();
      flow := Idle;
      Recovered(before, Halt);
    }

    /** Whether a write works out: any may fail, but in a reliable library none does. */
    method Attempt() returns (ok: bool)
      ensures reliable ==> ok
    {
      ok := *;
      if reliable {
        ok := true;
      }
    }

    // ---- records -----------------------------------------------------------------------------

    /** Every record, or a failure if one cannot be read or there are too many. */
    method ListScannerRecoveries() returns (result: Option<map<Token, Record>>)
      ensures result == if Listable(disk) then Some(Records(disk)) else None
    {
      var pending := disk.recoveries.Keys;
      if |disk.recoveries| > MAX_RECORDS {
        return None;
      }
      var records: map<Token, Record> := map[];
      while pending != {}
        invariant pending <= disk.recoveries.Keys
        invariant forall t :: t in disk.recoveries && t !in pending ==> ReadRecord(disk, t).Some?
        invariant forall t :: t in records <==> t in disk.recoveries && t !in pending
        invariant forall t :: t in records ==>
                    disk.recoveries[t].Stored? && records[t] == disk.recoveries[t].record
        decreases pending
      {
        var token :| token in pending;
        var record := ReadRecord(disk, token);
        if record.None? {
          return None;
        }
        records := records[token := record.value];
        pending := pending - {token};
      }
      assert records == Records(disk);
      return Some(records);
    }

    /** A new record file: reserved, then renamed over the reservation. */
    method WriteNewScannerRecovery(record: Record) returns (failure: Option<CoreError>)
      requires Ready() && WellShaped(record) && record.phase == Captured
      requires Staged(disk, record.stagingPath) && TokenFresh(disk, record.token)
      requires Listable(disk) && |disk.recoveries| < MAX_RECORDS
      modifies this
      ensures Ready() && old(trace) <= trace
      ensures failure.None? || failure == Some(SyncFailed) ==>
                record.token !in old(disk).recoveries && disk == WithRecord(old(disk), record)
      ensures failure.Some? && failure != Some(SyncFailed) ==> disk == old(disk)
      ensures failure == Some(AlreadyExists) ==> record.token in disk.recoveries
      ensures failure.None? || LostWrite(failure.value) || failure == Some(AlreadyExists)
      ensures reliable ==> failure == if record.token in old(disk).recoveries then Some(AlreadyExists) else None
    {
      var prepared := Attempt();
      if !prepared {
        return Some(WriteFailed);
      }
      if record.token in disk.recoveries {
        return Some(AlreadyExists);
      }
      failure := WriteUnderFreeName(record);
    }

    method WriteUnderFreeName(record: Record) returns (failure: Option<CoreError>)
      requires Ready() && WellShaped(record) && record.phase == Captured
      requires Staged(disk, record.stagingPath) && TokenFresh(disk, record.token)
      requires Listable(disk) && |disk.recoveries| < MAX_RECORDS && record.token !in disk.recoveries
      modifies this
      ensures Ready() && old(trace) <= trace
      ensures failure.None? || LostWrite(failure.value)
      ensures reliable ==> failure.None?
      ensures disk == if failure == Some(WriteFailed) then old(disk) else WithRecord(old(disk), record)
    {
      ReservationIsReplaced(disk, record);
      ReserveRecordName(record);
      failure := PublishRecord(record);
    }

    /** The name is taken by an empty file. */
    method ReserveRecordName(record: Record)
      requires Ready() && WellShaped(record) && record.phase == Captured
      requires Staged(disk, record.stagingPath) && TokenFresh(disk, record.token)
      requires Listable(disk) && |disk.recoveries| < MAX_RECORDS && record.token !in disk.recoveries
      modifies this
      ensures Valid() && old(trace) <= trace && flow == Beginning(record)
      ensures disk == old(disk).(recoveries := old(disk).recoveries[record.token := Reserved])
    {
      ghost var before := Now();
      disk := disk.(recoveries := disk.recoveries[record.token := Reserved]);
      flow := Beginning(record);
      Recovered(before, ReserveRecord(record));
    }

    /** A photo that is staged already is followed from here on; a placeholder is not a photo. */
    ghost method Photograph(record: Record)
      requires record.stagingPath in disk.staging
      modifies this`begun
      ensures begun == if Placeholder(disk.staging[record.stagingPath]) then old(begun)
                       else old(begun) + {(record.token, record.stagingPath, disk.staging[record.stagingPath])}
    {
      if !Placeholder(disk.staging[record.stagingPath]) {
        begun := begun + {(record.token, record.stagingPath, disk.staging[record.stagingPath])};
      }
    }

    method FinalizeName(record: Record)
      requires Valid() && flow == Beginning(record) && record.stagingPath in disk.staging
      modifies this
      ensures Ready() && old(trace) <= trace && disk == WithRecord(old(disk), record)
    {
      ghost var before := Now();
      disk, flow := WithRecord(disk, record), Idle;
      Photograph(record);
      Recovered(before, FinalizeRecord);
    }

    method ReleaseName(record: Record)
      requires Valid() && flow == Beginning(record)
      modifies this
      ensures Ready() && old(trace) <= trace && disk == WithoutRecord(old(disk), record.token)
    {
      ghost var before := Now();
      disk, flow := WithoutRecord(disk, record.token), Idle;
      Recovered(before, ReleaseReservation);
    }

    /** The complete record replaces the reservation, or the reservation is taken back. */
    method PublishRecord(record: Record) returns (failure: Option<CoreError>)
      requires Valid() && flow == Beginning(record) && record.stagingPath in disk.staging
      modifies this
      ensures Ready() && old(trace) <= trace
      ensures failure.None? || LostWrite(failure.value)
      ensures reliable ==> failure.None?
      ensures disk == if failure == Some(WriteFailed) then WithoutRecord(old(disk), record.token)
                      else WithRecord(old(disk), record)
    {
      var renamed := Attempt();
      if !renamed {
        ReleaseName(record);
        return Some(WriteFailed);
      }
      FinalizeName(record);
      var synced := Attempt();
      return if synced then None else Some(SyncFailed);
    }

    /** A capture taken into recovery: afterwards its record is there whole, or nothing changed. */
    method BeginScannerRecovery(token: Token, path: Path, page: Id, notebook: Id, capturedAt: int, layout: string,
                                policy: nat, now: int)
      returns (result: Result<Record, CoreError>)
      requires Ready() && TokenFresh(disk, token) && now > 0
      modifies this
      ensures Ready() && old(trace) <= trace
      ensures var record := Record(token, path, page, notebook, capturedAt, layout, policy, Captured, None, now);
              && (result.Ok? ==> result.value == record && Listable(old(disk)) && ReadRecord(disk, token) == Some(record))
              && (result.Ok? || result == Err(SyncFailed) ==>
                    token !in old(disk).recoveries && disk == WithRecord(old(disk), record))
      ensures result.Err? && result != Err(SyncFailed) ==> disk == old(disk)
      ensures if !ValidToken(token) || capturedAt <= 0 || policy == 0 then result == Err(RequestInvalid)
              else if !Listable(old(disk)) then result == Err(RecordUnreadable)
              else if |old(disk).recoveries| >= MAX_RECORDS then result == Err(LimitExceeded)
              else if path !in old(disk).staging || old(disk).staging[path] == [] then result == Err(StagingInvalid)
              else if reliable then (result.Ok? <==> token !in old(disk).recoveries)
              else result.Ok? || LostWrite(result.error) || result == Err(AlreadyExists)
      ensures result == Err(AlreadyExists) ==> token in old(disk).recoveries
    {
      if !ValidToken(token) || capturedAt <= 0 || policy == 0 {
        return Err(RequestInvalid);
      }
      var listed := ListScannerRecoveries();
      if listed.None? {
        return Err(RecordUnreadable);
      }
      ListedCount(disk);
      if |listed.value| >= MAX_RECORDS {
        return Err(LimitExceeded);
      }
      if !Staged(disk, path) {
        return Err(StagingInvalid);
      }
      var record := Record(token, path, page, notebook, capturedAt, layout, policy, Captured, None, now);
      var failure := WriteNewScannerRecovery(record);
      return if failure.Some? then Err(failure.value) else Ok(record);
    }

    method MarkScannerRecoveryPreviewReady(token: Token, now: int) returns (result: Result<Record, CoreError>)
      requires Ready() && now > 0
      modifies this
      ensures Ready() && old(trace) <= trace
      ensures result.Ok? ==>
                && ReadRecord(old(disk), token).Some? && ReadRecord(old(disk), token).value.phase == Captured
                && result.value == ReadRecord(old(disk), token).value.(phase := PreviewReady, scanId := None,
                                                                       updatedAt := now)
                && disk == old(disk).(recoveries := old(disk).recoveries[token := Stored(result.value)])
      ensures result.Err? && result != Err(SyncFailed) ==> disk == old(disk)
      ensures result == Err(SyncFailed) ==>
                && ReadRecord(old(disk), token).Some?
                && disk == WithRecord(old(disk), Advanced(ReadRecord(old(disk), token).value, PreviewReady, None, now))
      ensures if ReadRecord(old(disk), token).None? then result == Err(RecordUnreadable)
              else if ReadRecord(old(disk), token).value.phase != Captured then result == Err(PhaseConflict)
              else result.Ok? || (LostWrite(result.error) && !reliable)
    {
      var read := ReadRecord(disk, token);
      if read.None? {
        return Err(RecordUnreadable);
      }
      if read.value.phase != Captured {
        return Err(PhaseConflict);
      }
      var replaced := Attempt();
      if !replaced {
        return Err(WriteFailed);
      }
      ghost var before := Now();
      disk := WithRecord(disk, Advanced(read.value, PreviewReady, None, now));
      Recovered(before, MarkPreviewReady(token, now));
      var synced := Attempt();
      if !synced {
        return Err(SyncFailed);
      }
      return Ok(Advanced(read.value, PreviewReady, None, now));
    }

    /** The row `find_scan_by_recovery_token` finds. */
    method FindScanByRecoveryToken(page: Id, token: Token) returns (found: Option<Id>)
      ensures found.Some? ==> RowFor(disk.scans, found.value, page, token)
      ensures found.None? ==> forall s :: !RowFor(disk.scans, s, page, token)
    {
      var rows := set s | s in disk.scans && RowFor(disk.scans, s, page, token);
      if rows == {} {
        assert forall s :: RowFor(disk.scans, s, page, token) ==> s in rows;
        return None;
      }
      var s :| s in rows;
      return Some(s);
    }

    /** Reconcile believes the database, and whatever it returns is no longer Registering. */
    method ReconcileScannerRecovery(token: Token, now: int) returns (result: Result<Record, CoreError>)
      requires Ready() && now > 0
      modifies this
      ensures Ready() && old(trace) <= trace
      ensures result.Err? && result != Err(SyncFailed) ==> disk == old(disk)
      ensures result == Err(SyncFailed) ==>
                && ReadRecord(old(disk), token).Some?
                && disk == WithRecord(old(disk), Reconciled(old(disk), ReadRecord(old(disk), token).value, now))
      ensures disk == old(disk).(recoveries := disk.recoveries) && disk.recoveries.Keys == old(disk).recoveries.Keys
      ensures result.Ok? ==>
                && ReadRecord(old(disk), token).Some?
                && ReadRecord(disk, token) == Some(result.value)
                && result.value.phase != Phase.Registering
                && disk == old(disk).(recoveries := old(disk).recoveries[token := Stored(result.value)])
      ensures result.Ok? && ReadRecord(old(disk), token).value.phase != Phase.Registering ==>
                disk == old(disk)
      ensures result.Ok? && ReadRecord(old(disk), token).value.phase == Phase.Registering ==>
                if HasRow(disk.scans, token)
                then result.value.phase == Committed
                     && forall s :: s in disk.scans && disk.scans[s].token == Some(token) ==>
                          result.value.scanId == Some(s)
                else result.value.phase == PreviewReady && result.value.scanId.None?
      ensures if ReadRecord(old(disk), token).None? then result == Err(RecordUnreadable)
              else if ReadRecord(old(disk), token).value.phase != Phase.Registering
              then result == Ok(ReadRecord(old(disk), token).value)
              else result.Ok? || (LostWrite(result.error) && !reliable)
      ensures result.Ok? && ReadRecord(old(disk), token).value.phase == Phase.Registering ==>
                result.value == ReadRecord(old(disk), token).value.(phase := result.value.phase,
                                                                    scanId := result.value.scanId, updatedAt := now)
    {
      var read := ReadRecord(disk, token);
      if read.None? {
        return Err(RecordUnreadable);
      }
      var record := read.value;
      if record.phase != Phase.Registering {
        assert disk.recoveries == disk.recoveries[token := Stored(record)];
        return Ok(record);
      }
      var row := FindScanByRecoveryToken(record.page, token);
      match row {
        case Some(s) => record := record.(phase := Committed, scanId := Some(s));
        case None => record := record.(phase := PreviewReady, scanId := None);
      }
      record := record.(updatedAt := now);
      ValidIsSafe();
      ReconciledIsFound(disk, read.value, row, now);
      var failure := StoreReconciled(record, token, now);
      return if failure.None? then Ok(record) else Err(failure.value);
    }

    method StoreReconciled(record: Record, token: Token, now: int) returns (failure: Option<CoreError>)
      requires Ready() && now > 0 && SaysRegistering(disk, token)
      requires record == Reconciled(disk, ReadRecord(disk, token).value, now)
      modifies this
      ensures Ready() && old(trace) <= trace
      ensures failure.None? || (LostWrite(failure.value) && !reliable)
      ensures disk == if failure == Some(WriteFailed) then old(disk) else WithRecord(old(disk), record)
    {
      var replaced := Attempt();
      if !replaced {
        return Some(WriteFailed);
      }
      ghost var before := Now();
      disk := WithRecord(disk, record);
      Recovered(before, Reconcile(token, now));
      var synced := Attempt();
      return if synced then None else Some(SyncFailed);
    }

    /** A capture given up before anything was registered for it. */
    method DiscardScannerRecovery(token: Token) returns (failure: Option<CoreError>)
      requires Ready()
      modifies this
      ensures Ready() && old(trace) <= trace
      ensures failure.None? ==>
                && ReadRecord(old(disk), token).Some? && Discardable(ReadRecord(old(disk), token).value)
                && disk == WithoutRecord(
                     old(disk).(staging := old(disk).staging - {ReadRecord(old(disk), token).value.stagingPath}), token)
      ensures failure == Some(DiscardNotAllowed) <==>
                && ReadRecord(old(disk), token).Some?
                && ReadRecord(old(disk), token).value.phase != Captured
                && ReadRecord(old(disk), token).value.phase != PreviewReady
      ensures failure == Some(RecordUnreadable) <==> ReadRecord(old(disk), token).None?
      ensures failure.None? || failure == Some(RecordUnreadable) || failure == Some(DiscardNotAllowed)
              || (LostWrite(failure.value) && !reliable)
      ensures failure.Some? && disk != old(disk) ==>
                && (failure == Some(WriteFailed) || failure == Some(SyncFailed))
                && ReadRecord(old(disk), token).Some? && Discardable(ReadRecord(old(disk), token).value)
                && disk.staging == old(disk).staging - {ReadRecord(old(disk), token).value.stagingPath}
                && disk.recoveries == (if failure == Some(WriteFailed) then old(disk).recoveries
                                       else WithoutRecord(old(disk), token).recoveries)
      ensures disk.scans == old(disk).scans && disk.pages == old(disk).pages && disk.sessions == old(disk).sessions
    {
      var read := ReadRecord(disk, token);
      if read.None? {
        return Some(RecordUnreadable);
      }
      if !Discardable(read.value) {
        return Some(DiscardNotAllowed);
      }
      var removed := Attempt();
      if !removed {
        return Some(WriteFailed);
      }
      ghost var before := Now();
      var path := read.value.stagingPath;
      dropped := dropped + {(token, path, disk.staging[path])};
      disk := disk.(staging := disk.staging - {path});
      flow := Discarding(token);
      Recovered(before, DiscardStaging(token));
      removed := Attempt();
      if !removed {
        Stop();
        return Some(WriteFailed);
      }
      before := Now();
      disk := WithoutRecord(disk, token);
      flow := Idle;
      Recovered(before, DiscardRecord);
      var synced := Attempt();
      return if synced then None else Some(SyncFailed);
    }

    method AcknowledgeCommittedScannerRecovery(token: Token, scanId: Id) returns (failure: Option<CoreError>)
      requires Ready()
      modifies this
      ensures Ready() && old(trace) <= trace
      ensures failure.None? ==>
                && ReadRecord(old(disk), token).Some? && ReadRecord(old(disk), token).value.phase == Committed
                && ReadRecord(old(disk), token).value.scanId == Some(scanId)
                && disk == WithoutRecord(old(disk), token)
      ensures failure.Some? ==>
                disk == old(disk) || (failure == Some(SyncFailed) && disk == WithoutRecord(old(disk), token))
      ensures if ReadRecord(old(disk), token).None? then failure == Some(RecordUnreadable)
              else if ReadRecord(old(disk), token).value.phase != Committed
                      || ReadRecord(old(disk), token).value.scanId != Some(scanId)
              then failure == Some(AcknowledgementMismatch)
              else failure.None? || (LostWrite(failure.value) && !reliable)
    {
      var read := ReadRecord(disk, token);
      if read.None? {
        return Some(RecordUnreadable);
      }
      if read.value.phase != Committed || read.value.scanId != Some(scanId) {
        return Some(AcknowledgementMismatch);
      }
      var removed := Attempt();
      if !removed {
        return Some(WriteFailed);
      }
      ghost var before := Now();
      disk := WithoutRecord(disk, token);
      Recovered(before, Acknowledge(token, scanId));
      var synced := Attempt();
      return if synced then None else Some(SyncFailed);
    }

    // ---- registration --------------------------------------------------------------------------

    /** The checks made before anything is written. A placeholder is no image, so processing it fails. The
        preferred scan a page names is always one of its own, and preferred: only a page that says scanned without
        naming one is inconsistent. */
    method CheckRequest(request: Request) returns (result: Result<Registering, CoreError>)
      requires Ready()
      ensures result.Ok? <==>
                && request.approved && request.capturedAt > 0 && request.page in disk.pages
                && request.path in disk.staging && disk.staging[request.path] != []
                && !Placeholder(disk.staging[request.path]) && request.derived.Some?
                && disk.pages[request.page].state != Archived && disk.pages[request.page].state != Trashed
                && (disk.pages[request.page].preferred.None? ==>
                      disk.pages[request.page].state != Scanned && disk.pages[request.page].state != NeedsReviewPage)
                && (request.token.Some? ==> request.notebook.Some?)
      ensures result.Ok? ==> Checked(request, result.value, disk)
      ensures result.Err? ==> Refuses(request, disk, result.error)
    {
      if !request.approved || request.capturedAt <= 0 {
        return Err(RequestInvalid);
      }
      if request.page !in disk.pages {
        return Err(PageNotFound);
      }
      if !Staged(disk, request.path) {
        return Err(StagingInvalid);
      }
      if request.derived.None? || Placeholder(disk.staging[request.path]) {
        return Err(ProcessingFailed);
      }
      var page := disk.pages[request.page];
      if !Writable(page) {
        return Err(PageNotWritable);
      }
      if page.preferred.Some? {
        PreferredIsThere(request.page);
      }
      match page.preferred {
        case Some(s) =>
          if s !in disk.scans || disk.scans[s].page != request.page || !disk.scans[s].preferred {
            return Err(PageInconsistent);
          }
        case None =>
          if page.state == Scanned || page.state == NeedsReviewPage {
            return Err(PageInconsistent);
          }
      }
      if request.token.Some? && request.notebook.None? {
        return Err(NotebookRequired);
      }
      var derived := request.derived.value;
      var contents := [disk.staging[request.path], derived.0, derived.1, derived.2];
      return Ok(Registering.Registering(request.token, request.page, request.notebook, request.layout, request.policy,
                                        request.path, contents, page.preferred.None?));
    }

    lemma PreferredIsThere(page: Id)
      requires Valid() && page in disk.pages && disk.pages[page].preferred.Some?
      ensures var s := disk.pages[page].preferred.value;
              s in disk.scans && disk.scans[s].page == page && disk.scans[s].preferred
    {
      ValidIsSafe();
      assert PreferredIsOwn(page, disk.pages[page], disk.scans);
    }

    /** Marks the record Registering, if there is one; from here on the registration is in progress. */
    method MarkRegistering(reg: Registering, now: int) returns (failure: Option<CoreError>)
      requires Ready() && now > 0
      requires |reg.contents| == 4 && Staged(disk, reg.path) && disk.staging[reg.path] == reg.contents[0]
      requires !Placeholder(reg.contents[0])
      requires reg.page in disk.pages && Writable(disk.pages[reg.page])
      requires reg.preferred == disk.pages[reg.page].preferred.None?
      requires reg.token.Some? ==> reg.notebook.Some?
      modifies this
      ensures Valid() && old(trace) <= trace
      ensures flow == if failure.None? then Running(reg, Marked, 0, []) else Idle
      ensures disk == old(disk).(recoveries := disk.recoveries)
      ensures failure.None? ==> MarkedFrom(reg, now, old(disk), disk) && (reg.token.None? ==> disk == old(disk))
      ensures failure.Some? && disk != old(disk) ==>
                failure == Some(SyncFailed) && reg.token.Some? && MarkedFrom(reg, now, old(disk), disk)
      ensures reg.token.None? ==> failure.None?
      ensures reg.token.Some? ==>
                if ReadRecord(old(disk), reg.token.value).None? then failure == Some(RecordUnreadable)
                else if RecordMatches(ReadRecord(old(disk), reg.token.value).value.(phase := PreviewReady), reg)
                then if ReadRecord(old(disk), reg.token.value).value.phase != PreviewReady
                     then failure == Some(PhaseConflict)
                     else failure.None? || (LostWrite(failure.value) && !reliable)
                else failure == Some(RegistrationMismatch)
    {
      ghost var before := Now();
      if reg.token.None? {
        flow := Running(reg, Marked, 0, []);
        Moved(before, StartRegistration(reg, now));
        return None;
      }
      var read := ReadRecord(disk, reg.token.value);
      if read.None? {
        return Some(RecordUnreadable);
      }
      var r := read.value;
      if r.stagingPath != reg.path || r.page != reg.page || Some(r.notebook) != reg.notebook
         || r.layout != reg.layout || r.policy != reg.policy
      {
        return Some(RegistrationMismatch);
      }
      if r.phase != PreviewReady {
        return Some(PhaseConflict);
      }
      var replaced := Attempt();
      if !replaced {
        return Some(WriteFailed);
      }
      disk := WithRecord(disk, Advanced(r, Phase.Registering, None, now));
      flow := Running(reg, Marked, 0, []);
      Moved(before, StartRegistration(reg, now));
      var synced := Attempt();
      if !synced {
        Stop();
        return Some(SyncFailed);
      }
      return None;
    }

    /** A fresh journal with its first line. */
    method OpenJournal(ghost reg: Registering, path: Path, scanId: Id) returns (ok: bool)
      requires Valid() && flow == Running(reg, Marked, 0, []) && path == reg.path && ScanIdFresh(disk, scanId)
      modifies this
      ensures reliable ==> ok
      ensures Valid() && old(trace) <= trace
      ensures flow == if ok then Running(reg, Open, scanId, []) else Idle
      ensures disk == old(disk).(journals := disk.journals)
    {
      var created := Attempt();
      if !created {
        Stop();
        return false;
      }
      ghost var before := Now();
      disk := WithJournal(disk, scanId, []);
      flow := Running(reg, Created, scanId, []);
      Moved(before, CreateJournal(scanId));
      var written := Attempt();
      if !written {
        Stop();
        return false;
      }
      before := Now();
      disk := Appended(disk, scanId, Started(scanId, path));
      flow := Running(reg, Open, scanId, []);
      Moved(before, StartJournal);
      return true;
    }

    /** One asset: announced, committed, recorded. */
    method FileAsset(ghost reg: Registering, scanId: Id, assets: seq<Id>, k: nat, content: Bytes) returns (ok: bool)
      requires k < 4 == |assets| == |reg.contents| && content == reg.contents[k]
      requires Valid() && flow == Running(reg, Open, scanId, assets[..k])
      requires AssetsFiled(reg, scanId, assets[..k], disk.assetFiles) && StillFresh(disk, assets, k)
      modifies this
      ensures reliable ==> ok
      ensures Valid() && old(trace) <= trace
      ensures flow == if ok then Running(reg, Open, scanId, assets[..k + 1]) else Idle
      ensures disk == old(disk).(journals := disk.journals, assetFiles := disk.assetFiles)
      ensures ok ==> AssetsFiled(reg, scanId, assets[..k + 1], disk.assetFiles) && StillFresh(disk, assets, k + 1)
    {
      var announced := Attempt();
      if !announced {
        Stop();
        return false;
      }
      ghost var before := Now();
      disk := Appended(disk, scanId, Committing(KindAt(k)));
      flow := Running(reg, Announced, scanId, assets[..k]);
      Moved(before, Announce);
      assert assets[..k] + [assets[k]] == assets[..k + 1];
      ok := CommitFile(reg, scanId, assets[..k], k, content, assets[k]);
    }

    method CommitFile(ghost reg: Registering, scanId: Id, ghost filed: seq<Id>, k: nat, content: Bytes, asset: Id)
      returns (ok: bool)
      requires Valid() && flow == Running(reg, Announced, scanId, filed) && k == |filed| < 4 == |reg.contents|
      requires content == reg.contents[k] && asset !in disk.assetFiles
      modifies this
      ensures reliable ==> ok
      ensures Valid() && old(trace) <= trace
      ensures flow == if ok then Running(reg, Open, scanId, filed + [asset]) else Idle
      ensures disk == old(disk).(journals := disk.journals, assetFiles := disk.assetFiles)
      ensures ok ==> disk.assetFiles == old(disk).assetFiles[asset := AssetFile(KindAt(k), content, scanId)]
    {
      var committed := Attempt();
      if !committed {
        Stop();
        return false;
      }
      ghost var before := Now();
      disk := disk.(assetFiles := disk.assetFiles[asset := AssetFile(KindAt(k), content, scanId)]);
      flow := Running(reg, Filed, scanId, filed + [asset]);
      Moved(before, CommitAsset(asset));
      var recorded := Attempt();
      if !recorded {
        Stop();
        return false;
      }
      before := Now();
      disk := Appended(disk, scanId, AssetCommitted(asset, KindAt(k)));
      flow := Running(reg, Open, scanId, filed + [asset]);
      Moved(before, RecordAsset);
      return true;
    }

    /** The transaction, with the page trigger. */
    method CommitTransaction(reg: Registering, scanId: Id, assets: seq<Id>) returns (ok: bool)
      requires Valid() && flow == Running(reg, Open, scanId, assets) && |assets| == 4
      modifies this
      ensures reliable ==> ok
      ensures Valid() && old(trace) <= trace
      ensures flow == if ok then Running(reg, RowsIn, scanId, assets) else Idle
      ensures disk == if ok then WithRows(old(disk), reg, scanId, assets) else old(disk)
    {
      var committed := Attempt();
      if !committed {
        Stop();
        return false;
      }
      ghost var before := Now();
      disk := WithRows(disk, reg, scanId, assets);
      flow := Running(reg, RowsIn, scanId, assets);
      Moved(before, CommitRows);
      return true;
    }

    /** Marks the record Committed. A failure is only reported: the rows are already in. */
    method SettleRecord(ghost reg: Registering, token: Option<Token>, scanId: Id, ghost assets: seq<Id>, now: int)
      returns (pending: bool)
      requires Valid() && flow == Running(reg, RowsIn, scanId, assets) && token == reg.token && now > 0
      modifies this
      ensures Valid() && old(trace) <= trace && flow == Running(reg, Settled, scanId, assets)
      ensures disk == old(disk).(recoveries := disk.recoveries)
      ensures pending ==> token.Some?
      ensures reliable && pending ==> !SaysRegistering(old(disk), token.value)
      ensures token.Some? ==>
                || (disk == old(disk) && pending)
                || (ReadRecord(old(disk), token.value).Some?
                    && disk == WithRecord(old(disk), Advanced(ReadRecord(old(disk), token.value).value, Committed,
                                                              Some(scanId), now)))
    {
      ghost var before := Now();
      flow := Running(reg, Settled, scanId, assets);
      if token.None? {
        Moved(before, LeaveUncommitted);
        return false;
      }
      var read := ReadRecord(disk, token.value);
      var replaced := Attempt();
      if read.None? || read.value.phase != Phase.Registering || !replaced {
        Moved(before, LeaveUncommitted);
        return true;
      }
      disk := WithRecord(disk, Advanced(read.value, Committed, Some(scanId), now));
      Moved(before, MarkCommitted(now));
      var synced := Attempt();
      return !synced;
    }

    /** The journal's last line: the rows are in. */
    method SealJournalFile(ghost reg: Registering, scanId: Id, ghost assets: seq<Id>) returns (ok: bool)
      requires Valid() && flow == Running(reg, Settled, scanId, assets) && scanId in disk.journals
      modifies this
      ensures reliable ==> ok
      ensures Valid() && old(trace) <= trace
      ensures flow == Running(reg, if ok then Sealed else Closed, scanId, assets)
      ensures disk == if ok then Appended(old(disk), scanId, DatabaseCommitted) else old(disk)
    {
      ghost var before := Now();
      var sealed := Attempt();
      if !sealed {
        flow := Running(reg, Closed, scanId, assets);
        Moved(before, LeaveJournal);
        return false;
      }
      disk := Appended(disk, scanId, DatabaseCommitted);
      flow := Running(reg, Sealed, scanId, assets);
      Moved(before, SealJournal);
      return true;
    }

    /** Seals the journal and removes it. A failure leaves it for inspection. */
    method CompleteJournal(ghost reg: Registering, scanId: Id, ghost assets: seq<Id>) returns (ok: bool)
      requires Valid() && flow == Running(reg, Settled, scanId, assets)
      modifies this
      ensures reliable ==> ok
      ensures Valid() && old(trace) <= trace && flow == Running(reg, Closed, scanId, assets)
      ensures disk == old(disk).(journals := disk.journals)
      ensures ok <==> scanId !in disk.journals
    {
      RunningJournalIsThere();
      ok := SealJournalFile(reg, scanId, assets);
      if ok {
        ok := DropJournal(reg, scanId, assets);
      }
    }

    lemma RunningJournalIsThere()
      requires Valid() && flow.Running? && flow.stage == Settled
      ensures flow.scanId in disk.journals
    {
      ValidIsSafe();
      JournalIsThere(Now());
    }

    method DropJournal(ghost reg: Registering, scanId: Id, ghost assets: seq<Id>) returns (ok: bool)
      requires Valid() && flow == Running(reg, Sealed, scanId, assets) && scanId in disk.journals
      modifies this
      ensures reliable ==> ok
      ensures Valid() && old(trace) <= trace && flow == Running(reg, Closed, scanId, assets)
      ensures disk == old(disk).(journals := disk.journals)
      ensures ok <==> scanId !in disk.journals
    {
      ghost var before := Now();
      flow := Running(reg, Closed, scanId, assets);
      var removed := Attempt();
      if !removed {
        Moved(before, LeaveJournal);
        return false;
      }
      disk := disk.(journals := disk.journals - {scanId});
      Moved(before, Registration.CloseJournal);
      return true;
    }

    method RemoveStagingFile(ghost reg: Registering, path: Path, ghost scanId: Id, ghost assets: seq<Id>)
      returns (ok: bool)
      requires Valid() && flow == Running(reg, Closed, scanId, assets) && path == reg.path
      modifies this
      ensures reliable ==> ok
      ensures Ready() && old(trace) <= trace
      ensures disk == if ok then old(disk).(staging := old(disk).staging - {path}) else old(disk)
    {
      ghost var before := Now();
      flow := Idle;
      var removed := Attempt();
      if !removed {
        Moved(before, LeaveStaging);
        return false;
      }
      disk := disk.(staging := disk.staging - {path});
      Moved(before, RemoveStaging);
      return true;
    }

    /** The four assets in order: original, corrected, OCR image, thumbnail. */
    method FileAssets(reg: Registering, scanId: Id, assets: seq<Id>) returns (ok: bool)
      requires Valid() && flow == Running(reg, Open, scanId, []) && |reg.contents| == 4
      requires FreshAssets(disk, assets)
      modifies this
      ensures reliable ==> ok
      ensures Valid() && old(trace) <= trace
      ensures flow == if ok then Running(reg, Open, scanId, assets) else Idle
      ensures disk == old(disk).(journals := disk.journals, assetFiles := disk.assetFiles)
      ensures ok ==> AssetsFiled(reg, scanId, assets, disk.assetFiles)
    {
      assert assets[..0] == [] && assets[..4] == assets;
      ok := FileAsset(reg, scanId, assets, 0, reg.contents[0]);
      if !ok { return; }
      ok := FileAsset(reg, scanId, assets, 1, reg.contents[1]);
      if !ok { return; }
      ok := FileAsset(reg, scanId, assets, 2, reg.contents[2]);
      if !ok { return; }
      ok := FileAsset(reg, scanId, assets, 3, reg.contents[3]);
    }

    /** The writes up to the transaction. Whatever fails, no row, page or staging file has changed. */
    method RegisterRows(reg: Registering, scanId: Id, assets: seq<Id>) returns (failure: Option<CoreError>)
      requires Valid() && flow == Running(reg, Marked, 0, []) && |reg.contents| == 4
      requires ScanIdFresh(disk, scanId) && FreshAssets(disk, assets)
      modifies this
      ensures Valid() && old(trace) <= trace
      ensures flow == if failure.None? then Running(reg, RowsIn, scanId, assets) else Idle
      ensures disk.recoveries == old(disk).recoveries && disk.staging == old(disk).staging
      ensures disk.sessions == old(disk).sessions
      ensures failure.None? ==>
                && disk == WithRows(old(disk), reg, scanId, assets).(journals := disk.journals,
                                                                      assetFiles := disk.assetFiles)
                && AssetsFiled(reg, scanId, assets, disk.assetFiles)
      ensures failure.Some? ==> UnchangedRows(old(disk), disk)
      ensures failure.Some? ==> (failure == Some(AssetFailed) || failure == Some(TransactionFailed)) && !reliable
    {
      var ok := OpenJournal(reg, reg.path, scanId);
      if !ok {
        return Some(AssetFailed);
      }
      ok := FileAssets(reg, scanId, assets);
      if !ok {
        return Some(AssetFailed);
      }
      ok := CommitTransaction(reg, scanId, assets);
      return if ok then None else Some(TransactionFailed);
    }

    /** The cleanups after the transaction; each may fail, and what is left is reported. */
    method FinishRegistration(reg: Registering, scanId: Id, assets: seq<Id>, now: int) returns (done: Registered)
      requires Valid() && flow == Running(reg, RowsIn, scanId, assets) && now > 0
      modifies this
      ensures Ready() && old(trace) <= trace
      ensures done.scanId == scanId && done.page == reg.page && done.assets == assets && done.preferred == reg.preferred
      ensures disk == old(disk).(recoveries := disk.recoveries, journals := disk.journals, staging := disk.staging)
      ensures done.reconcile ==> reg.token.Some?
      ensures reg.token.Some? ==>
                || (disk.recoveries == old(disk).recoveries && done.reconcile)
                || (ReadRecord(old(disk), reg.token.value).Some?
                    && disk.recoveries == WithRecord(old(disk), Advanced(ReadRecord(old(disk), reg.token.value).value,
                                                       Committed, Some(scanId), now)).recoveries)
      ensures done.inspectJournal <==> scanId in disk.journals
      ensures disk.staging == if done.removeStaging then old(disk).staging else old(disk).staging - {reg.path}
      ensures reliable ==> !done.inspectJournal && !done.removeStaging
      ensures reliable && done.reconcile ==> !SaysRegistering(old(disk), reg.token.value)
    {
      var pending := SettleRecord(reg, reg.token, scanId, assets, now);
      var completed := CompleteJournal(reg, scanId, assets);
      var removed := RemoveStagingFile(reg, reg.path, scanId, assets);
      return Registered(scanId, reg.page, assets, reg.preferred, pending, !completed, !removed);
    }

    /** One registration from its checks to its last cleanup. If it fails, no scan, page, asset row or
        staging file has changed; if it succeeds, the one new row and its four assets are there. */
    method RegisterScan(request: Request, scanId: Id, assets: seq<Id>, now: int)
      returns (result: Result<Registered, CoreError>)
      requires Ready() && now > 0 && ScanIdFresh(disk, scanId) && FreshAssets(disk, assets)
      modifies this
      ensures Ready() && old(trace) <= trace && disk.sessions == old(disk).sessions
      ensures result.Err? ==> UnchangedRows(old(disk), disk) && disk.staging == old(disk).staging
      ensures result.Err? ==> RecordsLeft(request.token, now, old(disk), disk)
      ensures result.Ok? ==> Registers(request, scanId, assets, old(disk), disk, result.value)
      ensures result.Ok? && request.token.Some? ==>
                && ReadRecord(old(disk), request.token.value).Some?
                && !HasRow(old(disk).scans, request.token.value)
                && RecordSettled(request.token.value, scanId, now, old(disk), disk, result.value)
      ensures result.Ok? ==> Acceptable(request, old(disk))
      ensures result.Err? ==> Explained(request, old(disk), result.error, reliable)
      ensures reliable ==> (result.Ok? <==> Acceptable(request, old(disk)))
      ensures reliable && result.Ok? ==>
                !result.value.reconcile && !result.value.inspectJournal && !result.value.removeStaging
    {
      var reg := Prepare(request, now);
      if reg.Err? {
        return Err(reg.error);
      }
      result := RegisterMarked(request, reg.value, scanId, assets, now, old(disk));
    }

    /** The checks, and then the record says Registering. */
    method Prepare(request: Request, now: int) returns (result: Result<Registering, CoreError>)
      requires Ready() && now > 0
      modifies this
      ensures Valid() && old(trace) <= trace
      ensures disk == old(disk).(recoveries := disk.recoveries)
      ensures flow == if result.Ok? then Running(result.value, Marked, 0, []) else Idle
      ensures result.Ok? ==> Checked(request, result.value, old(disk)) && MarkedFrom(result.value, now, old(disk), disk)
      ensures result.Ok? && request.token.Some? ==> !HasRow(old(disk).scans, request.token.value)
      ensures result.Ok? && request.token.None? ==> disk == old(disk)
      ensures result.Ok? ==> Acceptable(request, old(disk))
      ensures result.Err? ==> RecordsLeft(request.token, now, old(disk), disk)
      ensures result.Err? ==> Explained(request, old(disk), result.error, reliable)
      ensures result.Err? && reliable ==> !Acceptable(request, old(disk))
    {
      var checked := CheckRequest(request);
      if checked.Err? {
        RefusalExplains(request, disk, checked.error, reliable);
        return Err(checked.error);
      }
      var reg := checked.value;
      ValidIsSafe();
      var failure := MarkRegistering(reg, now);
      if failure.Some? {
        FailureExplains(request, reg, old(disk), failure.value, reliable);
        return Err(failure.value);
      }
      if reg.token.Some? {
        PreviewedHasNoRow(old(disk), reg.token.value);
      }
      MarkedIsAcceptable(request, reg, now, old(disk), disk);
      return Ok(reg);
    }

    /** The rest of a registration, once the record says Registering. */
    method RegisterMarked(ghost request: Request, reg: Registering, scanId: Id, assets: seq<Id>, now: int,
                          ghost start: Disk)
      returns (result: Result<Registered, CoreError>)
      requires Valid() && flow == Running(reg, Marked, 0, []) && now > 0
      requires ScanIdFresh(start, scanId) && FreshAssets(start, assets) && Checked(request, reg, start)
      requires MarkedFrom(reg, now, start, disk)
      modifies this
      ensures Ready() && old(trace) <= trace && disk.sessions == start.sessions
      ensures result.Err? ==> UnchangedRows(start, disk) && disk.staging == start.staging
      ensures result.Err? ==> disk.recoveries == old(disk).recoveries
      ensures result.Ok? ==> Registers(request, scanId, assets, start, disk, result.value)
      ensures result.Ok? && reg.token.Some? ==>
                RecordSettled(reg.token.value, scanId, now, start, disk, result.value)
      ensures result.Err? ==> (result.error == AssetFailed || result.error == TransactionFailed) && !reliable
      ensures reliable && result.Ok? ==>
                !result.value.reconcile && !result.value.inspectJournal && !result.value.removeStaging
    {
      ghost var marked := disk;
      var failure := RegisterRows(reg, scanId, assets);
      if failure.Some? {
        return Err(failure.value);
      }
      ghost var rows := disk;
      var done := FinishRegistration(reg, scanId, assets, now);
      FinishedDisk(request, reg, scanId, assets, start, marked, rows, disk, done);
      if reg.token.Some? {
        MarkedRecord(start, marked, rows, reg, now);
        SettledRecord(start, rows, disk, reg, scanId, now, done);
      }
      return Ok(done);
    }
  }

  /** Why the checks refuse a request. */
  predicate Refuses(request: Request, d: Disk, e: CoreError) {
    match e
    case RequestInvalid => !request.approved || request.capturedAt <= 0
    case PageNotFound => request.page !in d.pages
    case StagingInvalid => !Staged(d, request.path)
    case ProcessingFailed => request.derived.None? || (Staged(d, request.path) && Placeholder(d.staging[request.path]))
    case PageNotWritable => request.page in d.pages && !Writable(d.pages[request.page])
    case PageInconsistent =>
      && request.page in d.pages && d.pages[request.page].preferred.None?
      && (d.pages[request.page].state == Scanned || d.pages[request.page].state == NeedsReviewPage)
    case NotebookRequired => request.token.Some? && request.notebook.None?
    case _ => false
  }

  /** The record a request names is ready, and is about the same file, page, notebook, layout and policy. */
  predicate RecordReady(request: Request, d: Disk, token: Token) {
    && ReadRecord(d, token).Some?
    && var r := ReadRecord(d, token).value;
       && r.phase == PreviewReady && r.stagingPath == request.path && r.page == request.page
       && request.notebook == Some(r.notebook) && r.layout == request.layout && r.policy == request.policy
  }

  /** What a registration needs beside working writes. */
  predicate Acceptable(request: Request, d: Disk) {
    && request.approved && request.capturedAt > 0 && request.page in d.pages
    && Staged(d, request.path) && !Placeholder(d.staging[request.path]) && request.derived.Some?
    && Writable(d.pages[request.page])
    && (d.pages[request.page].preferred.Some?
        || (d.pages[request.page].state != Scanned && d.pages[request.page].state != NeedsReviewPage))
    && (request.token.Some? ==> RecordReady(request, d, request.token.value))
  }

  lemma RefusalExplains(request: Request, d: Disk, e: CoreError, reliable: bool)
    requires Refuses(request, d, e)
    ensures Explained(request, d, e, reliable) && !Acceptable(request, d)
  {}

  predicate Passes(request: Request, d: Disk) {
    && request.approved && request.capturedAt > 0 && request.page in d.pages
    && (d.pages[request.page].preferred.Some?
        || (d.pages[request.page].state != Scanned && d.pages[request.page].state != NeedsReviewPage))
  }

  /** What marking the record reports, for a request that has passed the checks. */
  lemma FailureExplains(request: Request, reg: Registering, d: Disk, e: CoreError, reliable: bool)
    requires Checked(request, reg, d) && reg.token.Some?
    requires if ReadRecord(d, reg.token.value).None? then e == RecordUnreadable
             else if RecordMatches(ReadRecord(d, reg.token.value).value.(phase := PreviewReady), reg)
             then if ReadRecord(d, reg.token.value).value.phase != PreviewReady then e == PhaseConflict
                  else LostWrite(e) && !reliable
             else e == RegistrationMismatch
    ensures Explained(request, d, e, reliable)
    ensures reliable ==> !Acceptable(request, d)
  {}

  lemma MarkedIsAcceptable(request: Request, reg: Registering, now: int, d: Disk, marked: Disk)
    requires Checked(request, reg, d) && Passes(request, d) && MarkedFrom(reg, now, d, marked)
    ensures Acceptable(request, d)
  {}

  predicate SaysRegistering(d: Disk, token: Token) {
    ReadRecord(d, token).Some? && ReadRecord(d, token).value.phase == Phase.Registering
  }

  /** Every failed registration has a cause: a check, the record, or a write that failed. */
  predicate Explained(request: Request, d: Disk, e: CoreError, reliable: bool) {
    match e
    case WriteFailed => !reliable && request.token.Some?
    case SyncFailed => !reliable && request.token.Some?
    case AssetFailed => !reliable
    case TransactionFailed => !reliable
    case RecordUnreadable => request.token.Some? && ReadRecord(d, request.token.value).None?
    case PhaseConflict =>
      && request.token.Some? && ReadRecord(d, request.token.value).Some?
      && ReadRecord(d, request.token.value).value.phase != PreviewReady
    case RegistrationMismatch =>
      && request.token.Some? && ReadRecord(d, request.token.value).Some?
      && var r := ReadRecord(d, request.token.value).value;
         || r.stagingPath != request.path || r.page != request.page || request.notebook != Some(r.notebook)
         || r.layout != request.layout || r.policy != request.policy
    case _ => Refuses(request, d, e)
  }

  /** What the checks have established of the disk they read. */
  predicate Checked(request: Request, reg: Registering, d: Disk) {
    && reg.token == request.token && reg.page == request.page && reg.notebook == request.notebook
    && reg.layout == request.layout && reg.policy == request.policy && reg.path == request.path
    && Staged(d, reg.path) && !Placeholder(d.staging[reg.path]) && request.derived.Some?
    && reg.contents == [d.staging[reg.path], request.derived.value.0, request.derived.value.1, request.derived.value.2]
    && reg.page in d.pages && Writable(d.pages[reg.page])
    && reg.preferred == d.pages[reg.page].preferred.None?
    && (reg.token.Some? ==> reg.notebook.Some?)
  }

  /** Only the record has changed, if there is one: it matched the request and now says Registering. */
  predicate MarkedFrom(reg: Registering, now: int, start: Disk, marked: Disk) {
    && marked == start.(recoveries := marked.recoveries)
    && (reg.token.Some? ==>
          && ReadRecord(start, reg.token.value).Some?
          && RecordMatches(ReadRecord(start, reg.token.value).value, reg)
          && marked == WithRecord(start, Advanced(ReadRecord(start, reg.token.value).value, Phase.Registering, None, now)))
  }

  /** The assets from `k` on have not been filed yet, and are all different. */
  predicate StillFresh(d: Disk, assets: seq<Id>, k: nat) {
    && (forall i :: k <= i < |assets| ==> assets[i] !in d.assetFiles)
    && forall i, j :: 0 <= i < j < |assets| ==> assets[i] != assets[j]
  }

  predicate FreshAssets(d: Disk, assets: seq<Id>) {
    |assets| == 4 && StillFresh(d, assets, 0)
  }

  /** A failed registration leaves the records alone, or its own record saying Registering. */
  predicate RecordsLeft(token: Option<Token>, now: int, before: Disk, after: Disk) {
    || after.recoveries == before.recoveries
    || (token.Some? && ReadRecord(before, token.value).Some?
        && ReadRecord(before, token.value).value.phase == PreviewReady
        && after.recoveries ==
             before.recoveries[token.value :=
               Stored(ReadRecord(before, token.value).value.(phase := Phase.Registering, scanId := None,
                                                             updatedAt := now))])
  }

  predicate UnchangedRows(before: Disk, after: Disk) {
    && after.scans == before.scans && after.pages == before.pages && after.assetRows == before.assetRows
    && after.sessions == before.sessions
  }

  /** The one new row, its page, its four assets, and the honest report of what is left over. */
  predicate Registers(request: Request, scanId: Id, assets: seq<Id>, before: Disk, after: Disk, done: Registered) {
    && request.page in before.pages && Staged(before, request.path) && request.derived.Some?
    && done.scanId == scanId && done.page == request.page && done.assets == assets
    && done.preferred == before.pages[request.page].preferred.None?
    && after.scans == before.scans[scanId := ScanRow(request.page, request.token, assets, done.preferred)]
    && after.pages == before.pages[request.page :=
         PageRow(NeedsReviewPage, if done.preferred then Some(scanId) else before.pages[request.page].preferred)]
    && |assets| == 4
    && (forall k :: 0 <= k < 4 ==>
          && assets[k] in after.assetFiles && assets[k] in after.assetRows
          && after.assetFiles[assets[k]].kind == [Original, Corrected, Ocr, Thumbnail][k]
          && after.assetFiles[assets[k]].producer == scanId)
    && after.assetFiles[assets[0]].content == before.staging[request.path]
    && after.assetFiles[assets[1]].content == request.derived.value.0
    && after.assetFiles[assets[2]].content == request.derived.value.1
    && after.assetFiles[assets[3]].content == request.derived.value.2
    && (done.inspectJournal <==> scanId in after.journals)
    && after.staging == (if done.removeStaging then before.staging else before.staging - {request.path})
    && (done.reconcile ==> request.token.Some?)
  }

  /** Without the reconcile notice the record says Committed with the new row. With it, the record may
      still say Registering, and then it can be reconciled exactly if the staging file was left too. */
  predicate RecordSettled(t: Token, scanId: Id, now: int, before: Disk, after: Disk, done: Registered) {
    && ReadRecord(before, t).Some?
    && t in after.recoveries && after.recoveries[t].Stored?
    && var r := after.recoveries[t].record;
       && after.recoveries == before.recoveries[t := Stored(r)]
       && r == ReadRecord(before, t).value.(phase := r.phase, scanId := r.scanId, updatedAt := now)
       && (r.phase == Committed || (done.reconcile && r.phase == Phase.Registering))
       && (r.phase == Committed ==> r.scanId == Some(scanId) && ReadRecord(after, t) == Some(r))
       && (r.phase == Phase.Registering ==> (ReadRecord(after, t).Some? <==> done.removeStaging))
  }

  lemma PreviewedHasNoRow(d: Disk, t: Token)
    requires TablesSafe(d) && ReadRecord(d, t).Some? && ReadRecord(d, t).value.phase == PreviewReady
    ensures !HasRow(d.scans, t)
  {
    assert PhaseIsTrue(d.recoveries[t], t, d.scans);
  }

  lemma JournalIsThere(s: System)
    requires Safe(s) && s.flow.Running? && s.flow.stage == Settled
    ensures s.flow.scanId in s.disk.journals
  {}

  /** What the three parts of a registration leave, put together. */
  lemma FinishedDisk(request: Request, reg: Registering, scanId: Id, assets: seq<Id>, start: Disk, marked: Disk,
                     rows: Disk, after: Disk, done: Registered)
    requires reg.token == request.token && reg.page == request.page && reg.path == request.path
    requires Staged(start, reg.path) && request.derived.Some? && FreshAssets(start, assets)
    requires reg.contents == [start.staging[reg.path], request.derived.value.0, request.derived.value.1,
                              request.derived.value.2]
    requires reg.page in start.pages && reg.preferred == start.pages[reg.page].preferred.None?
    requires marked == start.(recoveries := marked.recoveries)
    requires rows == WithRows(marked, reg, scanId, assets).(journals := rows.journals, assetFiles := rows.assetFiles)
    requires AssetsFiled(reg, scanId, assets, rows.assetFiles)
    requires after == rows.(recoveries := after.recoveries, journals := after.journals, staging := after.staging)
    requires done.scanId == scanId && done.page == reg.page && done.assets == assets && done.preferred == reg.preferred
    requires done.reconcile ==> reg.token.Some?
    requires done.inspectJournal <==> scanId in after.journals
    requires after.staging == if done.removeStaging then rows.staging else rows.staging - {reg.path}
    ensures Registers(request, scanId, assets, start, after, done)
  {
    forall k | 0 <= k < 4
      ensures assets[k] in after.assetFiles && assets[k] in after.assetRows
      ensures after.assetFiles[assets[k]] == AssetFile(KindAt(k), reg.contents[k], scanId)
    {}
  }

  lemma MarkedRecord(start: Disk, marked: Disk, rows: Disk, reg: Registering, now: int)
    requires reg.token.Some? && now > 0 && ReadRecord(start, reg.token.value).Some?
    requires RecordMatches(ReadRecord(start, reg.token.value).value, reg)
    requires marked == WithRecord(start, Advanced(ReadRecord(start, reg.token.value).value, Phase.Registering, None, now))
    requires rows.recoveries == marked.recoveries && rows.staging == marked.staging
    ensures reg.token.value in rows.recoveries && rows.recoveries[reg.token.value].Stored?
    ensures var r := rows.recoveries[reg.token.value].record;
            && WellShaped(r) && r.token == reg.token.value && r.phase == Phase.Registering && r.stagingPath == reg.path
    ensures Staged(start, reg.path) ==> Staged(rows, reg.path) && SaysRegistering(rows, reg.token.value)
  {}

  lemma SettledRecord(start: Disk, rows: Disk, after: Disk, reg: Registering, scanId: Id, now: int, done: Registered)
    requires reg.token.Some? && now > 0
    requires reg.token.value in rows.recoveries && rows.recoveries[reg.token.value].Stored?
    requires var r := rows.recoveries[reg.token.value].record;
             && WellShaped(r) && r.token == reg.token.value && r.phase == Phase.Registering && r.stagingPath == reg.path
    requires Staged(rows, reg.path)
    requires after == rows.(recoveries := after.recoveries, journals := after.journals, staging := after.staging)
    requires || (after.recoveries == rows.recoveries && done.reconcile)
             || (ReadRecord(rows, reg.token.value).Some?
                 && after.recoveries == WithRecord(rows, Advanced(ReadRecord(rows, reg.token.value).value, Committed,
                                                                  Some(scanId), now)).recoveries)
    requires after.staging == if done.removeStaging then rows.staging else rows.staging - {reg.path}
    requires ReadRecord(start, reg.token.value).Some?
    requires rows.recoveries
             == WithRecord(start, Advanced(ReadRecord(start, reg.token.value).value, Phase.Registering, None,
                                           now)).recoveries
    ensures RecordSettled(reg.token.value, scanId, now, start, after, done)
  {}

  /** The row the query finds is the one the record is reconciled to: there is only one. */
  lemma ReconciledIsFound(d: Disk, r: Record, row: Option<Id>, now: int)
    requires TablesSafe(d) && r.token in d.recoveries && d.recoveries[r.token] == Stored(r)
    requires r.phase == Phase.Registering
    requires row.Some? ==> RowFor(d.scans, row.value, r.page, r.token)
    requires row.None? ==> forall s :: !RowFor(d.scans, s, r.page, r.token)
    ensures Reconciled(d, r, now) == if row.Some? then Advanced(r, Committed, row, now)
                                     else Advanced(r, PreviewReady, None, now)
    ensures HasRow(d.scans, r.token) <==> row.Some?
    ensures forall s :: s in d.scans && d.scans[s].token == Some(r.token) ==> row == Some(s)
  {
    assert PhaseIsTrue(d.recoveries[r.token], r.token, d.scans);
    if row.Some? {
      assert SameToken(d.scans, FindRow(d.scans, r.page, r.token), row.value);
    }
    forall s | s in d.scans && d.scans[s].token == Some(r.token)
      ensures row == Some(s)
    {
      assert RowFor(d.scans, s, r.page, r.token);
      assert SameToken(d.scans, s, row.value);
    }
  }
}
