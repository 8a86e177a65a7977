/**
 * Two runs that end badly for a batch session: one that can never be read again, and one that sets aside a
 * capture although its scan is in the library. Both are first stated for every state they can start from.
 */
module BatchWitness {
  import opened Prelude
  import opened IdCodec
  import opened ScanRecords
  import opened BatchSession
  import opened Registration
  import opened RegistrationSafety
  import opened RegistrationSteps
  import opened RegistrationTheorems
  import opened RegistrationReadable
  import RegistrationLimits
  import opened RegistrationOrphans
  import opened RegistrationWitness

  // ---- a clock that went back --------------------------------------------------------------------

  /** Any open session that could be completed now is lost if the clock has gone back. */
  lemma EverySessionCanBeLost(s: System, id: string, now: int) returns (s': System)
    requires Reachable(s) && EnabledBatch(s, CompleteSession(id, now))
    requires ReadSession(s.disk, id).value.startedAt > 1
    ensures Reachable(s') && SessionLost(s', id) && s'.disk.sessions[id].SessionStored?
  {
    var back := ReadSession(s.disk, id).value.startedAt - 1;
    ReachIsSafe(s);
    BackwardClockLosesSession(s, id, back);
    s' := ReachBatch(s, CompleteSession(id, back));
  }

  const BATCH := Session("batch-1", 9, 100, None, [])

  lemma BatchOpened(s: System) returns (s': System)
    requires Reachable(s) && s.flow == Idle && s.disk.sessions == map[]
    ensures Reachable(s') && s'.flow == Idle && s'.disk == s.disk.(sessions := map["batch-1" := SessionStored(BATCH)])
  {
    assert ValidToken("batch-1");
    s' := ReachBatch(s, ReserveSession(BATCH));
    s' := FinalizeOne(s');
    assert s'.disk.sessions == map["batch-1" := SessionStored(BATCH)];
  }

  /** A crash between reserving a session's name and writing it loses the name. */
  lemma SomeRunOrphansSession() returns (s: System)
    ensures Reachable(s) && SessionLost(s, "batch-1") && s.disk.sessions["batch-1"].SessionReserved?
  {
    s := CaptureStaged();
    assert ValidToken("batch-1");
    assert EnabledBatch(s, ReserveSession(BATCH));
    CrashLosesSession(s, BATCH);
    s := ReachBatch(s, ReserveSession(BATCH));
    s := ReachRecovery(s, Halt);
  }

  lemma FinalizeOne(s: System) returns (s': System)
    requires Reachable(s) && s.flow == OpeningSession(BATCH)
    ensures Reachable(s') && s'.flow == Idle && s'.disk == WithSession(s.disk, BATCH)
  {
    s' := ReachBatch(s, FinalizeSession);
  }

  /** A concrete run completes a session before it was started, and nothing can read it again. */
  lemma SomeRunLosesASession() returns (s: System)
    ensures Reachable(s) && SessionLost(s, "batch-1") && s.disk.sessions["batch-1"].SessionStored?
  {
    s := CaptureStaged();
    s := BatchOpened(s);
    assert ValidToken("batch-1");
    assert ReadSession(s.disk, "batch-1") == Some(BATCH);
    s := EverySessionCanBeLost(s, "batch-1", 200);
  }

  // ---- a record acknowledged outside the batch ---------------------------------------------------

  /** The entry waits for review although the scan of its capture is in the library. */
  ghost predicate SetAside(d: Disk, id: string, i: nat, scanId: Id) {
    && ReadSession(d, id).Some? && i < |ReadSession(d, id).value.entries|
    && var e := ReadSession(d, id).value.entries[i];
       e.status == NeedsReview && RowFor(d.scans, scanId, e.page, e.token)
  }

  /** Whenever a committed record of a queued capture can be acknowledged, doing so and then reconciling
      sets the capture aside. */
  lemma EveryAcknowledgedCaptureIsSetAside(s: System, id: string, i: nat, scanId: Id) returns (s': System)
    requires Reachable(s) && EnabledBatch(s, ReconcileSession(id)) && i < |ReadSession(s.disk, id).value.entries|
    requires ReadSession(s.disk, id).value.entries[i].status == Queued
    requires EnabledRecovery(s, Acknowledge(ReadSession(s.disk, id).value.entries[i].token, scanId))
    ensures Reachable(s') && SetAside(s'.disk, id, i, scanId)
  {
    var session := ReadSession(s.disk, id).value;
    var e := session.entries[i];
    EntryHasItsRow(s, id, i, scanId);
    var gone := ReachRecovery(s, Acknowledge(e.token, scanId));
    StillReconciles(s, gone, id, e.token);
    s' := ReachBatch(gone, ReconcileSession(id));
    assert ReconciledEntry(e, Records(gone.disk)).status == NeedsReview;
    ReconciledIsReadable(session, Records(gone.disk));
  }

  lemma EntryHasItsRow(s: System, id: string, i: nat, scanId: Id)
    requires Reachable(s) && ReadSession(s.disk, id).Some? && i < |ReadSession(s.disk, id).value.entries|
    requires EnabledRecovery(s, Acknowledge(ReadSession(s.disk, id).value.entries[i].token, scanId))
    ensures var e := ReadSession(s.disk, id).value.entries[i];
            RowFor(s.disk.scans, scanId, e.page, e.token)
  {
    ReachIsSafe(s);
    var e := ReadSession(s.disk, id).value.entries[i];
    assert SessionIsTrue(id, s.disk.sessions[id].session, s.disk.scans, s.disk.recoveries);
    assert EntryIsTrue(e, s.disk.scans, s.disk.recoveries);
    assert PhaseIsTrue(s.disk.recoveries[e.token], e.token, s.disk.scans);
  }

  lemma StillReconciles(s: System, gone: System, id: string, t: Token)
    requires EnabledBatch(s, ReconcileSession(id)) && gone == s.(disk := WithoutRecord(s.disk, t))
    ensures EnabledBatch(gone, ReconcileSession(id)) && ReadSession(gone.disk, id) == ReadSession(s.disk, id)
    ensures t !in Records(gone.disk)
  {
    assert gone.disk.recoveries.Keys <= s.disk.recoveries.Keys;
    RegistrationLimits.KeysDecideSize(gone.disk.recoveries, s.disk.recoveries);
    forall u | u in gone.disk.recoveries
      ensures ReadRecord(gone.disk, u) == ReadRecord(s.disk, u) && ReadRecord(s.disk, u).Some?
    {
      assert u in s.disk.recoveries;
    }
    forall u | u in Records(gone.disk)
      ensures Records(gone.disk)[u].phase != Phase.Registering
    {
      assert u in Records(s.disk);
    }
  }

  const QUEUED := Session("batch-1", 9, 100, None, [Entry("scan-1", 7, 100, Queued, None, false, None, None)])

  lemma CaptureQueued() returns (s: System)
    ensures Reachable(s) && s.flow == Idle
    ensures s.disk == Disk(map["capture.jpg" := [1]],
                           map["scan-1" := Stored(Advanced(CAPTURE, PreviewReady, None, 102))], map[], map[], {}, map[],
                           map[7 := PageRow(Unscanned, None)], map["batch-1" := SessionStored(QUEUED)])
  {
    s := CapturePreviewed();
    s := BatchOpened(s);
    NameIsValid();
    assert ValidToken("batch-1");
    assert ReadRecord(s.disk, "scan-1") == Some(Advanced(CAPTURE, PreviewReady, None, 102));
    s := QueueOne(s);
  }

  lemma QueueOne(s: System) returns (s': System)
    requires Reachable(s) && s.flow == Idle && s.disk.sessions == map["batch-1" := SessionStored(BATCH)]
    requires ReadRecord(s.disk, "scan-1") == Some(Advanced(CAPTURE, PreviewReady, None, 102))
    ensures Reachable(s') && s'.flow == Idle
    ensures s'.disk == s.disk.(sessions := map["batch-1" := SessionStored(QUEUED)])
  {
    assert ValidToken("batch-1");
    assert ReadSession(s.disk, "batch-1") == Some(BATCH);
    s' := ReachBatch(s, QueueCapture("batch-1", "scan-1"));
    assert WithCapture(BATCH, Advanced(CAPTURE, PreviewReady, None, 102)) == QUEUED;
    assert s'.disk.sessions == map["batch-1" := SessionStored(QUEUED)];
  }

  /** The capture is registered and its record marked. */
  lemma CaptureRegistered() returns (s: System)
    ensures Reachable(s) && s.flow == Idle && s.disk.sessions == map["batch-1" := SessionStored(QUEUED)]
    ensures s.disk.recoveries.Keys == {"scan-1"} && s.disk.recoveries["scan-1"].Stored?
    ensures ReadRecord(s.disk, "scan-1") == Some(s.disk.recoveries["scan-1"].record)
    ensures s.disk.recoveries["scan-1"].record.phase == Committed
    ensures s.disk.recoveries["scan-1"].record.scanId == Some(1)
  {
    s := CaptureQueued();
    RequestCanStart(s);
    NameIsValid();
    assert ReadRecord(s.disk, "scan-1") == Some(Advanced(CAPTURE, PreviewReady, None, 102));
    s := ReachRegistration(s, StartRegistration(REQUEST, 103));
    s := WriteRows(s, 1, [11, 12, 13, 14]);
    s := MarkAndFinish(s);
  }

  lemma MarkAndFinish(s: System) returns (s': System)
    requires Reachable(s) && s.flow.Running? && s.flow.stage == RowsIn && s.flow.reg == REQUEST && s.flow.scanId == 1
    requires s.disk.recoveries == map["scan-1" := Stored(Advanced(CAPTURE, Phase.Registering, None, 103))]
    requires Staged(s.disk, "capture.jpg")
    ensures Reachable(s') && s'.flow == Idle && s'.disk.sessions == s.disk.sessions
    ensures s'.disk.recoveries == map["scan-1" := Stored(Advanced(CAPTURE, Committed, Some(1), 104))]
  {
    NameIsValid();
    assert ReadRecord(s.disk, "scan-1") == Some(Advanced(CAPTURE, Phase.Registering, None, 103));
    s' := ReachRegistration(s, MarkCommitted(104));
    s' := Finish(s');
  }

  /** A concrete run sets a capture aside although its scan is in the library. */
  lemma SomeRunSetsAside() returns (s: System)
    ensures Reachable(s) && SetAside(s.disk, "batch-1", 0, 1)
  {
    s := CaptureRegistered();
    assert ValidToken("batch-1");
    assert ReadSession(s.disk, "batch-1") == Some(QUEUED);
    assert |s.disk.recoveries.Keys| == 1 && |s.disk.recoveries| == |s.disk.recoveries.Keys|;
    s := EveryAcknowledgedCaptureIsSetAside(s, "batch-1", 0, 1);
  }
}
