/**
 * The stranded record is not a corner of the model only: every registration that can start can also
 * end that way, and one can start.
 */
module RegistrationWitness {
  import opened Prelude
  import opened IdCodec
  import opened ScanRecords
  import opened BatchSession
  import opened Registration
  import opened RegistrationSafety
  import opened RegistrationSteps
  import opened RegistrationReadable

  ghost predicate EndsAt(run: seq<System>, s: System) {
    IsRun(run) && run[|run| - 1] == s
  }

  ghost predicate Reachable(s: System) {
    exists run :: EndsAt(run, s)
  }

  lemma StepReaches(s: System, s': System)
    requires Reachable(s) && Step(s, s')
    ensures Reachable(s')
  {
    var run :| EndsAt(run, s);
    LongerRun(run, s, s');
    assert EndsAt(run + [s'], s');
  }

  lemma EndIsSafe(run: seq<System>, s: System)
    requires EndsAt(run, s)
    ensures Safe(s)
  {
    RunIsSafe(run, |run| - 1);
  }

  lemma ReachIsSafe(s: System)
    requires Reachable(s)
    ensures Safe(s)
  {
    var run :| EndsAt(run, s);
    EndIsSafe(run, s);
  }

  lemma ReachRecovery(s: System, a: Action) returns (s': System)
    requires Reachable(s) && EnabledRecovery(s, a)
    ensures Reachable(s') && s' == ApplyRecovery(s, a)
  {
    s' := Apply(s, a);
    StepReaches(s, s');
  }

  lemma ReachRegistration(s: System, a: Action) returns (s': System)
    requires Reachable(s) && EnabledRegistration(s, a)
    ensures Reachable(s') && s' == ApplyRegistration(s, a)
  {
    s' := Apply(s, a);
    StepReaches(s, s');
  }

  lemma ReachBatch(s: System, a: Action) returns (s': System)
    requires Reachable(s) && EnabledBatch(s, a)
    ensures Reachable(s') && s' == ApplyBatch(s, a)
  {
    s' := Apply(s, a);
    StepReaches(s, s');
  }

  // ---- a registration, from its start to its transaction -----------------------------------------

  /** The registration that stood at `was` has come to this stage; only its journal and assets are new. */
  ghost predicate Writing(was: System, s: System, stage: Stage) {
    && was.flow.Running? && s.flow.Running? && s.flow.stage == stage && s.flow.reg == was.flow.reg
    && s.disk.recoveries == was.disk.recoveries && s.disk.staging == was.disk.staging
    && s.disk.scans == was.disk.scans && s.disk.sessions == was.disk.sessions && s.disk.pages == was.disk.pages
    && s.dropped == was.dropped
  }

  lemma OpenJournal(s: System, scanId: Id) returns (s': System)
    requires Reachable(s) && s.flow.Running? && s.flow.stage == Marked && ScanIdFresh(s.disk, scanId)
    ensures Reachable(s') && Writing(s, s', Open) && s'.flow.scanId == scanId
    ensures s'.disk.assetFiles == s.disk.assetFiles && s'.flow.assets == s.flow.assets
  {
    s' := ReachRegistration(s, CreateJournal(scanId));
    s' := ReachRegistration(s', StartJournal);
  }

  lemma FileOne(was: System, s: System, asset: Id) returns (s': System)
    requires Reachable(s) && Writing(was, s, Open) && |s.flow.assets| < 4 && asset !in s.disk.assetFiles
    ensures Reachable(s') && Writing(was, s', Open) && s'.flow.scanId == s.flow.scanId
    ensures s'.flow.assets == s.flow.assets + [asset]
    ensures s'.disk.assetFiles.Keys == s.disk.assetFiles.Keys + {asset}
  {
    s' := AnnounceOne(was, s);
    s' := StoreOne(was, s', asset);
    s' := RecordOne(was, s');
  }

  lemma AnnounceOne(was: System, s: System) returns (s': System)
    requires Reachable(s) && Writing(was, s, Open) && |s.flow.assets| < 4
    ensures Reachable(s') && Writing(was, s', Announced) && s'.flow.scanId == s.flow.scanId
    ensures s'.flow.assets == s.flow.assets && s'.disk.assetFiles == s.disk.assetFiles
  {
    s' := ReachRegistration(s, Announce);
  }

  lemma StoreOne(was: System, s: System, asset: Id) returns (s': System)
    requires Reachable(s) && Writing(was, s, Announced) && |s.flow.assets| < 4 && asset !in s.disk.assetFiles
    ensures Reachable(s') && Writing(was, s', Filed) && s'.flow.scanId == s.flow.scanId
    ensures s'.flow.assets == s.flow.assets + [asset]
    ensures s'.disk.assetFiles.Keys == s.disk.assetFiles.Keys + {asset}
  {
    s' := ReachRegistration(s, CommitAsset(asset));
  }

  lemma RecordOne(was: System, s: System) returns (s': System)
    requires Reachable(s) && Writing(was, s, Filed)
    ensures Reachable(s') && Writing(was, s', Open) && s'.flow.scanId == s.flow.scanId
    ensures s'.flow.assets == s.flow.assets && s'.disk.assetFiles == s.disk.assetFiles
  {
    s' := ReachRegistration(s, RecordAsset);
  }

  /** The assets that are still to be filed: distinct, and none of them in the store. */
  ghost predicate StillToFile(assets: seq<Id>, k: nat, files: AssetFiles) {
    && (forall i :: k <= i < |assets| ==> assets[i] !in files)
    && (forall i, j :: k <= i < j < |assets| ==> assets[i] != assets[j])
  }

  lemma OneFewer(assets: seq<Id>, k: nat, files: AssetFiles, files': AssetFiles)
    requires k < |assets| && StillToFile(assets, k, files)
    requires files'.Keys == files.Keys + {assets[k]}
    ensures StillToFile(assets, k + 1, files')
  {
    forall i | k + 1 <= i < |assets|
      ensures assets[i] !in files'
    {
      assert assets[i] !in files'.Keys;
    }
  }

  lemma FileFour(was: System, s: System, assets: seq<Id>) returns (s': System)
    requires Reachable(s) && Writing(was, s, Open) && |s.flow.assets| <= |assets| == 4
    requires StillToFile(assets, |s.flow.assets|, s.disk.assetFiles)
    ensures Reachable(s') && Writing(was, s', Open) && |s'.flow.assets| == 4 && s'.flow.scanId == s.flow.scanId
    decreases 4 - |s.flow.assets|
  {
    if |s.flow.assets| == 4 {
      s' := s;
    } else {
      var k := |s.flow.assets|;
      s' := FileOne(was, s, assets[k]);
      OneFewer(assets, k, s.disk.assetFiles, s'.disk.assetFiles);
      s' := FileFour(was, s', assets);
    }
  }

  /** The transaction has committed; the recovery records and the staging directory have not changed. */
  ghost predicate RowsWritten(was: System, s: System, scanId: Id) {
    && was.flow.Running? && s.flow.Running? && s.flow.stage == RowsIn && s.flow.reg == was.flow.reg
    && s.flow.scanId == scanId
    && s.disk.recoveries == was.disk.recoveries && s.disk.staging == was.disk.staging
    && s.disk.sessions == was.disk.sessions && s.dropped == was.dropped
    && scanId in s.disk.scans && s.disk.scans[scanId].page == s.flow.reg.page
    && s.disk.scans[scanId].token == s.flow.reg.token
  }

  /** Every registration can get as far as its transaction. */
  lemma WriteRows(s: System, scanId: Id, assets: seq<Id>) returns (s': System)
    requires Reachable(s) && s.flow.Running? && s.flow.stage == Marked && s.flow.assets == []
    requires ScanIdFresh(s.disk, scanId) && |assets| == 4 && StillToFile(assets, 0, s.disk.assetFiles)
    ensures Reachable(s') && RowsWritten(s, s', scanId)
  {
    s' := OpenJournal(s, scanId);
    s' := FileFour(s, s', assets);
    s' := ReachRegistration(s', CommitRows);
  }

  /** The cleanup, after the record was marked or not. */
  lemma Finish(s: System) returns (s': System)
    requires Reachable(s) && s.flow.Running? && s.flow.stage == Settled
    ensures Reachable(s') && s' == Finished(s)
  {
    FinishedByTwoActions(s);
    s' := ReachRegistration(s, LeaveJournal);
    s' := ReachRegistration(s', RemoveStaging);
  }

  // ---- registrations that strand a record --------------------------------------------------------

  /** Every registration that starts under a recovery token can end with its row in the database and
      its record stranded. */
  lemma EveryRegistrationCanStrand(s: System, reg: Registering, now: int, scanId: Id, assets: seq<Id>)
    returns (s': System)
    requires Reachable(s) && EnabledRegistration(s, StartRegistration(reg, now)) && reg.token.Some?
    requires ScanIdFresh(s.disk, scanId) && |assets| == 4 && StillToFile(assets, 0, s.disk.assetFiles)
    ensures Reachable(s') && Stranded(s', reg.token.value) && HasRow(s'.disk.scans, reg.token.value)
  {
    var t := reg.token.value;
    var started := ReachRegistration(s, StartRegistration(reg, now));
    ReachIsSafe(s);
    var rows := WriteRows(started, scanId, assets);
    assert RowsInFor(rows, t);
    ReachIsSafe(rows);
    UnmarkedIsStranded(rows, t);
    FinishedRecordReadable(rows, LeaveUncommitted, t);
    s' := ReachRegistration(rows, LeaveUncommitted);
    s' := Finish(s');
  }

  /** Registering a file without its token strands every record that still needs it. */
  lemma TokenlessRegistrationStrands(s: System, reg: Registering, now: int, scanId: Id, assets: seq<Id>, t: Token)
    returns (s': System)
    requires Reachable(s) && EnabledRegistration(s, StartRegistration(reg, now)) && reg.token.None?
    requires Claims(s.disk.recoveries, t, reg.path)
    requires ScanIdFresh(s.disk, scanId) && |assets| == 4 && StillToFile(assets, 0, s.disk.assetFiles)
    ensures Reachable(s') && Stranded(s', t) && s'.disk.recoveries == s.disk.recoveries
  {
    var started := ReachRegistration(s, StartRegistration(reg, now));
    var rows := WriteRows(started, scanId, assets);
    s' := ReachRegistration(rows, LeaveUncommitted);
    s' := Finish(s');
  }

  /** A second begin on a file another record needs, then discarded, strands the other record. */
  lemma SecondBeginStrands(s: System, r: Record, t: Token) returns (s': System)
    requires Reachable(s) && EnabledRecovery(s, ReserveRecord(r)) && Claims(s.disk.recoveries, t, r.stagingPath)
    ensures Reachable(s') && Stranded(s', t) && s'.disk.recoveries == s.disk.recoveries
  {
    var begun := BeginAnother(s, r);
    s' := DiscardAnother(begun, r);
    assert s.disk.recoveries[r.token := Stored(r)] - {r.token} == s.disk.recoveries;
  }

  lemma BeginAnother(s: System, r: Record) returns (s': System)
    requires Reachable(s) && EnabledRecovery(s, ReserveRecord(r))
    ensures Reachable(s') && s'.flow == Idle && ReadRecord(s'.disk, r.token) == Some(r) && r.phase == Captured
    ensures s'.disk.recoveries == s.disk.recoveries[r.token := Stored(r)]
  {
    s' := ReachRecovery(s, ReserveRecord(r));
    s' := ReachRecovery(s', FinalizeRecord);
    assert s.disk.recoveries[r.token := Reserved][r.token := Stored(r)] == s.disk.recoveries[r.token := Stored(r)];
  }

  lemma DiscardAnother(s: System, r: Record) returns (s': System)
    requires Reachable(s) && s.flow == Idle && ReadRecord(s.disk, r.token) == Some(r) && Discardable(r)
    ensures Reachable(s') && s'.flow == Idle && r.stagingPath !in s'.disk.staging
    ensures s'.disk.recoveries == s.disk.recoveries - {r.token}
  {
    s' := ReachRecovery(s, DiscardStaging(r.token));
    s' := ReachRecovery(s', DiscardRecord);
  }

  const REQUEST :=
    Registering.Registering(Some("scan-1"), 7, Some(9), "USLETTER-LINED", 1, "capture.jpg", [[1], [2], [3], [4]], true)

  const CAPTURE :=
    Record("scan-1", "capture.jpg", 7, 9, 100, "USLETTER-LINED", 1, Captured, None, 101)

  const PLACEHOLDER := Ascii(CAMERA_RESERVATION)

  lemma NameIsValid()
    ensures ValidToken("scan-1") && WellShaped(CAPTURE)
  {}

  lemma PlaceholderIsOne()
    ensures Placeholder(PLACEHOLDER) && PLACEHOLDER != [] && !Placeholder([1])
  {
    assert |PLACEHOLDER| == |CAMERA_RESERVATION| && |Ascii(BATCH_RESERVATION)| == |BATCH_RESERVATION|;
  }

  lemma CaptureStaged() returns (s: System)
    ensures Reachable(s) && s.dropped == {} && s.flow == Idle
    ensures s.disk == Disk(map["capture.jpg" := PLACEHOLDER], map[], map[], map[], {}, map[],
                           map[7 := PageRow(Unscanned, None)], map[])
  {
    s := System(Disk(map[], map[], map[], map[], {}, map[], map[], map[]), Idle, {}, {}, {});
    assert EndsAt([s], s);
    PlaceholderIsOne();
    s := ReachRecovery(s, CreatePage(7, Unscanned));
    s := ReachRecovery(s, CaptureFile("capture.jpg", PLACEHOLDER));
  }

  lemma CaptureReserved() returns (s: System)
    ensures Reachable(s) && s.dropped == {} && s.flow == Beginning(CAPTURE)
    ensures s.disk == Disk(map["capture.jpg" := PLACEHOLDER], map["scan-1" := Reserved], map[], map[], {}, map[],
                           map[7 := PageRow(Unscanned, None)], map[])
  {
    s := CaptureStaged();
    NameIsValid();
    PlaceholderIsOne();
    s := ReachRecovery(s, ReserveRecord(CAPTURE));
  }

  lemma CaptureBegun() returns (s: System)
    ensures Reachable(s) && s.dropped == {} && s.flow == Idle
    ensures s.disk == Disk(map["capture.jpg" := PLACEHOLDER], map["scan-1" := Stored(CAPTURE)], map[], map[], {},
                           map[], map[7 := PageRow(Unscanned, None)], map[])
  {
    s := CaptureReserved();
    s := ReachRecovery(s, FinalizeRecord);
  }

  /** The platform deletes the placeholder so that the camera can write. */
  lemma CaptureReleased() returns (s: System)
    ensures Reachable(s) && s.dropped == {} && s.flow == Idle && PlatformDeleted(s.released, "capture.jpg")
    ensures s.disk == Disk(map[], map["scan-1" := Stored(CAPTURE)], map[], map[], {},
                           map[], map[7 := PageRow(Unscanned, None)], map[])
  {
    s := CaptureBegun();
    s := ReachRecovery(s, DeleteStaged("capture.jpg"));
    assert ("capture.jpg", PLACEHOLDER) in s.released;
  }

  lemma CapturePhotographed() returns (s: System)
    ensures Reachable(s) && s.dropped == {} && s.flow == Idle && ("scan-1", "capture.jpg", [1]) in s.begun
    ensures s.disk == Disk(map["capture.jpg" := [1]], map["scan-1" := Stored(CAPTURE)], map[], map[], {},
                           map[], map[7 := PageRow(Unscanned, None)], map[])
  {
    s := CaptureReleased();
    PlaceholderIsOne();
    assert Claims(s.disk.recoveries, "scan-1", "capture.jpg");
    s := ReachRecovery(s, CaptureFile("capture.jpg", [1]));
  }

  lemma CapturePreviewed() returns (s: System)
    ensures Reachable(s) && s.flow == Idle
    ensures s.disk == Disk(map["capture.jpg" := [1]],
                           map["scan-1" := Stored(Advanced(CAPTURE, PreviewReady, None, 102))], map[], map[],
                           {}, map[], map[7 := PageRow(Unscanned, None)], map[])
  {
    s := CapturePhotographed();
    NameIsValid();
    assert ReadRecord(s.disk, "scan-1") == Some(CAPTURE);
    s := ReachRecovery(s, MarkPreviewReady("scan-1", 102));
  }

  lemma RequestCanStart(s: System)
    requires s.flow == Idle
    requires s.disk == Disk(map["capture.jpg" := [1]],
                            map["scan-1" := Stored(Advanced(CAPTURE, PreviewReady, None, 102))], map[], map[],
                            {}, map[], map[7 := PageRow(Unscanned, None)], s.disk.sessions)
    ensures EnabledRegistration(s, StartRegistration(REQUEST, 103))
    ensures ScanIdFresh(s.disk, 1) && StillToFile([11, 12, 13, 14], 0, s.disk.assetFiles)
  {
    NameIsValid();
    PlaceholderIsOne();
    assert ReadRecord(s.disk, "scan-1") == Some(Advanced(CAPTURE, PreviewReady, None, 102));
  }

  /** A concrete run ends with a registered scan whose recovery record nothing can read again. */
  lemma SomeRunStrands() returns (s: System)
    ensures Reachable(s) && Stranded(s, "scan-1") && HasRow(s.disk.scans, "scan-1")
  {
    s := CapturePreviewed();
    RequestCanStart(s);
    s := EveryRegistrationCanStrand(s, REQUEST, 103, 1, [11, 12, 13, 14]);
  }

  /** A crash, or a camera that fails, between the deletion of the placeholder and the photo strands the record:
      no capture can be begun, and the record cannot be discarded. */
  lemma SomeRunWaitsForItsPhoto() returns (s: System)
    ensures Reachable(s) && Stranded(s, "scan-1") && PlatformDeleted(s.released, "capture.jpg")
  {
    s := CaptureReleased();
  }

  /** A camera result that comes after the scanner was left makes the platform delete the photo: it is nowhere
      any more, and its record is stranded. */
  lemma SomeRunLosesAPhoto() returns (s: System)
    ensures Reachable(s) && Stranded(s, "scan-1") && ("scan-1", "capture.jpg", [1]) in s.begun
    ensures !StagedAs(s.disk.staging, "capture.jpg", [1])
    ensures !HeldByScan([1], s.disk.scans, s.disk.assetFiles) && !Dropped(s.dropped, "capture.jpg", [1])
  {
    s := CapturePhotographed();
    s := ReachRecovery(s, DeleteStaged("capture.jpg"));
  }
}
