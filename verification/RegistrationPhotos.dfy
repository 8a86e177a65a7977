/**
 * Photos. The platform takes a capture into recovery with a placeholder, deletes it, and lets the camera write
 * the photo at the same path; it may also delete a photo whose result came too late. Here a photo is followed
 * from the moment it is staged for a stored record, wherever crashes come.
 */
module RegistrationPhotos {
  import opened Prelude
  import opened IdCodec
  import opened ScanRecords
  import opened BatchSession
  import opened Registration
  import opened RegistrationSafety
  import opened RegistrationSteps
  import opened RegistrationReadable
  import RegistrationTheorems

  predicate PhotoStaged(staging: Staging, path: Path) {
    path in staging && !Placeholder(staging[path])
  }

  /** Exactly the photos are followed, each from the moment a stored record needs it. */
  ghost predicate Followed(s: System) {
    && (forall c :: c in s.begun ==> !Placeholder(c.2))
    && (forall t, path :: Claims(s.disk.recoveries, t, path) && PhotoStaged(s.disk.staging, path) ==>
          (t, path, s.disk.staging[path]) in s.begun)
  }

  /** Claims only shrink and staged files stay or go: nothing new has to be followed. */
  lemma NothingNew(s: System, s': System)
    requires Followed(s) && s'.begun == s.begun
    requires forall t, path :: Claims(s'.disk.recoveries, t, path) ==> Claims(s.disk.recoveries, t, path)
    requires forall p :: p in s'.disk.staging ==> p in s.disk.staging && s'.disk.staging[p] == s.disk.staging[p]
    ensures Followed(s')
  {
    forall t, path | Claims(s'.disk.recoveries, t, path) && PhotoStaged(s'.disk.staging, path)
      ensures (t, path, s'.disk.staging[path]) in s'.begun
    {
      assert Claims(s.disk.recoveries, t, path) && PhotoStaged(s.disk.staging, path);
    }
  }

  lemma CaptureFollowed(s: System, path: Path, content: Bytes)
    requires Followed(s) && EnabledRecovery(s, CaptureFile(path, content))
    ensures Followed(ApplyRecovery(s, CaptureFile(path, content)))
  {
    var s' := ApplyRecovery(s, CaptureFile(path, content));
    forall t, p | Claims(s'.disk.recoveries, t, p) && PhotoStaged(s'.disk.staging, p)
      ensures (t, p, s'.disk.staging[p]) in s'.begun
    {
      assert p != path ==> PhotoStaged(s.disk.staging, p);
    }
  }

  lemma FinalizeFollowed(s: System)
    requires Safe(s) && Followed(s) && EnabledRecovery(s, FinalizeRecord)
    ensures Followed(ApplyRecovery(s, FinalizeRecord))
  {
    var s' := ApplyRecovery(s, FinalizeRecord);
    forall t, p | Claims(s'.disk.recoveries, t, p) && PhotoStaged(s'.disk.staging, p)
      ensures (t, p, s'.disk.staging[p]) in s'.begun
    {
      assert t != s.flow.record.token ==> Claims(s.disk.recoveries, t, p);
    }
  }

  lemma RecoveryFollowed(s: System, a: Action)
    requires Safe(s) && Followed(s) && EnabledRecovery(s, a)
    ensures Followed(ApplyRecovery(s, a))
  {
    if a.CaptureFile? {
      CaptureFollowed(s, a.path, a.content);
    } else if a == FinalizeRecord {
      FinalizeFollowed(s);
    } else {
      RecoveryShrinksClaims(s, a);
      NothingNew(s, ApplyRecovery(s, a));
    }
  }

  lemma RecoveryShrinksClaims(s: System, a: Action)
    requires Safe(s) && EnabledRecovery(s, a) && a != FinalizeRecord
    ensures forall t, path ::
              Claims(ApplyRecovery(s, a).disk.recoveries, t, path) ==> Claims(s.disk.recoveries, t, path)
  {
    if a.MarkPreviewReady? || a.Reconcile? {
      var r := ReadRecord(s.disk, a.token).value;
      var r' := if a.MarkPreviewReady? then Advanced(r, PreviewReady, None, a.now)
                else Reconciled(s.disk, r, a.now);
      ReplacedClaims(s.disk, r, r');
    }
  }

  lemma RegistrationShrinksClaims(s: System, a: Action)
    requires Safe(s) && EnabledRegistration(s, a)
    ensures forall t, path :: Claims(ApplyRegistration(s, a).disk.recoveries, t, path) ==>
              Claims(s.disk.recoveries, t, path)
  {
    if a.StartRegistration? && a.reg.token.Some? {
      var r := ReadRecord(s.disk, a.reg.token.value).value;
      ReplacedClaims(s.disk, r, Advanced(r, Phase.Registering, None, a.now));
    } else if a.MarkCommitted? {
      var r := ReadRecord(s.disk, s.flow.reg.token.value).value;
      ReplacedClaims(s.disk, r, Advanced(r, Committed, Some(s.flow.scanId), a.now));
    } else {
      assert ApplyRegistration(s, a).disk.recoveries == s.disk.recoveries;
    }
  }

  lemma ActionFollowed(s: System, a: Action)
    requires Safe(s) && Followed(s) && Enabled(s, a)
    ensures Followed(Apply(s, a))
  {
    if EnabledRecovery(s, a) {
      RecoveryFollowed(s, a);
    } else if EnabledRegistration(s, a) {
      RegistrationShrinksClaims(s, a);
      NothingNew(s, ApplyRegistration(s, a));
    } else {
      NothingNew(s, ApplyBatch(s, a));
    }
  }

  lemma {:induction false} RunIsFollowed(run: seq<System>, n: nat)
    requires IsRun(run) && n < |run|
    ensures Followed(run[n])
  {
    if n > 0 {
      RunIsFollowed(run, n - 1);
      RunIsSafe(run, n - 1);
      assert StepAt(run, n - 1);
      StepFollowed(run[n - 1], run[n]);
    }
  }

  lemma StepFollowed(s: System, s': System)
    requires Safe(s) && Followed(s) && Step(s, s')
    ensures Followed(s')
  {
    var a :| Enabled(s, a) && s' == Apply(s, a);
    ActionFollowed(s, a);
  }

  lemma {:induction false} FollowedForGood(run: seq<System>, m: nat, n: nat)
    requires IsRun(run) && m <= n < |run|
    ensures run[m].begun <= run[n].begun && run[m].released <= run[n].released && run[m].dropped <= run[n].dropped
    decreases n - m
  {
    if m < n {
      FollowedForGood(run, m, n - 1);
      assert StepAt(run, n - 1);
      var a :| Enabled(run[n - 1], a) && run[n] == Apply(run[n - 1], a);
      ActionRemembers(run[n - 1], a);
    }
  }

  lemma ActionRemembers(s: System, a: Action)
    requires Enabled(s, a)
    ensures s.begun <= Apply(s, a).begun && s.released <= Apply(s, a).released && s.dropped <= Apply(s, a).dropped
  {
    if !EnabledRecovery(s, a) && !EnabledRegistration(s, a) {
      assert ApplyBatch(s, a).begun == s.begun;
    }
  }

  /** No photo is lost: once it is staged for a stored record it is, in every later state, still staged, or the
      original of a committed scan, or a discard of it was started, or the platform itself deleted it. */
  lemma PhotosAreKept(run: seq<System>, m: nat, n: nat, t: Token, path: Path)
    requires IsRun(run) && m <= n < |run|
    requires Claims(run[m].disk.recoveries, t, path) && PhotoStaged(run[m].disk.staging, path)
    ensures var photo := run[m].disk.staging[path];
            || StagedAs(run[n].disk.staging, path, photo)
            || HeldByScan(photo, run[n].disk.scans, run[n].disk.assetFiles)
            || Dropped(run[n].dropped, path, photo)
            || (path, photo) in run[n].released
  {
    RunIsFollowed(run, m);
    FollowedForGood(run, m, n);
    RunIsSafe(run, n);
    assert (t, path, run[m].disk.staging[path]) in run[n].begun;
    assert CaptureKept(path, run[m].disk.staging[path], run[n]);
  }

  // ---- photos in careful runs ----------------------------------------------------------------------

  /** Of every photo ever followed: its record is still there, or its scan is, or its discard was started. */
  ghost predicate Recorded(s: System, t: Token, path: Path) {
    || (t in s.disk.recoveries && s.disk.recoveries[t].Stored? && s.disk.recoveries[t].record.stagingPath == path)
    || HasRow(s.disk.scans, t)
    || DiscardStarted(s.dropped, t, path)
  }

  ghost predicate AllRecorded(s: System) {
    && (forall c :: c in s.begun ==> Recorded(s, c.0, c.1))
    && (s.flow.Discarding? && s.flow.token in s.disk.recoveries && s.disk.recoveries[s.flow.token].Stored? ==>
          DiscardStarted(s.dropped, s.flow.token, s.disk.recoveries[s.flow.token].record.stagingPath))
  }

  ghost predicate StoredAt(s: System, t: Token, path: Path) {
    t in s.disk.recoveries && s.disk.recoveries[t].Stored? && s.disk.recoveries[t].record.stagingPath == path
  }

  /** Nothing recorded is forgotten when the discards and the rows only grow and a record that goes leaves a
      row or a discard. */
  lemma StillRecorded(s: System, s': System)
    requires AllRecorded(s) && s.dropped <= s'.dropped && ScansGrow(s.disk, s'.disk)
    requires forall c :: c in s'.begun ==> c in s.begun || Recorded(s', c.0, c.1)
    requires forall t, path :: StoredAt(s, t, path) ==> Recorded(s', t, path)
    ensures forall c :: c in s'.begun ==> Recorded(s', c.0, c.1)
  {
    forall c | c in s'.begun
      ensures Recorded(s', c.0, c.1)
    {
      if c in s.begun {
        assert Recorded(s, c.0, c.1);
        if HasRow(s.disk.scans, c.0) {
          var r :| r in s.disk.scans && s.disk.scans[r].token == Some(c.0);
          assert r in s'.disk.scans && s'.disk.scans[r].token == Some(c.0);
        } else if DiscardStarted(s.dropped, c.0, c.1) {
          var content :| (c.0, c.1, content) in s.dropped;
          assert (c.0, c.1, content) in s'.dropped;
        } else {
          assert StoredAt(s, c.0, c.1);
        }
      }
    }
  }

  lemma RemovalRecorded(s: System, a: Action)
    requires Safe(s) && AllRecorded(s) && EnabledRecovery(s, a) && (a == DiscardRecord || a.Acknowledge?)
    ensures AllRecorded(ApplyRecovery(s, a))
  {
    var s' := ApplyRecovery(s, a);
    var gone := if a == DiscardRecord then s.flow.token else a.token;
    forall t, path | StoredAt(s, t, path)
      ensures Recorded(s', t, path)
    {
      if t == gone && a.Acknowledge? {
        assert PhaseIsTrue(s.disk.recoveries[t], t, s.disk.scans);
        assert s'.disk.scans[s.disk.recoveries[t].record.scanId.value].token == Some(t);
      }
    }
    StillRecorded(s, s');
  }

  lemma RecoveryRecorded(s: System, a: Action)
    requires Safe(s) && AllRecorded(s) && EnabledRecovery(s, a)
    ensures AllRecorded(ApplyRecovery(s, a))
  {
    var s' := ApplyRecovery(s, a);
    if a == DiscardRecord || a.Acknowledge? {
      RemovalRecorded(s, a);
    } else {
      RecoveryKeepsStored(s, a);
      if a.DiscardStaging? {
        var path := ReadRecord(s.disk, a.token).value.stagingPath;
        assert (a.token, path, s.disk.staging[path]) in s'.dropped;
      }
      StillRecorded(s, s');
    }
  }

  lemma RecoveryKeepsStored(s: System, a: Action)
    requires Safe(s) && EnabledRecovery(s, a) && a != DiscardRecord && !a.Acknowledge?
    ensures forall t, path :: StoredAt(s, t, path) ==> StoredAt(ApplyRecovery(s, a), t, path)
  {}

  lemma BatchRecorded(s: System, a: Action)
    requires Safe(s) && AllRecorded(s) && EnabledBatch(s, a)
    ensures AllRecorded(ApplyBatch(s, a))
  {
    var s' := ApplyBatch(s, a);
    forall t, path | StoredAt(s, t, path)
      ensures Recorded(s', t, path)
    {
      if a.AcknowledgeSaved? && a.token == t {
        assert PhaseIsTrue(s.disk.recoveries[t], t, s.disk.scans);
        assert s'.disk.scans[s.disk.recoveries[t].record.scanId.value].token == Some(t);
      } else {
        assert StoredAt(s', t, path);
      }
    }
    StillRecorded(s, s');
  }

  lemma RegistrationKeepsStored(s: System, a: Action)
    requires Safe(s) && EnabledRegistration(s, a)
    ensures forall t, path :: StoredAt(s, t, path) ==> StoredAt(ApplyRegistration(s, a), t, path)
    ensures !ApplyRegistration(s, a).flow.Discarding? || ApplyRegistration(s, a).flow == s.flow
  {
    var s' := ApplyRegistration(s, a);
    if !a.StartRegistration? && !a.MarkCommitted? {
      assert s'.disk.recoveries == s.disk.recoveries;
    } else if s'.disk.recoveries != s.disk.recoveries {
      var token := if a.StartRegistration? then a.reg.token.value else s.flow.reg.token.value;
      assert s'.disk.recoveries == s.disk.recoveries[token := s'.disk.recoveries[token]];
      assert s'.disk.recoveries[token].record.stagingPath == s.disk.recoveries[token].record.stagingPath;
    }
  }

  lemma RegistrationRecorded(s: System, a: Action)
    requires Safe(s) && AllRecorded(s) && EnabledRegistration(s, a)
    ensures AllRecorded(ApplyRegistration(s, a))
  {
    RegistrationKeepsStored(s, a);
    RegistrationTheorems.RegistrationGrowsScans(s, a);
    StillRecorded(s, ApplyRegistration(s, a));
  }

  // ---- where the photo of a record is --------------------------------------------------------------

  /** As long as a record needs its photo, it is staged, unless its discard was started or the platform
      deleted it. */
  ghost predicate There(s: System, c: (Token, Path, Bytes)) {
    Claims(s.disk.recoveries, c.0, c.1) ==>
      StagedAs(s.disk.staging, c.1, c.2) || DiscardStarted(s.dropped, c.0, c.1) || (c.1, c.2) in s.released
  }

  ghost predicate AllThere(s: System) {
    forall c :: c in s.begun ==> There(s, c)
  }

  /** The file is staged as before, or no record that needs it minds that it is not. */
  ghost predicate Excused(s: System, s': System, p: Path) {
    || (p in s.disk.staging && StagedAs(s'.disk.staging, p, s.disk.staging[p]))
    || (forall t :: Claims(s'.disk.recoveries, t, p) ==> DiscardStarted(s'.dropped, t, p))
    || (p in s.disk.staging && (p, s.disk.staging[p]) in s'.released)
  }

  lemma StillThere(s: System, s': System)
    requires AllThere(s) && s.dropped <= s'.dropped && s.released <= s'.released
    requires forall c :: c in s'.begun ==> c in s.begun || StagedAs(s'.disk.staging, c.1, c.2)
    requires forall t, path :: Claims(s'.disk.recoveries, t, path) ==>
               || Claims(s.disk.recoveries, t, path)
               || (forall c :: c in s'.begun && c.0 == t && c.1 == path ==> There(s', c))
    requires forall p :: p in s.disk.staging ==> Excused(s, s', p)
    ensures AllThere(s')
  {
    forall c | c in s'.begun && Claims(s'.disk.recoveries, c.0, c.1)
      ensures There(s', c)
    {
      if c in s.begun && Claims(s.disk.recoveries, c.0, c.1) {
        assert There(s, c);
        if StagedAs(s.disk.staging, c.1, c.2) {
          assert Excused(s, s', c.1);
        } else if DiscardStarted(s.dropped, c.0, c.1) {
          var content :| (c.0, c.1, content) in s.dropped;
          assert (c.0, c.1, content) in s'.dropped;
        }
      }
    }
  }

  lemma CaptureThere(s: System, path: Path, content: Bytes)
    requires AllThere(s) && EnabledRecovery(s, CaptureFile(path, content))
    ensures AllThere(ApplyRecovery(s, CaptureFile(path, content)))
  {
    StillThere(s, ApplyRecovery(s, CaptureFile(path, content)));
  }

  /** A token is filed again only after its discard, so nothing old is missed. */
  lemma FinalizeThere(s: System)
    requires Safe(s) && AllRecorded(s) && AllThere(s) && EnabledRecovery(s, FinalizeRecord)
    ensures AllThere(ApplyRecovery(s, FinalizeRecord))
  {
    var s' := ApplyRecovery(s, FinalizeRecord);
    var r := s.flow.record;
    assert PhaseIsTrue(s.disk.recoveries[r.token], r.token, s.disk.scans);
    forall c | c in s'.begun && c.0 == r.token && c.1 == r.stagingPath
      ensures There(s', c)
    {
      if c in s.begun {
        assert Recorded(s, c.0, c.1);
      }
    }
    forall t, path | Claims(s'.disk.recoveries, t, path)
      ensures Claims(s.disk.recoveries, t, path) || (t == r.token && path == r.stagingPath)
    {}
    StillThere(s, s');
  }

  lemma DiscardThere(s: System, token: Token)
    requires Safe(s) && Met(s) && AllThere(s) && EnabledRecovery(s, DiscardStaging(token))
    ensures AllThere(ApplyRecovery(s, DiscardStaging(token)))
  {
    var s' := ApplyRecovery(s, DiscardStaging(token));
    var gone := ReadRecord(s.disk, token).value.stagingPath;
    assert Claims(s.disk.recoveries, token, gone);
    assert (token, gone, s.disk.staging[gone]) in s'.dropped;
    forall t | Claims(s'.disk.recoveries, t, gone)
      ensures DiscardStarted(s'.dropped, t, gone)
    {
      assert Claims(s.disk.recoveries, t, gone);
    }
    assert Excused(s, s', gone);
    StillThere(s, s');
  }

  lemma RecoveryThere(s: System, a: Action)
    requires Safe(s) && Met(s) && AllRecorded(s) && AllThere(s) && EnabledRecovery(s, a)
    ensures AllThere(ApplyRecovery(s, a))
  {
    if a.CaptureFile? {
      CaptureThere(s, a.path, a.content);
    } else if a == FinalizeRecord {
      FinalizeThere(s);
    } else if a.DiscardStaging? {
      DiscardThere(s, a.token);
    } else {
      RecoveryShrinksClaims(s, a);
      StillThere(s, ApplyRecovery(s, a));
    }
  }

  lemma RemoveThere(s: System)
    requires Met(s) && AllThere(s) && EnabledRegistration(s, RemoveStaging)
    ensures AllThere(ApplyRegistration(s, RemoveStaging))
  {
    var s' := ApplyRegistration(s, RemoveStaging);
    assert forall t :: !Claims(s.disk.recoveries, t, s.flow.reg.path);
    assert Excused(s, s', s.flow.reg.path);
    StillThere(s, s');
  }

  lemma RegistrationThere(s: System, a: Action)
    requires Safe(s) && Met(s) && AllThere(s) && EnabledRegistration(s, a)
    ensures AllThere(ApplyRegistration(s, a))
  {
    if a == RemoveStaging {
      RemoveThere(s);
    } else {
      RegistrationShrinksClaims(s, a);
      StillThere(s, ApplyRegistration(s, a));
    }
  }

  ghost predicate PhotoSafe(s: System) {
    AllRecorded(s) && AllThere(s)
  }

  lemma ActionIsPhotoSafe(s: System, a: Action)
    requires Safe(s) && Met(s) && PhotoSafe(s) && Enabled(s, a)
    ensures PhotoSafe(Apply(s, a))
  {
    if EnabledRecovery(s, a) {
      RecoveryRecorded(s, a);
      RecoveryThere(s, a);
    } else if EnabledRegistration(s, a) {
      RegistrationRecorded(s, a);
      RegistrationThere(s, a);
    } else {
      BatchRecorded(s, a);
      StillThere(s, ApplyBatch(s, a));
    }
  }

  lemma StepIsPhotoSafe(s: System, s': System)
    requires Safe(s) && Met(s) && PhotoSafe(s) && Step(s, s')
    ensures PhotoSafe(s')
  {
    var a :| Enabled(s, a) && s' == Apply(s, a);
    ActionIsPhotoSafe(s, a);
  }

  lemma {:induction false} CarefulRunIsPhotoSafe(run: seq<System>, n: nat)
    requires CarefulRun(run) && n < |run|
    ensures PhotoSafe(run[n])
  {
    if n > 0 {
      CarefulRunIsPhotoSafe(run, n - 1);
      CarefulRunIsMet(run, n - 1);
      RunIsSafe(run, n - 1);
      assert StepAt(run, n - 1);
      StepIsPhotoSafe(run[n - 1], run[n]);
    }
  }

  /** In a careful run a record whose photo has been written stays readable, across any crashes, unless its own
      discard was started or the platform deleted that very photo; and the photo staged for it is that one. So
      a Registering record can always be reconciled. */
  lemma CarefulRecordsStayReadable(run: seq<System>, n: nat, t: Token, photo: Bytes)
    requires CarefulRun(run) && n < |run|
    requires t in run[n].disk.recoveries && run[n].disk.recoveries[t].Stored?
    requires var path := run[n].disk.recoveries[t].record.stagingPath;
             && (t, path, photo) in run[n].begun
             && !DiscardStarted(run[n].dropped, t, path) && (path, photo) !in run[n].released
    ensures var r := run[n].disk.recoveries[t].record;
            && ReadRecord(run[n].disk, t) == Some(r)
            && (r.phase != Committed ==> StagedAs(run[n].disk.staging, r.stagingPath, photo))
            && (run[n].flow == Idle && r.phase == Phase.Registering ==>
                  forall now :: now > 0 ==> Enabled(run[n], Reconcile(t, now)))
  {
    RunIsSafe(run, n);
    CarefulRunIsMet(run, n);
    CarefulRunIsPhotoSafe(run, n);
    var r := run[n].disk.recoveries[t].record;
    assert There(run[n], (t, r.stagingPath, photo));
    if r.phase != Committed {
      assert Claims(run[n].disk.recoveries, t, r.stagingPath);
    }
  }

  // ---- the time without a file ---------------------------------------------------------------------

  /** When the platform deletes the placeholder of a record, the record is stranded until the photo comes. */
  lemma DeletedFileStrands(s: System, t: Token, path: Path)
    requires EnabledRecovery(s, DeleteStaged(path)) && Claims(s.disk.recoveries, t, path) && FlowSpares(s.flow, t)
    ensures Stranded(ApplyRecovery(s, DeleteStaged(path)), t)
  {}

  /** The photo makes it readable again, and is followed from then on. */
  lemma PhotoFreesRecord(s: System, t: Token, photo: Bytes)
    requires Safe(s) && Stranded(s, t) && photo != [] && !Placeholder(photo)
    ensures var path := s.disk.recoveries[t].record.stagingPath;
            && EnabledRecovery(s, CaptureFile(path, photo))
            && var s' := ApplyRecovery(s, CaptureFile(path, photo));
               ReadRecord(s'.disk, t) == Some(s.disk.recoveries[t].record) && (t, path, photo) in s'.begun
  {
    var path := s.disk.recoveries[t].record.stagingPath;
    assert Claims(s.disk.recoveries, t, path);
    assert (t, path, photo) in Photographed(s.disk.recoveries, path, photo);
  }
}
