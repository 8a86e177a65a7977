/** Every action keeps the system safe: one lemma an action, or a group of actions alike. */
module RegistrationSteps {
  import opened Prelude
  import opened IdCodec
  import opened ScanRecords
  import opened BatchSession
  import opened Registration
  import opened RegistrationSafety

  // ---- captures ------------------------------------------------------------------------------

  ghost predicate ScansGrow(before: Disk, after: Disk) {
    && (forall s :: s in before.scans ==> s in after.scans && SameScan(after.scans[s], before.scans[s]))
    && (forall a :: a in before.assetFiles ==>
          a in after.assetFiles && after.assetFiles[a] == before.assetFiles[a])
  }

  lemma HeldStaysHeld(content: Bytes, before: Disk, after: Disk)
    requires ScansGrow(before, after) && HeldByScan(content, before.scans, before.assetFiles)
    ensures HeldByScan(content, after.scans, after.assetFiles)
  {
    var s :| s in before.scans && HoldsOriginal(before.scans[s], content, before.assetFiles);
    assert s in after.scans && HoldsOriginal(after.scans[s], content, after.assetFiles);
  }

  /** Captures stay accounted for when rows and assets only grow and a staged file leaves only for a
      scan row, a discard or the platform. */
  lemma CapturesStayKept(s: System, s': System)
    requires NoCaptureLost(s) && ScansGrow(s.disk, s'.disk)
    requires s.dropped <= s'.dropped && s.released <= s'.released
    requires forall c :: c in s'.begun ==> c in s.begun || StagedAs(s'.disk.staging, c.1, c.2)
    requires forall p :: p in s.disk.staging ==> CaptureKept(p, s.disk.staging[p], s')
    ensures NoCaptureLost(s')
  {
    forall t, path, content | (t, path, content) in s'.begun
      ensures CaptureKept(path, content, s')
    {
      if (t, path, content) in s.begun {
        assert CaptureKept(path, content, s);
        if HeldByScan(content, s.disk.scans, s.disk.assetFiles) {
          HeldStaysHeld(content, s.disk, s'.disk);
        } else if Dropped(s.dropped, path, content) {
          var u :| (u, path, content) in s.dropped;
          assert (u, path, content) in s'.dropped;
        }
      }
    }
  }

  // ---- recovery actions ----------------------------------------------------------------------

  lemma CaptureFileStep(s: System, path: Path, content: Bytes)
    requires Safe(s) && EnabledRecovery(s, CaptureFile(path, content))
    ensures Safe(ApplyRecovery(s, CaptureFile(path, content)))
  {
    CapturesStayKept(s, ApplyRecovery(s, CaptureFile(path, content)));
  }

  lemma DeleteStagedStep(s: System, path: Path)
    requires Safe(s) && EnabledRecovery(s, DeleteStaged(path))
    ensures Safe(ApplyRecovery(s, DeleteStaged(path)))
  {
    CapturesStayKept(s, ApplyRecovery(s, DeleteStaged(path)));
  }

  lemma CreatePageStep(s: System, page: Id, state: PageState)
    requires Safe(s) && EnabledRecovery(s, CreatePage(page, state))
    ensures Safe(ApplyRecovery(s, CreatePage(page, state)))
  {
    CapturesStayKept(s, ApplyRecovery(s, CreatePage(page, state)));
  }

  lemma BeginSteps(s: System, a: Action)
    requires Safe(s) && EnabledRecovery(s, a)
    requires a.ReserveRecord? || a == FinalizeRecord || a == ReleaseReservation
    ensures Safe(ApplyRecovery(s, a))
  {
    match a {
      case ReserveRecord(r) =>
        ReserveName(s.disk, r.token);
        SessionsOutliveRecord(s.disk, s.disk.recoveries[r.token := Reserved]);
      case FinalizeRecord =>
        PutRecord(s.disk, s.flow.record);
        PutRecordKeepsBatches(s.disk, s.flow.record);
      case ReleaseReservation =>
        DropRecord(s.disk, s.flow.record.token);
        SessionsOutliveRecord(s.disk, WithoutRecord(s.disk, s.flow.record.token).recoveries);
    }
    CapturesStayKept(s, ApplyRecovery(s, a));
  }

  lemma PhaseSteps(s: System, a: Action)
    requires Safe(s) && EnabledRecovery(s, a)
    requires a.MarkPreviewReady? || a.Reconcile?
    ensures Safe(ApplyRecovery(s, a))
  {
    var d := s.disk;
    var r := ReadRecord(d, a.token).value;
    var r' := if a.MarkPreviewReady? then Advanced(r, PreviewReady, None, a.now) else Reconciled(d, r, a.now);
    assert PhaseIsTrue(d.recoveries[a.token], a.token, d.scans);
    if a.Reconcile? {
      ReconciledIsTrue(d, r, a.now);
    }
    PutRecord(d, r');
    PutRecordKeepsBatches(d, r');
    CapturesStayKept(s, ApplyRecovery(s, a));
  }

  lemma ReconciledIsTrue(d: Disk, r: Record, now: int)
    requires WellShaped(r) && now > 0 && r.phase == Phase.Registering
    requires RowsOnPage(d.scans, r.token, r.page)
    ensures WellShaped(Reconciled(d, r, now))
    ensures PhaseIsTrue(Stored(Reconciled(d, r, now)), r.token, d.scans)
  {
    if !(exists s :: RowFor(d.scans, s, r.page, r.token)) {
      if HasRow(d.scans, r.token) {
        var s :| s in d.scans && d.scans[s].token == Some(r.token);
        assert RowFor(d.scans, s, r.page, r.token);
      }
    }
  }

  lemma DiscardStagingStep(s: System, token: Token)
    requires Safe(s) && EnabledRecovery(s, DiscardStaging(token))
    ensures Safe(ApplyRecovery(s, DiscardStaging(token)))
  {
    var s' := ApplyRecovery(s, DiscardStaging(token));
    forall p | p in s.disk.staging
      ensures CaptureKept(p, s.disk.staging[p], s')
    {
      if p == ReadRecord(s.disk, token).value.stagingPath {
        assert (token, p, s.disk.staging[p]) in s'.dropped;
      }
    }
    CapturesStayKept(s, s');
  }

  lemma RemovalSteps(s: System, a: Action)
    requires Safe(s) && EnabledRecovery(s, a)
    requires a == DiscardRecord || a.Acknowledge? || a == Halt
    ensures Safe(ApplyRecovery(s, a))
  {
    if a != Halt {
      var t := if a == DiscardRecord then s.flow.token else a.token;
      DropRecord(s.disk, t);
      SessionsOutliveRecord(s.disk, WithoutRecord(s.disk, t).recoveries);
    }
    CapturesStayKept(s, ApplyRecovery(s, a));
  }

  lemma RecoveryStep(s: System, a: Action)
    requires Safe(s) && EnabledRecovery(s, a)
    ensures Safe(ApplyRecovery(s, a))
  {
    match a
    case CaptureFile(path, content) => CaptureFileStep(s, path, content);
    case DeleteStaged(path) => DeleteStagedStep(s, path);
    case CreatePage(page, state) => CreatePageStep(s, page, state);
    case ReserveRecord(r) => BeginSteps(s, a);
    case FinalizeRecord => BeginSteps(s, a);
    case ReleaseReservation => BeginSteps(s, a);
    case MarkPreviewReady(token, now) => PhaseSteps(s, a);
    case Reconcile(token, now) => PhaseSteps(s, a);
    case DiscardStaging(token) => DiscardStagingStep(s, token);
    case DiscardRecord => RemovalSteps(s, a);
    case Acknowledge(token, scanId) => RemovalSteps(s, a);
    case Halt => RemovalSteps(s, a);
  }

  // ---- registration actions ------------------------------------------------------------------

  lemma StartStep(s: System, a: Action)
    requires Safe(s) && a.StartRegistration? && EnabledRegistration(s, a)
    ensures Safe(ApplyRegistration(s, a))
  {
    var reg := a.reg;
    if reg.token.Some? {
      var t := reg.token.value;
      var r := ReadRecord(s.disk, t).value;
      assert PhaseIsTrue(s.disk.recoveries[t], t, s.disk.scans);
      NoRowIsOnPage(s.disk.scans, t, r.page);
      PutRecord(s.disk, Advanced(r, Phase.Registering, None, a.now));
      PutRecordKeepsBatches(s.disk, Advanced(r, Phase.Registering, None, a.now));
    }
    CapturesStayKept(s, ApplyRegistration(s, a));
  }

  lemma NoRowIsOnPage(scans: Scans, t: Token, page: Id)
    requires !HasRow(scans, t)
    ensures RowsOnPage(scans, t, page)
  {}

  /** An edit of one journal whose registration has made no unreferenced asset. */
  lemma JournalEditKeepsOrphans(d: Disk, scanId: Id, journals': Journals)
    requires OrphansExplained(d.assetFiles, d.journals, d.scans)
    requires forall j :: j in d.journals && j != scanId ==> j in journals' && journals'[j] == d.journals[j]
    requires forall a :: a in d.assetFiles && d.assetFiles[a].producer == scanId ==>
               Referenced(a, d.assetFiles[a], d.scans)
    ensures OrphansExplained(d.assetFiles, journals', d.scans)
  {
    forall a | a in d.assetFiles
      ensures Referenced(a, d.assetFiles[a], d.scans) || OrphanExplained(a, d.assetFiles[a], journals')
    {
      assert Referenced(a, d.assetFiles[a], d.scans) || OrphanExplained(a, d.assetFiles[a], d.journals);
    }
  }

  lemma CreateJournalStep(s: System, a: Action)
    requires Safe(s) && a.CreateJournal? && EnabledRegistration(s, a)
    ensures Safe(ApplyRegistration(s, a))
  {
    JournalEditKeepsOrphans(s.disk, a.scanId, ApplyRegistration(s, a).disk.journals);
    CapturesStayKept(s, ApplyRegistration(s, a));
  }

  lemma LoggedAll(assets: seq<Id>, k: nat)
    requires k < |assets|
    ensures AssetCommitted(assets[k], KindAt(k)) in Logged(assets)
  {
    var n := |assets| - 1;
    if k < n {
      LoggedAll(assets[..n], k);
    }
  }

  /** A journal that starts with the log of the assets lists each asset the registration produced. */
  lemma AssetsJournalled(reg: Registering, scanId: Id, assets: seq<Id>, files: AssetFiles,
                         journal: seq<JournalEntry>, a: Id)
    requires AssetsFiled(reg, scanId, assets, files) && OnlyProduced(scanId, assets, files)
    requires a in files && files[a].producer == scanId
    requires [Started(scanId, reg.path)] + Logged(assets) <= journal
    ensures AssetCommitted(a, files[a].kind) in journal
  {
    assert a in assets;
    var k :| 0 <= k < |assets| && assets[k] == a;
    LoggedAll(assets, k);
    var log := Logged(assets);
    var i :| 0 <= i < |log| && log[i] == AssetCommitted(a, KindAt(k));
    assert journal[i + 1] == ([Started(scanId, reg.path)] + log)[i + 1];
  }

  lemma StartJournalStep(s: System)
    requires Safe(s) && EnabledRegistration(s, StartJournal)
    ensures Safe(ApplyRegistration(s, StartJournal))
  {
    var scanId := s.flow.scanId;
    var e := Started(scanId, s.flow.reg.path);
    AppendKeepsOrphans(s.disk, scanId, e);
    assert [] + [e] == [e] + Logged([]);
    CapturesStayKept(s, ApplyRegistration(s, StartJournal));
  }

  lemma AnnounceStep(s: System)
    requires Safe(s) && EnabledRegistration(s, Announce)
    ensures Safe(ApplyRegistration(s, Announce))
  {
    AnnounceKeepsOrphans(s.flow, s.disk);
    AnnounceKeepsCaptures(s);
  }

  lemma AnnounceKeepsCaptures(s: System)
    requires NoCaptureLost(s) && EnabledRegistration(s, Announce)
    ensures NoCaptureLost(ApplyRegistration(s, Announce))
  {
    CapturesStayKept(s, ApplyRegistration(s, Announce));
  }

  lemma AnnounceKeepsOrphans(flow: Flow, d: Disk)
    requires flow.Running? && flow.stage == Open
    requires OrphansExplained(d.assetFiles, d.journals, d.scans)
    requires FlowOwnsAssets(flow, d.assetFiles) && FlowOwnsJournal(flow, d.journals)
    ensures OrphansExplained(d.assetFiles,
              Appended(d, flow.scanId, Committing(KindAt(|flow.assets|))).journals, d.scans)
  {
    forall x | x in d.assetFiles && d.assetFiles[x].producer == flow.scanId
      ensures AssetCommitted(x, d.assetFiles[x].kind) in d.journals[flow.scanId]
    {
      AssetsJournalled(flow.reg, flow.scanId, flow.assets, d.assetFiles, d.journals[flow.scanId], x);
    }
    AppendKeepsOrphans(d, flow.scanId, Committing(KindAt(|flow.assets|)));
  }

  lemma FileKeepsTables(d: Disk, a: Id, file: AssetFile)
    requires a !in d.assetFiles && OrphanExplained(a, file, d.journals)
    requires OrphansExplained(d.assetFiles, d.journals, d.scans)
    requires RowsBacked(d.scans, d.assetFiles, d.assetRows)
    ensures OrphansExplained(d.assetFiles[a := file], d.journals, d.scans)
    ensures RowsBacked(d.scans, d.assetFiles[a := file], d.assetRows)
  {
    forall x | x in d.scans
      ensures RowBacked(x, d.scans[x], d.assetFiles[a := file], d.assetRows)
    {
      assert RowBacked(x, d.scans[x], d.assetFiles, d.assetRows);
    }
  }

  lemma FileKeepsFlow(flow: Flow, files: AssetFiles, a: Id)
    requires flow.Running? && |flow.reg.contents| == 4 && |flow.assets| < 4 && a !in files
    requires AssetsFiled(flow.reg, flow.scanId, flow.assets, files)
    requires OnlyProduced(flow.scanId, flow.assets, files)
    ensures var k := |flow.assets|;
            var files' := files[a := AssetFile(KindAt(k), flow.reg.contents[k], flow.scanId)];
            && AssetsFiled(flow.reg, flow.scanId, flow.assets + [a], files')
            && OnlyProduced(flow.scanId, flow.assets + [a], files')
  {}

  function WithFile(flow: Flow, a: Id): AssetFile
    requires flow.Running? && |flow.assets| < |flow.reg.contents|
  {
    AssetFile(KindAt(|flow.assets|), flow.reg.contents[|flow.assets|], flow.scanId)
  }

  lemma FileKeepsFlowSafe(f: Flow, d: Disk, a: Id)
    requires f.Running? && f.stage == Announced && |f.assets| < 4 && a !in d.assetFiles
    requires FlowSafe(f, d)
    ensures FlowSafe(f.(stage := Filed, assets := f.assets + [a]),
                     d.(assetFiles := d.assetFiles[a := WithFile(f, a)]))
  {
    assert (f.assets + [a])[..|f.assets|] == f.assets;
    FileKeepsFlow(f, d.assetFiles, a);
  }

  lemma CommitAssetStep(s: System, a: Action)
    requires Safe(s) && a.CommitAsset? && EnabledRegistration(s, a)
    ensures Safe(ApplyRegistration(s, a))
  {
    FileKeepsTables(s.disk, a.asset, WithFile(s.flow, a.asset));
    FileKeepsFlowSafe(s.flow, s.disk, a.asset);
    CommitAssetKeepsCaptures(s, a);
  }

  lemma CommitAssetKeepsCaptures(s: System, a: Action)
    requires Safe(s) && a.CommitAsset? && EnabledRegistration(s, a)
    ensures NoCaptureLost(ApplyRegistration(s, a))
  {
    CapturesStayKept(s, ApplyRegistration(s, a));
  }

  lemma RecordAssetJournal(flow: Flow, d: Disk)
    requires flow.Running? && flow.stage == Filed && flow.assets != []
    requires FlowOwnsJournal(flow, d.journals) && FlowOwnsAssets(flow, d.assetFiles)
    requires OrphansExplained(d.assetFiles, d.journals, d.scans)
    ensures var k := |flow.assets| - 1;
            var journals' := Appended(d, flow.scanId, AssetCommitted(flow.assets[k], KindAt(k))).journals;
            && journals'[flow.scanId] == JournalAt(flow.reg.path, Open, flow.scanId, flow.assets)
            && OrphansExplained(d.assetFiles, journals', d.scans)
  {
    var scanId, assets := flow.scanId, flow.assets;
    var k := |assets| - 1;
    var e := AssetCommitted(assets[k], KindAt(k));
    var started := [Started(scanId, flow.reg.path)];
    assert d.journals[scanId] == started + Logged(assets[..k]) + [Committing(KindAt(k))];
    assert d.journals[scanId] + [e] == started + Logged(assets);
    forall x | x in d.assetFiles && d.assetFiles[x].producer == scanId
      ensures e == AssetCommitted(x, d.assetFiles[x].kind)
              || AssetCommitted(x, d.assetFiles[x].kind) in d.journals[scanId]
    {
      AssetsJournalled(flow.reg, scanId, assets, d.assetFiles, d.journals[scanId] + [e], x);
    }
    AppendKeepsOrphans(d, scanId, e);
  }

  lemma RecordAssetStep(s: System)
    requires Safe(s) && EnabledRegistration(s, RecordAsset)
    ensures Safe(ApplyRegistration(s, RecordAsset))
  {
    RecordAssetJournal(s.flow, s.disk);
    CapturesStayKept(s, ApplyRegistration(s, RecordAsset));
  }

  // The transaction: one new row under a fresh id, for a token that has none.

  lemma RowKeepsTokens(scans: Scans, scanId: Id, row: ScanRow)
    requires OneRowPerToken(scans) && scanId !in scans
    requires row.token.Some? ==> !HasRow(scans, row.token.value)
    ensures OneRowPerToken(scans[scanId := row])
  {
    var scans' := scans[scanId := row];
    forall x, y | SameToken(scans', x, y)
      ensures x == y
    {
      if x != scanId && y != scanId {
        assert SameToken(scans, x, y);
      }
    }
  }

  lemma RowKeepsPhases(recoveries: Recoveries, scans: Scans, scanId: Id, row: ScanRow)
    requires PhasesAreTrue(recoveries, scans) && scanId !in scans
    requires row.token.Some? ==> RunningRecord(row.token.value, row.page, Open, recoveries, scans)
    ensures PhasesAreTrue(recoveries, scans[scanId := row])
  {
    var scans' := scans[scanId := row];
    forall t | t in recoveries
      ensures PhaseIsTrue(recoveries[t], t, scans')
    {
      assert PhaseIsTrue(recoveries[t], t, scans);
      if row.token != Some(t) && HasRow(scans', t) {
        var x :| x in scans' && scans'[x].token == Some(t);
        assert x in scans && scans[x].token == Some(t);
      }
    }
  }

  lemma RowKeepsSessions(sessions: Sessions, recoveries: Recoveries, scans: Scans, scanId: Id, row: ScanRow)
    requires SessionsAreTrue(sessions, scans, recoveries) && scanId !in scans
    requires row.token.Some? ==> RunningRecord(row.token.value, row.page, Open, recoveries, scans)
    ensures SessionsAreTrue(sessions, scans[scanId := row], recoveries)
  {
    forall id | id in sessions && sessions[id].SessionStored?
      ensures SessionIsTrue(id, sessions[id].session, scans[scanId := row], recoveries)
    {
      var entries := sessions[id].session.entries;
      forall i | 0 <= i < |entries|
        ensures EntryIsTrue(entries[i], scans[scanId := row], recoveries)
      {
        assert EntryIsTrue(entries[i], scans, recoveries);
      }
    }
  }

  lemma RowKeepsAssets(f: Flow, d: Disk)
    requires f.Running? && f.stage == Open && |f.assets| == 4
    requires FlowOwnsRow(f, d.scans) && FlowOwnsAssets(f, d.assetFiles)
    requires RowsBacked(d.scans, d.assetFiles, d.assetRows)
    requires OrphansExplained(d.assetFiles, d.journals, d.scans)
    ensures RowsBacked(WithRows(d, f.reg, f.scanId, f.assets).scans, d.assetFiles,
                       WithRows(d, f.reg, f.scanId, f.assets).assetRows)
    ensures OrphansExplained(d.assetFiles, d.journals, WithRows(d, f.reg, f.scanId, f.assets).scans)
  {
    var d' := WithRows(d, f.reg, f.scanId, f.assets);
    forall x | x in d'.scans
      ensures RowBacked(x, d'.scans[x], d.assetFiles, d'.assetRows)
    {
      if x != f.scanId {
        assert RowBacked(x, d.scans[x], d.assetFiles, d.assetRows);
      }
    }
    forall a | a in d.assetFiles
      ensures Referenced(a, d.assetFiles[a], d'.scans) || OrphanExplained(a, d.assetFiles[a], d.journals)
    {
      assert Referenced(a, d.assetFiles[a], d.scans) || OrphanExplained(a, d.assetFiles[a], d.journals);
    }
  }

  lemma RowKeepsPreferred(f: Flow, d: Disk)
    requires f.Running? && f.stage == Open && f.scanId !in d.scans
    requires FlowOwnsPage(f, d.pages) && PreferredAgree(d.pages, d.scans)
    ensures PreferredAgree(WithRows(d, f.reg, f.scanId, f.assets).pages,
                           WithRows(d, f.reg, f.scanId, f.assets).scans)
  {
    var d' := WithRows(d, f.reg, f.scanId, f.assets);
    forall p | p in d'.pages
      ensures PreferredIsOwn(p, d'.pages[p], d'.scans)
    {
      assert PreferredIsOwn(p, d.pages[p], d.scans);
    }
    forall x | x in d'.scans
      ensures RowKnowsPage(x, d'.scans[x], d'.pages)
    {
      if x != f.scanId {
        assert RowKnowsPage(x, d.scans[x], d.pages);
      }
    }
  }

  /** The row a running registration is about to insert is new, and so is its token. */
  ghost predicate RowIsNew(f: Flow, d: Disk) {
    && f.Running? && f.scanId !in d.scans
    && (f.reg.token.Some? ==> RunningRecord(f.reg.token.value, f.reg.page, Open, d.recoveries, d.scans))
  }

  lemma NewRowKeepsRecords(f: Flow, d: Disk)
    requires RowIsNew(f, d)
    requires OneRowPerToken(d.scans) && PhasesAreTrue(d.recoveries, d.scans)
    ensures OneRowPerToken(WithRows(d, f.reg, f.scanId, f.assets).scans)
    ensures PhasesAreTrue(d.recoveries, WithRows(d, f.reg, f.scanId, f.assets).scans)
  {
    RowKeepsTokens(d.scans, f.scanId, ScanRowOf(f.reg, f.assets));
    RowKeepsPhases(d.recoveries, d.scans, f.scanId, ScanRowOf(f.reg, f.assets));
  }

  lemma NewRowKeepsBatches(f: Flow, d: Disk)
    requires RowIsNew(f, d) && BatchSafe(d)
    ensures BatchSafe(WithRows(d, f.reg, f.scanId, f.assets))
  {
    RowKeepsSessions(d.sessions, d.recoveries, d.scans, f.scanId, ScanRowOf(f.reg, f.assets));
  }

  lemma OpenRowIsNew(f: Flow, d: Disk)
    requires f.Running? && f.stage == Open
    requires FlowOwnsRow(f, d.scans) && FlowOwnsRecord(f, d.recoveries, d.scans, d.sessions)
    ensures RowIsNew(f, d)
  {}

  lemma RowsKeepTables(f: Flow, d: Disk)
    requires RowIsNew(f, d) && f.stage == Open && |f.assets| == 4
    requires TablesSafe(d)
    requires FlowOwnsRow(f, d.scans) && FlowOwnsAssets(f, d.assetFiles) && FlowOwnsPage(f, d.pages)
    ensures TablesSafe(WithRows(d, f.reg, f.scanId, f.assets))
  {
    NewRowKeepsRecords(f, d);
    RowKeepsAssets(f, d);
    RowKeepsPreferred(f, d);
  }

  lemma RowKeepsFlow(f: Flow, d: Disk)
    requires f.Running? && f.stage == Open && |f.assets| == 4
    requires FlowSafe(f, d)
    ensures FlowSafe(f.(stage := RowsIn), WithRows(d, f.reg, f.scanId, f.assets))
  {
    var f', d' := f.(stage := RowsIn), WithRows(d, f.reg, f.scanId, f.assets);
    assert FlowOwnsRecord(f', d'.recoveries, d'.scans, d'.sessions);
    assert FlowOwnsJournal(f', d'.journals);
    assert FlowOwnsRow(f', d'.scans);
  }

  lemma RowsKeepCaptures(s: System, s': System)
    requires NoCaptureLost(s) && s.flow.Running? && s.flow.scanId !in s.disk.scans
    requires s'.disk == WithRows(s.disk, s.flow.reg, s.flow.scanId, s.flow.assets)
    requires s'.begun == s.begun && s'.dropped == s.dropped && s'.released == s.released
    ensures NoCaptureLost(s')
  {
    CapturesStayKept(s, s');
  }

  lemma CommitRowsStep(s: System)
    requires Safe(s) && EnabledRegistration(s, CommitRows)
    ensures Safe(ApplyRegistration(s, CommitRows))
  {
    OpenRowIsNew(s.flow, s.disk);
    RowsKeepTables(s.flow, s.disk);
    NewRowKeepsBatches(s.flow, s.disk);
    RowKeepsFlow(s.flow, s.disk);
    RowsKeepCaptures(s, ApplyRegistration(s, CommitRows));
  }

  lemma CommittedRecordIsTrue(f: Flow, d: Disk, r: Record, now: int)
    requires f.Running? && f.stage == RowsIn && f.reg.token == Some(r.token) && now > 0
    requires TablesSafe(d) && WellShaped(r) && r.page == f.reg.page
    requires FlowOwnsRow(f, d.scans)
    ensures TablesSafe(WithRecord(d, Advanced(r, Committed, Some(f.scanId), now)))
  {
    PutRecord(d, Advanced(r, Committed, Some(f.scanId), now));
  }

  lemma CommittedFlowIsSafe(f: Flow, d: Disk, r: Record, now: int)
    requires f.Running? && f.stage == RowsIn && f.reg.token == Some(r.token) && r.page == f.reg.page
    requires FlowSafe(f, d)
    ensures FlowSafe(f.(stage := Settled), WithRecord(d, Advanced(r, Committed, Some(f.scanId), now)))
  {
    LateStage(f, d.journals, Settled);
  }

  lemma RunningRecordPage(f: Flow, d: Disk)
    requires f.Running? && f.reg.token.Some? && ReadRecord(d, f.reg.token.value).Some?
    requires FlowOwnsRecord(f, d.recoveries, d.scans, d.sessions)
    ensures ReadRecord(d, f.reg.token.value).value.page == f.reg.page
  {}

  lemma MarkCommittedStep(s: System, a: Action)
    requires Safe(s) && a.MarkCommitted? && EnabledRegistration(s, a)
    ensures Safe(ApplyRegistration(s, a))
  {
    var r := ReadRecord(s.disk, s.flow.reg.token.value).value;
    RunningRecordPage(s.flow, s.disk);
    CommittedRecordIsTrue(s.flow, s.disk, r, a.now);
    CommittedFlowIsSafe(s.flow, s.disk, r, a.now);
    PutRecordKeepsBatches(s.disk, Advanced(r, Committed, Some(s.flow.scanId), a.now));
    MarkKeepsCaptures(s, a);
  }

  lemma MarkKeepsCaptures(s: System, a: Action)
    requires NoCaptureLost(s) && a.MarkCommitted? && EnabledRegistration(s, a)
    ensures NoCaptureLost(ApplyRegistration(s, a))
  {
    CapturesStayKept(s, ApplyRegistration(s, a));
  }

  /** After the rows are in, only the journal still has to fit the stage. */
  lemma StageStaysSafe(f: Flow, d: Disk, stage: Stage, journals': Journals)
    requires f.Running? && !BeforeRows(f.stage) && !BeforeRows(stage)
    requires FlowSafe(f, d)
    requires FlowOwnsJournal(f.(stage := stage), journals')
    ensures FlowSafe(f.(stage := stage), d.(journals := journals'))
  {}

  lemma SealKeepsOrphans(f: Flow, d: Disk, journals': Journals)
    requires f.Running? && !BeforeRows(f.stage)
    requires FlowOwnsRow(f, d.scans) && FlowOwnsAssets(f, d.assetFiles)
    requires OrphansExplained(d.assetFiles, d.journals, d.scans)
    requires forall j :: j in d.journals && j != f.scanId ==> j in journals' && journals'[j] == d.journals[j]
    ensures OrphansExplained(d.assetFiles, journals', d.scans)
  {
    JournalEditKeepsOrphans(d, f.scanId, journals');
  }

  lemma SealKeepsTables(f: Flow, d: Disk, journals': Journals)
    requires TablesSafe(d)
    requires OrphansExplained(d.assetFiles, journals', d.scans)
    ensures TablesSafe(d.(journals := journals'))
  {}

  lemma SealKeepsCaptures(s: System, s': System)
    requires NoCaptureLost(s) && s'.begun == s.begun && s'.dropped == s.dropped && s'.released == s.released
    requires s'.disk == s.disk.(journals := s'.disk.journals)
    ensures NoCaptureLost(s')
  {
    CapturesStayKept(s, s');
  }

  ghost function LateMove(s: System, stage: Stage, journals': Journals): System
    requires s.flow.Running?
  {
    s.(disk := s.disk.(journals := journals'), flow := s.flow.(stage := stage))
  }

  /** Any move of the flow after the rows are in, whatever it does to its own journal. */
  lemma LateStep(s: System, stage: Stage, journals': Journals)
    requires Safe(s) && s.flow.Running? && !BeforeRows(s.flow.stage) && !BeforeRows(stage)
    requires FlowOwnsJournal(s.flow.(stage := stage), journals')
    requires forall j :: j in s.disk.journals && j != s.flow.scanId ==>
               j in journals' && journals'[j] == s.disk.journals[j]
    ensures Safe(LateMove(s, stage, journals'))
  {
    var s' := LateMove(s, stage, journals');
    SealKeepsOrphans(s.flow, s.disk, journals');
    SealKeepsTables(s.flow, s.disk, journals');
    StageStaysSafe(s.flow, s.disk, stage, journals');
    SealKeepsCaptures(s, s');
  }

  lemma LateStage(f: Flow, journals: Journals, stage: Stage)
    requires f.Running? && FlowOwnsJournal(f, journals)
    requires (f.stage == RowsIn && stage == Settled) || stage == Closed
    ensures FlowOwnsJournal(f.(stage := stage), journals)
  {}

  lemma SealedJournal(f: Flow, d: Disk)
    requires f.Running? && f.stage == Settled && FlowOwnsJournal(f, d.journals)
    ensures FlowOwnsJournal(f.(stage := Sealed), Appended(d, f.scanId, DatabaseCommitted).journals)
  {}

  lemma LeaveUncommittedMove(s: System)
    requires EnabledRegistration(s, LeaveUncommitted)
    ensures s.flow.Running? && s.flow.stage == RowsIn
    ensures ApplyRegistration(s, LeaveUncommitted) == LateMove(s, Settled, s.disk.journals)
  {}

  lemma LeaveJournalMove(s: System)
    requires EnabledRegistration(s, LeaveJournal)
    ensures s.flow.Running? && (s.flow.stage == Settled || s.flow.stage == Sealed)
    ensures ApplyRegistration(s, LeaveJournal) == LateMove(s, Closed, s.disk.journals)
  {}

  lemma SealJournalMove(s: System)
    requires EnabledRegistration(s, SealJournal)
    ensures s.flow.Running? && s.flow.stage == Settled
    ensures ApplyRegistration(s, SealJournal)
            == LateMove(s, Sealed, Appended(s.disk, s.flow.scanId, DatabaseCommitted).journals)
  {}

  lemma CloseJournalMove(s: System)
    requires EnabledRegistration(s, CloseJournal)
    ensures s.flow.Running? && s.flow.stage == Sealed
    ensures ApplyRegistration(s, CloseJournal) == LateMove(s, Closed, s.disk.journals - {s.flow.scanId})
  {}

  lemma LeaveUncommittedStep(s: System)
    requires Safe(s) && EnabledRegistration(s, LeaveUncommitted)
    ensures Safe(ApplyRegistration(s, LeaveUncommitted))
  {
    LeaveUncommittedMove(s);
    LateStage(s.flow, s.disk.journals, Settled);
    LateStep(s, Settled, s.disk.journals);
  }

  lemma LeaveJournalStep(s: System)
    requires Safe(s) && EnabledRegistration(s, LeaveJournal)
    ensures Safe(ApplyRegistration(s, LeaveJournal))
  {
    LeaveJournalMove(s);
    LateStage(s.flow, s.disk.journals, Closed);
    LateStep(s, Closed, s.disk.journals);
  }

  lemma SealJournalStep(s: System)
    requires Safe(s) && EnabledRegistration(s, SealJournal)
    ensures Safe(ApplyRegistration(s, SealJournal))
  {
    SealJournalMove(s);
    SealedJournal(s.flow, s.disk);
    LateStep(s, Sealed, Appended(s.disk, s.flow.scanId, DatabaseCommitted).journals);
  }

  lemma CloseJournalStep(s: System)
    requires Safe(s) && EnabledRegistration(s, CloseJournal)
    ensures Safe(ApplyRegistration(s, CloseJournal))
  {
    CloseJournalMove(s);
    LateStep(s, Closed, s.disk.journals - {s.flow.scanId});
  }

  /** The staging file goes only after a scan row holds its bytes. */
  lemma RunningCaptureHeld(flow: Flow, d: Disk)
    requires flow.Running? && !BeforeRows(flow.stage)
    requires FlowOwnsRow(flow, d.scans) && FlowOwnsAssets(flow, d.assetFiles)
    ensures HeldByScan(flow.reg.contents[0], d.scans, d.assetFiles)
  {
    assert HoldsOriginal(d.scans[flow.scanId], flow.reg.contents[0], d.assetFiles);
  }

  lemma FinishSteps(s: System, a: Action)
    requires Safe(s) && EnabledRegistration(s, a)
    requires a == RemoveStaging || a == LeaveStaging
    ensures Safe(ApplyRegistration(s, a))
  {
    FinishKeepsCaptures(s, a);
  }

  lemma FinishKeepsCaptures(s: System, a: Action)
    requires Safe(s) && EnabledRegistration(s, a)
    requires a == RemoveStaging || a == LeaveStaging
    ensures NoCaptureLost(ApplyRegistration(s, a))
  {
    RunningCaptureHeld(s.flow, s.disk);
    HeldFileMayGo(s, ApplyRegistration(s, a), s.flow.reg.path, s.flow.reg.contents[0]);
  }

  lemma HeldFileMayGo(s: System, s': System, path: Path, content: Bytes)
    requires NoCaptureLost(s) && s'.begun == s.begun && s'.dropped == s.dropped && s'.released == s.released
    requires s'.disk == s.disk || s'.disk == s.disk.(staging := s.disk.staging - {path})
    requires StagedAs(s.disk.staging, path, content)
    requires HeldByScan(content, s.disk.scans, s.disk.assetFiles)
    ensures NoCaptureLost(s')
  {
    CapturesStayKept(s, s');
  }

  // ---- another preferred scan ------------------------------------------------------------------

  /** Tables that only look at tokens, pages and assets do not mind another preferred scan. */
  lemma SameScansKeepTables(d: Disk, page: Id, scan: Id)
    requires TablesSafe(d) && page in d.pages && scan in d.scans && d.scans[scan].page == page
    ensures var d' := WithPreferred(d, page, scan);
            && OneRowPerToken(d'.scans) && PhasesAreTrue(d.recoveries, d'.scans)
            && OrphansExplained(d.assetFiles, d.journals, d'.scans) && RowsBacked(d'.scans, d.assetFiles, d.assetRows)
  {
    var d' := WithPreferred(d, page, scan);
    forall s, s' | SameToken(d'.scans, s, s')
      ensures s == s'
    {
      assert SameToken(d.scans, s, s');
    }
    SamePhases(d, d');
    forall a | a in d.assetFiles
      ensures Referenced(a, d.assetFiles[a], d'.scans) || OrphanExplained(a, d.assetFiles[a], d.journals)
    {
      assert Referenced(a, d.assetFiles[a], d.scans) || OrphanExplained(a, d.assetFiles[a], d.journals);
    }
    forall s | s in d'.scans
      ensures RowBacked(s, d'.scans[s], d.assetFiles, d.assetRows)
    {
      assert RowBacked(s, d.scans[s], d.assetFiles, d.assetRows);
    }
  }

  ghost predicate SameRows(scans: Scans, scans': Scans) {
    scans.Keys == scans'.Keys && forall s :: s in scans ==> SameScan(scans'[s], scans[s])
  }

  lemma SameTokens(scans: Scans, scans': Scans, t: Token, page: Id)
    requires SameRows(scans, scans')
    ensures HasRow(scans, t) <==> HasRow(scans', t)
    ensures RowsOnPage(scans, t, page) ==> RowsOnPage(scans', t, page)
    ensures forall s :: RowFor(scans, s, page, t) <==> RowFor(scans', s, page, t)
  {
    if HasRow(scans, t) {
      var s :| s in scans && scans[s].token == Some(t);
      assert s in scans' && scans'[s].token == Some(t);
    }
    if HasRow(scans', t) {
      var s :| s in scans' && scans'[s].token == Some(t);
      assert s in scans && scans[s].token == Some(t);
    }
  }

  lemma SamePhases(d: Disk, d': Disk)
    requires PhasesAreTrue(d.recoveries, d.scans) && SameRows(d.scans, d'.scans)
    ensures PhasesAreTrue(d.recoveries, d'.scans)
  {
    forall t | t in d.recoveries
      ensures PhaseIsTrue(d.recoveries[t], t, d'.scans)
    {
      assert PhaseIsTrue(d.recoveries[t], t, d.scans);
      SameTokens(d.scans, d'.scans, t, if d.recoveries[t].Stored? then d.recoveries[t].record.page else 0);
    }
  }

  lemma SameSessions(d: Disk, d': Disk)
    requires BatchSafe(d) && SameRows(d.scans, d'.scans)
    ensures SessionsAreTrue(d.sessions, d'.scans, d.recoveries)
  {
    forall id | id in d.sessions && d.sessions[id].SessionStored?
      ensures SessionIsTrue(id, d.sessions[id].session, d'.scans, d.recoveries)
    {
      var entries := d.sessions[id].session.entries;
      forall i | 0 <= i < |entries|
        ensures EntryIsTrue(entries[i], d'.scans, d.recoveries)
      {
        assert EntryIsTrue(entries[i], d.scans, d.recoveries);
        SameTokens(d.scans, d'.scans, entries[i].token, entries[i].page);
      }
    }
  }

  lemma SamePreferred(d: Disk, page: Id, scan: Id)
    requires PreferredAgree(d.pages, d.scans) && page in d.pages && scan in d.scans && d.scans[scan].page == page
    ensures PreferredAgree(WithPreferred(d, page, scan).pages, WithPreferred(d, page, scan).scans)
  {
    var d' := WithPreferred(d, page, scan);
    forall p | p in d'.pages
      ensures PreferredIsOwn(p, d'.pages[p], d'.scans)
    {
      assert PreferredIsOwn(p, d.pages[p], d.scans);
    }
    forall s | s in d'.scans
      ensures RowKnowsPage(s, d'.scans[s], d'.pages)
    {
      assert RowKnowsPage(s, d.scans[s], d.pages);
    }
  }

  lemma SameFlow(f: Flow, d: Disk, page: Id, scan: Id)
    requires FlowSafe(f, d) && PreferredAgree(d.pages, d.scans)
    requires page in d.pages && scan in d.scans && d.scans[scan].page == page
    ensures FlowSafe(f, WithPreferred(d, page, scan))
  {
    var d' := WithPreferred(d, page, scan);
    assert SameRows(d.scans, d'.scans);
    if f.Running? {
      if f.reg.token.Some? {
        SameTokens(d.scans, d'.scans, f.reg.token.value, page);
      }
      assert RowKnowsPage(scan, d.scans[scan], d.pages);
    }
  }

  lemma ChangePreferredStep(s: System, a: Action)
    requires Safe(s) && a.ChangePreferred? && EnabledRegistration(s, a)
    ensures Safe(ApplyRegistration(s, a))
  {
    var d, d' := s.disk, ApplyRegistration(s, a).disk;
    assert SameRows(d.scans, d'.scans);
    SameScansKeepTables(d, a.page, a.scan);
    SamePreferred(d, a.page, a.scan);
    SameSessions(d, d');
    SameFlow(s.flow, d, a.page, a.scan);
    CapturesStayKept(s, ApplyRegistration(s, a));
  }

  lemma RegistrationStep(s: System, a: Action)
    requires Safe(s) && EnabledRegistration(s, a)
    ensures Safe(ApplyRegistration(s, a))
  {
    match a
    case StartRegistration(reg, now) => StartStep(s, a);
    case CreateJournal(scanId) => CreateJournalStep(s, a);
    case StartJournal => StartJournalStep(s);
    case Announce => AnnounceStep(s);
    case CommitAsset(asset) => CommitAssetStep(s, a);
    case RecordAsset => RecordAssetStep(s);
    case CommitRows => CommitRowsStep(s);
    case MarkCommitted(now) => MarkCommittedStep(s, a);
    case LeaveUncommitted => LeaveUncommittedStep(s);
    case SealJournal => SealJournalStep(s);
    case CloseJournal => CloseJournalStep(s);
    case LeaveJournal => LeaveJournalStep(s);
    case RemoveStaging => FinishSteps(s, a);
    case LeaveStaging => FinishSteps(s, a);
    case ChangePreferred(page, scan) => ChangePreferredStep(s, a);
  }

  // ---- batch actions -------------------------------------------------------------------------

  lemma EntriesStayTrue(d: Disk, session: Session, after: Session)
    requires BatchSafe(d) && session.id in d.sessions && d.sessions[session.id] == SessionStored(session)
    requires ValidToken(session.id)
    requires after.id == session.id && after.startedAt > 0 && SessionOk(after)
    requires forall i :: 0 <= i < |after.entries| ==> EntryIsTrue(after.entries[i], d.scans, d.recoveries)
    ensures BatchSafe(WithSession(d, after))
  {
    PutSession(d, after);
  }

  lemma StoredIsTrue(d: Disk, id: string)
    requires BatchSafe(d) && ReadSession(d, id).Some?
    ensures id in d.sessions && d.sessions[id] == SessionStored(ReadSession(d, id).value)
    ensures SessionIsTrue(id, ReadSession(d, id).value, d.scans, d.recoveries)
  {}

  lemma QueueStep(s: System, a: Action)
    requires Safe(s) && a.QueueCapture? && EnabledBatch(s, a)
    ensures Safe(ApplyBatch(s, a))
  {
    var d := s.disk;
    var session, r := ReadSession(d, a.id).value, ReadRecord(d, a.token).value;
    StoredIsTrue(d, a.id);
    CaptureKeepsSession(session, r);
    assert PhaseIsTrue(d.recoveries[a.token], a.token, d.scans);
    NoRowIsOnPage(d.scans, a.token, r.page);
    EntriesStayTrue(d, session, WithCapture(session, r));
    CapturesStayKept(s, ApplyBatch(s, a));
  }

  lemma EntryEditSteps(s: System, a: Action)
    requires Safe(s) && EnabledBatch(s, a) && (a.RecordSaved? || a.ReportReview?)
    ensures Safe(ApplyBatch(s, a))
  {
    var d := s.disk;
    var session := ReadSession(d, a.id).value;
    StoredIsTrue(d, a.id);
    var i := FindToken(session.entries, a.token);
    var e := if a.RecordSaved? then SavedEntry(session.entries[i], a.scanId, a.reviewId, a.message)
             else ReviewedEntry(session.entries[i], a.reportId, a.report);
    assert EntryIsTrue(session.entries[i], d.scans, d.recoveries);
    EntryKeepsSession(session, i, e);
    EntriesStayTrue(d, session, WithEntry(session, i, e));
    CapturesStayKept(s, ApplyBatch(s, a));
  }

  lemma ReconcileSessionStep(s: System, a: Action)
    requires Safe(s) && a.ReconcileSession? && EnabledBatch(s, a)
    ensures Safe(ApplyBatch(s, a))
  {
    var d := s.disk;
    var session := ReadSession(d, a.id).value;
    StoredIsTrue(d, a.id);
    ReconcileKeepsSession(session, Records(d));
    var after := ReconciledSession(session, Records(d));
    forall i | 0 <= i < |after.entries|
      ensures EntryIsTrue(after.entries[i], d.scans, d.recoveries)
    {
      var e := session.entries[i];
      assert EntryIsTrue(e, d.scans, d.recoveries);
      if e.token in d.recoveries {
        assert PhaseIsTrue(d.recoveries[e.token], e.token, d.scans);
      }
    }
    EntriesStayTrue(d, session, after);
    CapturesStayKept(s, ApplyBatch(s, a));
  }

  lemma SessionFileSteps(s: System, a: Action)
    requires Safe(s) && EnabledBatch(s, a)
    requires a.ReserveSession? || a == FinalizeSession || a.CompleteSession? || a.RemoveSession?
    ensures Safe(ApplyBatch(s, a))
  {
    match a {
      case ReserveSession(session) =>
      case FinalizeSession => PutSession(s.disk, s.flow.session);
      case CompleteSession(id, now) =>
        var session := ReadSession(s.disk, id).value;
        StoredIsTrue(s.disk, id);
        EntriesStayTrue(s.disk, session, session.(completedAt := Some(now)));
      case RemoveSession(id) =>
    }
    CapturesStayKept(s, ApplyBatch(s, a));
  }

  lemma AcknowledgeSavedStep(s: System, a: Action)
    requires Safe(s) && a.AcknowledgeSaved? && EnabledBatch(s, a)
    ensures Safe(ApplyBatch(s, a))
  {
    DropRecord(s.disk, a.token);
    SessionsOutliveRecord(s.disk, WithoutRecord(s.disk, a.token).recoveries);
    CapturesStayKept(s, ApplyBatch(s, a));
  }

  lemma BatchStep(s: System, a: Action)
    requires Safe(s) && EnabledBatch(s, a)
    ensures Safe(ApplyBatch(s, a))
  {
    match a
    case ReserveSession(session) => SessionFileSteps(s, a);
    case FinalizeSession => SessionFileSteps(s, a);
    case QueueCapture(id, token) => QueueStep(s, a);
    case RecordSaved(id, token, scanId, reviewId, message) => EntryEditSteps(s, a);
    case ReportReview(id, token, reportId, report) => EntryEditSteps(s, a);
    case ReconcileSession(id) => ReconcileSessionStep(s, a);
    case CompleteSession(id, now) => SessionFileSteps(s, a);
    case AcknowledgeSaved(id, token, scanId) => AcknowledgeSavedStep(s, a);
    case RemoveSession(id) => SessionFileSteps(s, a);
  }

  // ---- every action, every run ---------------------------------------------------------------

  /** No durable write, no failed write and no crash breaks a promise. */
  lemma ActionKeepsSafe(s: System, a: Action)
    requires Safe(s) && Enabled(s, a)
    ensures Safe(Apply(s, a))
  {
    if EnabledRecovery(s, a) {
      RecoveryStep(s, a);
    } else if EnabledRegistration(s, a) {
      RegistrationStep(s, a);
    } else {
      BatchStep(s, a);
    }
  }

  lemma {:induction false} RunIsSafe(run: seq<System>, n: nat)
    requires IsRun(run) && n < |run|
    ensures Safe(run[n])
  {
    if n == 0 {
      InitiallySafe(run[0]);
    } else {
      RunIsSafe(run, n - 1);
      assert StepAt(run, n - 1);
      StepKeepsSafe(run[n - 1], run[n]);
    }
  }

  lemma StepKeepsSafe(s: System, s': System)
    requires Safe(s) && Step(s, s')
    ensures Safe(s')
  {
    var a :| Enabled(s, a) && s' == Apply(s, a);
    ActionKeepsSafe(s, a);
  }
}
