/**
 * When a stored recovery record can still be read. A record that is not committed is believed only
 * while its staging file is there, so a file removed too early strands the record: it can be neither
 * reconciled nor discarded, and it blocks every listing. These lemmas say which steps strand a record, what
 * a caller has to avoid so that none does, and what a stranded record blocks. RegistrationOrphans has the
 * records that are never complete.
 */
module RegistrationReadable {
  import opened Prelude
  import opened IdCodec
  import opened ScanRecords
  import opened BatchSession
  import opened Registration
  import opened RegistrationSafety
  import opened RegistrationSteps

  ghost predicate Unclaimed(recoveries: Recoveries, path: Path) {
    forall t :: !Claims(recoveries, t, path)
  }

  /** Nobody begins on, or registers without its token, a file another record still needs; and the
      write that marks a record committed does not fail without a crash. */
  ghost predicate Careful(s: System, a: Action) {
    match a
    case ReserveRecord(r) => Unclaimed(s.disk.recoveries, r.stagingPath)
    case StartRegistration(reg, now) => reg.token.None? ==> Unclaimed(s.disk.recoveries, reg.path)
    case LeaveUncommitted => s.flow.Running? && s.flow.reg.token.None?
    case _ => true
  }

  ghost predicate CarefulStep(s: System, s': System) {
    exists a :: Enabled(s, a) && Careful(s, a) && s' == Apply(s, a)
  }

  ghost predicate CarefulAt(run: seq<System>, i: nat)
    requires i + 1 < |run|
  {
    CarefulStep(run[i], run[i + 1])
  }

  ghost predicate CarefulRun(run: seq<System>) {
    && IsRun(run)
    && forall i :: 0 <= i < |run| - 1 ==> CarefulAt(run, i)
  }

  // ---- careful runs keep every record readable -------------------------------------------------

  ghost predicate NoEmptyFiles(staging: Staging) {
    forall p :: p in staging ==> staging[p] != []
  }

  ghost predicate OneClaim(recoveries: Recoveries) {
    forall t, u, path :: Claims(recoveries, t, path) && Claims(recoveries, u, path) ==> t == u
  }

  ghost predicate DiscardStarted(dropped: set<(Token, Path, Bytes)>, t: Token, path: Path) {
    exists content :: (t, path, content) in dropped
  }

  ghost predicate PlatformDeleted(released: set<(Path, Bytes)>, path: Path) {
    exists content :: (path, content) in released
  }

  /** Where the file of a record is: staged, gone in a discard of the record, or deleted by the platform. */
  ghost predicate Accounted(s: System, t: Token, path: Path) {
    path in s.disk.staging || DiscardStarted(s.dropped, t, path) || PlatformDeleted(s.released, path)
  }

  ghost predicate ClaimsMet(s: System) {
    forall t, path :: Claims(s.disk.recoveries, t, path) ==> Accounted(s, t, path)
  }

  ghost predicate FlowClaims(flow: Flow, recoveries: Recoveries, staging: Staging) {
    match flow
    case Beginning(r) => r.stagingPath in staging && Unclaimed(recoveries, r.stagingPath)
    case Running(reg, stage, scanId, assets) =>
      forall t :: Claims(recoveries, t, reg.path) ==>
        reg.token == Some(t) && (BeforeRows(stage) || stage == RowsIn)
    case _ => true
  }

  ghost predicate Met(s: System) {
    && NoEmptyFiles(s.disk.staging)
    && OneClaim(s.disk.recoveries)
    && ClaimsMet(s)
    && FlowClaims(s.flow, s.disk.recoveries, s.disk.staging)
  }

  lemma StillAccounted(s: System, s': System, t: Token, path: Path)
    requires Accounted(s, t, path) && s.dropped <= s'.dropped && s.released <= s'.released
    requires path in s.disk.staging ==> Accounted(s', t, path)
    ensures Accounted(s', t, path)
  {
    if DiscardStarted(s.dropped, t, path) {
      var content :| (t, path, content) in s.dropped;
      assert (t, path, content) in s'.dropped;
    } else if PlatformDeleted(s.released, path) {
      var content :| (path, content) in s.released;
      assert (path, content) in s'.released;
    }
  }

  /** Claims only shrink, files only grow. */
  lemma FewerClaims(s: System, s': System)
    requires Met(s) && NoEmptyFiles(s'.disk.staging) && s.dropped <= s'.dropped && s.released <= s'.released
    requires forall p :: p in s.disk.staging ==> p in s'.disk.staging
    requires forall t, path :: Claims(s'.disk.recoveries, t, path) ==> Claims(s.disk.recoveries, t, path)
    requires FlowClaims(s'.flow, s'.disk.recoveries, s'.disk.staging)
    ensures Met(s')
  {
    forall t, path | Claims(s'.disk.recoveries, t, path)
      ensures Accounted(s', t, path)
    {
      assert Claims(s.disk.recoveries, t, path);
      StillAccounted(s, s', t, path);
    }
  }

  lemma ReplacedClaims(d: Disk, was: Record, r: Record)
    requires RecordsFiled(d.recoveries)
    requires r.token in d.recoveries && d.recoveries[r.token] == Stored(was)
    requires r.stagingPath == was.stagingPath && (was.phase == Committed ==> r.phase == Committed)
    ensures forall t, path :: Claims(WithRecord(d, r).recoveries, t, path) ==> Claims(d.recoveries, t, path)
  {}

  lemma BeginClaims(s: System, a: Action)
    requires Safe(s) && Met(s) && EnabledRecovery(s, a) && Careful(s, a)
    requires a.ReserveRecord? || a == FinalizeRecord || a == ReleaseReservation
    ensures Met(ApplyRecovery(s, a))
  {
    var s' := ApplyRecovery(s, a);
    if a != FinalizeRecord {
      FewerClaims(s, s');
    } else {
      forall t, path | Claims(s'.disk.recoveries, t, path)
        ensures Accounted(s', t, path)
      {
        if t != s.flow.record.token {
          assert Claims(s.disk.recoveries, t, path);
          StillAccounted(s, s', t, path);
        }
      }
      forall t, u, path | Claims(s'.disk.recoveries, t, path) && Claims(s'.disk.recoveries, u, path)
        ensures t == u
      {
        assert t == s.flow.record.token || Claims(s.disk.recoveries, t, path);
        assert u == s.flow.record.token || Claims(s.disk.recoveries, u, path);
      }
    }
  }

  lemma PhaseClaims(s: System, a: Action)
    requires Safe(s) && Met(s) && EnabledRecovery(s, a)
    requires a.MarkPreviewReady? || a.Reconcile?
    ensures Met(ApplyRecovery(s, a))
  {
    var r := ReadRecord(s.disk, a.token).value;
    var r' := if a.MarkPreviewReady? then Advanced(r, PreviewReady, None, a.now)
              else Reconciled(s.disk, r, a.now);
    ReplacedClaims(s.disk, r, r');
    FewerClaims(s, ApplyRecovery(s, a));
  }

  lemma DiscardClaims(s: System, token: Token)
    requires Safe(s) && Met(s) && EnabledRecovery(s, DiscardStaging(token))
    ensures Met(ApplyRecovery(s, DiscardStaging(token)))
  {
    var s' := ApplyRecovery(s, DiscardStaging(token));
    var gone := ReadRecord(s.disk, token).value.stagingPath;
    assert Claims(s.disk.recoveries, token, gone);
    forall t, path | Claims(s'.disk.recoveries, t, path)
      ensures Accounted(s', t, path)
    {
      if path == gone {
        assert (token, gone, s.disk.staging[gone]) in s'.dropped;
      }
      StillAccounted(s, s', t, path);
    }
  }

  lemma DeleteClaims(s: System, path: Path)
    requires Met(s) && EnabledRecovery(s, DeleteStaged(path))
    ensures Met(ApplyRecovery(s, DeleteStaged(path)))
  {
    var s' := ApplyRecovery(s, DeleteStaged(path));
    forall t, p | Claims(s'.disk.recoveries, t, p)
      ensures Accounted(s', t, p)
    {
      if p == path {
        assert (path, s.disk.staging[path]) in s'.released;
      }
      StillAccounted(s, s', t, p);
    }
  }

  lemma RecoveryClaims(s: System, a: Action)
    requires Safe(s) && Met(s) && EnabledRecovery(s, a) && Careful(s, a)
    ensures Met(ApplyRecovery(s, a))
  {
    if a.ReserveRecord? || a.FinalizeRecord? || a.ReleaseReservation? {
      BeginClaims(s, a);
    } else if a.MarkPreviewReady? || a.Reconcile? {
      PhaseClaims(s, a);
    } else if a.DiscardStaging? {
      DiscardClaims(s, a.token);
    } else if a.DeleteStaged? {
      DeleteClaims(s, a.path);
    } else {
      FewerClaims(s, ApplyRecovery(s, a));
    }
  }

  lemma StartClaims(s: System, a: Action)
    requires Safe(s) && Met(s) && a.StartRegistration? && EnabledRegistration(s, a) && Careful(s, a)
    ensures Met(ApplyRegistration(s, a))
  {
    if a.reg.token.Some? {
      var r := ReadRecord(s.disk, a.reg.token.value).value;
      ReplacedClaims(s.disk, r, Advanced(r, Phase.Registering, None, a.now));
      assert Claims(s.disk.recoveries, r.token, a.reg.path);
    }
    FewerClaims(s, ApplyRegistration(s, a));
  }

  lemma MarkClaims(s: System, a: Action)
    requires Safe(s) && Met(s) && a.MarkCommitted? && EnabledRegistration(s, a)
    ensures Met(ApplyRegistration(s, a))
  {
    var t := s.flow.reg.token.value;
    var r := ReadRecord(s.disk, t).value;
    ReplacedClaims(s.disk, r, Advanced(r, Committed, Some(s.flow.scanId), a.now));
    assert !Claims(ApplyRegistration(s, a).disk.recoveries, t, s.flow.reg.path);
    FewerClaims(s, ApplyRegistration(s, a));
  }

  lemma RemoveClaims(s: System)
    requires Met(s) && EnabledRegistration(s, RemoveStaging)
    ensures Met(ApplyRegistration(s, RemoveStaging))
  {
    var s' := ApplyRegistration(s, RemoveStaging);
    forall t, path | Claims(s'.disk.recoveries, t, path)
      ensures Accounted(s', t, path)
    {
      assert Claims(s.disk.recoveries, t, path);
      assert path != s.flow.reg.path;
      StillAccounted(s, s', t, path);
    }
  }

  /** The steps of a registration that leave the recovery records and the staging directory alone. */
  lemma QuietClaims(s: System, s': System)
    requires Met(s) && s.flow.Running?
    requires s'.disk.recoveries == s.disk.recoveries && s'.disk.staging == s.disk.staging
    requires s'.dropped == s.dropped && s'.released == s.released
    requires s'.flow == Idle || (s'.flow.Running? && s'.flow.reg == s.flow.reg)
    requires s'.flow.Running? && !BeforeRows(s'.flow.stage) && s'.flow.stage != RowsIn ==>
               (!BeforeRows(s.flow.stage) && s.flow.stage != RowsIn) || s.flow.reg.token.None?
    ensures Met(s')
  {
    forall t, path | Claims(s'.disk.recoveries, t, path)
      ensures Accounted(s', t, path)
    {
      StillAccounted(s, s', t, path);
    }
  }

  lemma RegistrationClaims(s: System, a: Action)
    requires Safe(s) && Met(s) && EnabledRegistration(s, a) && Careful(s, a)
    ensures Met(ApplyRegistration(s, a))
  {
    if a.StartRegistration? {
      StartClaims(s, a);
    } else if a.MarkCommitted? {
      MarkClaims(s, a);
    } else if a == RemoveStaging {
      RemoveClaims(s);
    } else if a.ChangePreferred? {
      FewerClaims(s, ApplyRegistration(s, a));
    } else {
      OtherStepsAreQuiet(s, a);
      QuietClaims(s, ApplyRegistration(s, a));
    }
  }

  lemma OtherStepsAreQuiet(s: System, a: Action)
    requires EnabledRegistration(s, a) && Careful(s, a)
    requires !a.StartRegistration? && !a.MarkCommitted? && a != RemoveStaging && !a.ChangePreferred?
    ensures s.flow.Running?
    ensures var f := ApplyRegistration(s, a).flow;
            f == Idle || (f.Running? && f.reg == s.flow.reg
              && (!BeforeRows(f.stage) && f.stage != RowsIn ==>
                    (!BeforeRows(s.flow.stage) && s.flow.stage != RowsIn) || s.flow.reg.token.None?))
  {}

  lemma BatchClaims(s: System, a: Action)
    requires Met(s) && EnabledBatch(s, a)
    ensures Met(ApplyBatch(s, a))
  {
    FewerClaims(s, ApplyBatch(s, a));
  }

  lemma {:induction false} CarefulRunIsMet(run: seq<System>, n: nat)
    requires CarefulRun(run) && n < |run|
    ensures Met(run[n])
  {
    if n > 0 {
      CarefulRunIsMet(run, n - 1);
      RunIsSafe(run, n - 1);
      assert CarefulAt(run, n - 1);
      CarefulStepKeepsMet(run[n - 1], run[n]);
    }
  }

  lemma CarefulStepKeepsMet(s: System, s': System)
    requires Safe(s) && Met(s) && CarefulStep(s, s')
    ensures Met(s')
  {
    var a :| Enabled(s, a) && Careful(s, a) && s' == Apply(s, a);
    CarefulAction(s, a);
  }

  lemma CarefulAction(s: System, a: Action)
    requires Safe(s) && Met(s) && Enabled(s, a) && Careful(s, a)
    ensures Met(Apply(s, a))
  {
    if EnabledRecovery(s, a) {
      RecoveryClaims(s, a);
    } else if EnabledRegistration(s, a) {
      RegistrationClaims(s, a);
    } else {
      BatchClaims(s, a);
    }
  }

  // ---- stranded records ------------------------------------------------------------------------

  ghost predicate FlowSpares(flow: Flow, t: Token) {
    match flow
    case Beginning(r) => r.token != t
    case Discarding(u) => u != t
    case Running(reg, stage, scanId, assets) => reg.token != Some(t)
    case _ => true
  }

  /** A record that is not committed, whose file is gone, and that no operation in progress holds. */
  ghost predicate Stranded(s: System, t: Token) {
    && t in s.disk.recoveries && s.disk.recoveries[t].Stored?
    && s.disk.recoveries[t].record.phase != Committed
    && s.disk.recoveries[t].record.stagingPath !in s.disk.staging
    && FlowSpares(s.flow, t)
  }

  /** A stranded record cannot be read, and nothing that lists the records works any more. */
  lemma StrandedBlocks(s: System, t: Token)
    requires Stranded(s, t)
    ensures ReadRecord(s.disk, t).None? && !Listable(s.disk)
    ensures forall now :: !Enabled(s, Reconcile(t, now))
    ensures forall r :: !Enabled(s, ReserveRecord(r))
    ensures forall id :: !Enabled(s, ReconcileSession(id))
    ensures !Enabled(s, DiscardStaging(t))
  {}

  predicate ReadsRecord(a: Action) {
    a.MarkPreviewReady? || a.Reconcile? || a.DiscardStaging? || a.Acknowledge?
  }

  /** An operation on another record leaves a stranded one alone; one on itself cannot read it. */
  lemma StrandedByReading(s: System, a: Action, t: Token)
    requires Stranded(s, t) && RecordsFiled(s.disk.recoveries) && EnabledRecovery(s, a) && ReadsRecord(a)
    ensures Stranded(ApplyRecovery(s, a), t)
    ensures ApplyRecovery(s, a).disk.recoveries[t] == s.disk.recoveries[t]
  {
    assert ReadRecord(s.disk, t).None?;
  }

  lemma StrandedByRecovery(s: System, a: Action, t: Token)
    requires Stranded(s, t) && RecordsFiled(s.disk.recoveries) && EnabledRecovery(s, a)
    requires a.CaptureFile? ==> a.path != s.disk.recoveries[t].record.stagingPath
    ensures Stranded(ApplyRecovery(s, a), t)
    ensures ApplyRecovery(s, a).disk.recoveries[t] == s.disk.recoveries[t]
  {
    if ReadsRecord(a) {
      StrandedByReading(s, a, t);
    }
  }

  lemma StrandedByRegistration(s: System, a: Action, t: Token)
    requires Stranded(s, t) && RecordsFiled(s.disk.recoveries) && EnabledRegistration(s, a)
    ensures Stranded(ApplyRegistration(s, a), t)
    ensures ApplyRegistration(s, a).disk.recoveries[t] == s.disk.recoveries[t]
  {
    if a.StartRegistration? || a.MarkCommitted? {
      assert ReadRecord(s.disk, t).None?;
    } else {
      assert ApplyRegistration(s, a).disk.recoveries == s.disk.recoveries;
    }
  }

  lemma StrandedByBatch(s: System, a: Action, t: Token)
    requires Stranded(s, t) && EnabledBatch(s, a)
    ensures Stranded(ApplyBatch(s, a), t)
    ensures ApplyBatch(s, a).disk.recoveries[t] == s.disk.recoveries[t]
  {}

  /** Nothing the library does frees a stranded record: it stays until a file appears at its path. */
  lemma {:induction false} StrandedStays(run: seq<System>, m: nat, n: nat, t: Token)
    requires IsRun(run) && m <= n < |run| && Stranded(run[m], t)
    requires forall k :: m <= k <= n ==>
               run[m].disk.recoveries[t].record.stagingPath !in run[k].disk.staging
    ensures Stranded(run[n], t) && run[n].disk.recoveries[t] == run[m].disk.recoveries[t]
    decreases n - m
  {
    if m < n {
      StrandedStays(run, m, n - 1, t);
      RunIsSafe(run, n - 1);
      assert StepAt(run, n - 1);
      StrandedStep(run[n - 1], run[n], t);
    }
  }

  lemma StrandedStep(s: System, s': System, t: Token)
    requires Stranded(s, t) && RecordsFiled(s.disk.recoveries) && Step(s, s')
    requires s.disk.recoveries[t].record.stagingPath !in s'.disk.staging
    ensures Stranded(s', t) && s'.disk.recoveries[t] == s.disk.recoveries[t]
  {
    var a :| Enabled(s, a) && s' == Apply(s, a);
    if EnabledRecovery(s, a) {
      StrandedByRecovery(s, a, t);
    } else if EnabledRegistration(s, a) {
      StrandedByRegistration(s, a, t);
    } else {
      StrandedByBatch(s, a, t);
    }
  }

  /** The end of a registration, after its record was marked or not: the journal stays behind, the
      staging file goes. */
  ghost function Finished(s: System): System {
    if s.flow.Running?
    then s.(disk := s.disk.(staging := s.disk.staging - {s.flow.reg.path}), flow := Idle)
    else s
  }

  lemma FinishedByTwoActions(s: System)
    requires s.flow.Running? && s.flow.stage == Settled
    ensures EnabledRegistration(s, LeaveJournal)
    ensures EnabledRegistration(ApplyRegistration(s, LeaveJournal), RemoveStaging)
    ensures ApplyRegistration(ApplyRegistration(s, LeaveJournal), RemoveStaging) == Finished(s)
  {}

  /** The transaction for the token has committed, and its record still says Registering. */
  ghost predicate RowsInFor(s: System, t: Token) {
    && s.flow.Running? && s.flow.stage == RowsIn && s.flow.reg.token == Some(t)
    && Claims(s.disk.recoveries, t, s.flow.reg.path)
    && s.disk.recoveries[t].record.phase == Phase.Registering
  }

  /** A registration that goes on after failing to mark its record strands the record, although its
      row is in the database; one that marks it leaves it readable. */
  lemma FinishedRecordReadable(s: System, mark: Action, t: Token)
    requires Safe(s) && RowsInFor(s, t)
    requires EnabledRegistration(s, mark) && (mark.MarkCommitted? || mark == LeaveUncommitted)
    ensures var after := Finished(ApplyRegistration(s, mark));
            && HasRow(after.disk.scans, t)
            && (ReadRecord(after.disk, t).Some? <==> mark.MarkCommitted?)
            && (Stranded(after, t) <==> mark == LeaveUncommitted)
  {
    assert s.disk.scans[s.flow.scanId].token == Some(t);
    if mark.MarkCommitted? {
      MarkedIsReadable(s, mark, t);
    } else {
      UnmarkedIsStranded(s, t);
    }
  }

  lemma MarkedIsReadable(s: System, mark: Action, t: Token)
    requires s.flow.Running? && s.flow.stage == RowsIn && s.flow.reg.token == Some(t)
    requires mark.MarkCommitted? && EnabledRegistration(s, mark)
    ensures var after := ApplyRegistration(s, mark);
            && after.flow.Running? && after.disk.scans == s.disk.scans
            && ReadRecord(Finished(after).disk, t).Some? && !Stranded(Finished(after), t)
  {}

  lemma UnmarkedIsStranded(s: System, t: Token)
    requires RowsInFor(s, t)
    ensures EnabledRegistration(s, LeaveUncommitted)
    ensures var after := ApplyRegistration(s, LeaveUncommitted);
            && after.flow.Running? && after.disk.scans == s.disk.scans
            && ReadRecord(Finished(after).disk, t).None? && Stranded(Finished(after), t)
  {}

  /** A crash between a discard's two deletions strands the record. */
  lemma InterruptedDiscardStrands(s: System, t: Token)
    requires Safe(s) && EnabledRecovery(s, DiscardStaging(t))
    ensures var s' := ApplyRecovery(s, DiscardStaging(t));
            EnabledRecovery(s', Halt) && Stranded(ApplyRecovery(s', Halt), t)
  {
    var r := ReadRecord(s.disk, t).value;
    assert ApplyRecovery(s, DiscardStaging(t)).disk == s.disk.(staging := s.disk.staging - {r.stagingPath});
  }

  // ---- which steps make a record unreadable ----------------------------------------------------------

  /** The step deletes the staging file at the path. */
  ghost predicate Deletes(s: System, a: Action, path: Path) {
    || (a.DeleteStaged? && a.path == path)
    || (a.DiscardStaging? && ReadRecord(s.disk, a.token).Some? && ReadRecord(s.disk, a.token).value.stagingPath == path)
    || (a == RemoveStaging && s.flow.Running? && s.flow.reg.path == path)
  }

  lemma OnlyDeletionsRemoveFiles(s: System, a: Action, path: Path)
    requires Enabled(s, a) && path in s.disk.staging
    ensures path !in Apply(s, a).disk.staging <==> Deletes(s, a, path)
  {
    if !EnabledRecovery(s, a) && EnabledRegistration(s, a) {
      assert a == RemoveStaging || ApplyRegistration(s, a).disk.staging == s.disk.staging;
    }
  }

  /** A step keeps a readable record's path, and only marks or reconciles it, or leaves it. */
  ghost predicate KeepsFile(file: RecoveryFile, was: Record) {
    && file.Stored? && WellShaped(file.record) && file.record.token == was.token
    && file.record.stagingPath == was.stagingPath
  }

  lemma RecoveryKeepsFile(s: System, a: Action, t: Token)
    requires Safe(s) && EnabledRecovery(s, a) && ReadRecord(s.disk, t).Some?
    requires t in ApplyRecovery(s, a).disk.recoveries
    ensures KeepsFile(ApplyRecovery(s, a).disk.recoveries[t], ReadRecord(s.disk, t).value)
    ensures a.DiscardStaging? || a.DeleteStaged? ==> ApplyRecovery(s, a).disk.recoveries[t] == s.disk.recoveries[t]
  {
    if a.MarkPreviewReady? || a.Reconcile? {
      PhaseKeepsFile(s, a, t);
    } else {
      assert ApplyRecovery(s, a).disk.recoveries[t] == s.disk.recoveries[t];
    }
  }

  lemma PhaseKeepsFile(s: System, a: Action, t: Token)
    requires Safe(s) && EnabledRecovery(s, a) && ReadRecord(s.disk, t).Some?
    requires a.MarkPreviewReady? || a.Reconcile?
    ensures t in ApplyRecovery(s, a).disk.recoveries
    ensures KeepsFile(ApplyRecovery(s, a).disk.recoveries[t], ReadRecord(s.disk, t).value)
  {}

  lemma RegistrationKeepsFile(s: System, a: Action, t: Token)
    requires Safe(s) && EnabledRegistration(s, a) && ReadRecord(s.disk, t).Some?
    ensures t in ApplyRegistration(s, a).disk.recoveries
    ensures KeepsFile(ApplyRegistration(s, a).disk.recoveries[t], ReadRecord(s.disk, t).value)
    ensures a == RemoveStaging ==> ApplyRegistration(s, a).disk.recoveries[t] == s.disk.recoveries[t]
  {
    if !a.StartRegistration? && !a.MarkCommitted? {
      assert ApplyRegistration(s, a).disk.recoveries == s.disk.recoveries;
    }
  }

  lemma StepKeepsFile(s: System, a: Action, t: Token)
    requires Safe(s) && Enabled(s, a) && ReadRecord(s.disk, t).Some?
    requires t in Apply(s, a).disk.recoveries
    ensures KeepsFile(Apply(s, a).disk.recoveries[t], ReadRecord(s.disk, t).value)
    ensures a.DiscardStaging? || a.DeleteStaged? || a == RemoveStaging ==>
              Apply(s, a).disk.recoveries[t] == s.disk.recoveries[t]
  {
    if EnabledRecovery(s, a) {
      RecoveryKeepsFile(s, a, t);
    } else if EnabledRegistration(s, a) {
      RegistrationKeepsFile(s, a, t);
    }
  }

  lemma OtherFilesStay(s: System, a: Action, path: Path)
    requires Enabled(s, a) && Staged(s.disk, path) && !Deletes(s, a, path)
    ensures Staged(Apply(s, a).disk, path)
  {
    OnlyDeletionsRemoveFiles(s, a, path);
    if !EnabledRecovery(s, a) && EnabledRegistration(s, a) {
      assert a == RemoveStaging || ApplyRegistration(s, a).disk.staging == s.disk.staging;
    }
  }

  /** One step makes a readable record that is not committed unreadable, without removing it, exactly when it
      deletes the record's staging file: in a discard, also of another record, at the end of a registration, also
      of one without the token, or by the platform. */
  lemma StepStrandsExactly(s: System, a: Action, t: Token)
    requires Safe(s) && Enabled(s, a)
    requires ReadRecord(s.disk, t).Some? && ReadRecord(s.disk, t).value.phase != Committed
    requires t in Apply(s, a).disk.recoveries
    ensures ReadRecord(Apply(s, a).disk, t).None? <==> Deletes(s, a, ReadRecord(s.disk, t).value.stagingPath)
  {
    var path := ReadRecord(s.disk, t).value.stagingPath;
    StepKeepsFile(s, a, t);
    OnlyDeletionsRemoveFiles(s, a, path);
    if !Deletes(s, a, path) {
      OtherFilesStay(s, a, path);
    }
  }

  // ---- sessions and the clock --------------------------------------------------------------------

  /** A completed session can be read again exactly when the clock did not run backwards past its start. */
  lemma CompletedSessionReadable(s: System, id: string, now: int)
    requires Safe(s) && EnabledBatch(s, CompleteSession(id, now))
    ensures var d := ApplyBatch(s, CompleteSession(id, now)).disk;
            && id in d.sessions && d.sessions[id].SessionStored?
            && (ReadSession(d, id).Some? <==> ReadSession(s.disk, id).value.startedAt <= now)
  {}
}
