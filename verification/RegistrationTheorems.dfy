/** What the registration protocol promises, over every run. */
module RegistrationTheorems {
  import opened Prelude
  import opened IdCodec
  import opened ScanRecords
  import opened BatchSession
  import opened Registration
  import opened RegistrationSafety
  import opened RegistrationSteps

  // ---- exactly once --------------------------------------------------------------------------

  /** However often a capture's registration is interrupted, reconciled and retried, its token ends
      up on at most one scan row. */
  lemma ExactlyOnce(run: seq<System>, n: nat, token: Token, s: Id, s': Id)
    requires IsRun(run) && n < |run|
    requires s in run[n].disk.scans && run[n].disk.scans[s].token == Some(token)
    requires s' in run[n].disk.scans && run[n].disk.scans[s'].token == Some(token)
    ensures s == s'
  {
    RunIsSafe(run, n);
    assert SameToken(run[n].disk.scans, s, s');
  }

  /** A record that may still be discarded or registered has no scan row, and one that says Committed
      names the row. */
  lemma PhaseTellsTheTruth(run: seq<System>, n: nat, token: Token)
    requires IsRun(run) && n < |run|
    requires token in run[n].disk.recoveries && run[n].disk.recoveries[token].Stored?
    ensures var r := run[n].disk.recoveries[token].record;
            && (Discardable(r) ==> !HasRow(run[n].disk.scans, token))
            && (r.phase == Committed ==>
                  r.scanId.Some? && RowFor(run[n].disk.scans, r.scanId.value, r.page, token))
  {
    RunIsSafe(run, n);
    assert PhaseIsTrue(run[n].disk.recoveries[token], token, run[n].disk.scans);
  }

  /** A token with a row can never start another registration. */
  lemma NeverRegisteredAgain(run: seq<System>, n: nat, reg: Registering, now: int)
    requires IsRun(run) && n < |run|
    requires reg.token.Some? && HasRow(run[n].disk.scans, reg.token.value)
    ensures !Enabled(run[n], StartRegistration(reg, now))
  {
    if Enabled(run[n], StartRegistration(reg, now)) {
      PhaseTellsTheTruth(run, n, reg.token.value);
    }
  }

  /** Scan rows and asset files are never taken back, and a row keeps its page, token and assets. */
  lemma {:induction false} RowsStay(run: seq<System>, m: nat, n: nat)
    requires IsRun(run) && m <= n < |run|
    ensures ScansGrow(run[m].disk, run[n].disk)
    decreases n - m
  {
    if m < n {
      RowsStay(run, m, n - 1);
      RunIsSafe(run, n - 1);
      assert StepAt(run, n - 1);
      StepGrowsScans(run[n - 1], run[n]);
    }
  }

  lemma StepGrowsScans(s: System, s': System)
    requires FlowSafe(s.flow, s.disk) && Step(s, s')
    ensures ScansGrow(s.disk, s'.disk)
  {
    var a :| Enabled(s, a) && s' == Apply(s, a);
    ActionGrowsScans(s, a);
  }

  lemma RegistrationGrowsScans(s: System, a: Action)
    requires FlowSafe(s.flow, s.disk) && EnabledRegistration(s, a)
    ensures ScansGrow(s.disk, ApplyRegistration(s, a).disk)
  {
    var d := ApplyRegistration(s, a).disk;
    if a.ChangePreferred? {
      assert d.assetFiles == s.disk.assetFiles;
    } else if a == CommitRows {
      assert d.assetFiles == s.disk.assetFiles && s.flow.scanId !in s.disk.scans;
    } else {
      assert d.scans == s.disk.scans;
    }
  }

  lemma ActionGrowsScans(s: System, a: Action)
    requires FlowSafe(s.flow, s.disk) && Enabled(s, a)
    ensures ScansGrow(s.disk, Apply(s, a).disk)
  {
    if !EnabledRecovery(s, a) && EnabledRegistration(s, a) {
      RegistrationGrowsScans(s, a);
    }
  }

  // ---- reconcile -----------------------------------------------------------------------------

  /** Reconcile believes the database: Committed with the row's id if there is a row, PreviewReady if
      not. The database is not touched, and there is nothing left to reconcile. */
  lemma ReconcileBelievesTheDatabase(run: seq<System>, n: nat, token: Token, now: int)
    requires IsRun(run) && n < |run| && Enabled(run[n], Reconcile(token, now))
    ensures var before, after := run[n].disk, Apply(run[n], Reconcile(token, now)).disk;
            var r := ReadRecord(after, token);
            && r.Some?
            && (HasRow(before.scans, token) ==> r.value.phase == Committed)
            && (!HasRow(before.scans, token) ==> r.value.phase == PreviewReady && r.value.scanId.None?)
            && (forall s :: s in before.scans && before.scans[s].token == Some(token) ==>
                  r.value.scanId == Some(s))
            && after == before.(recoveries := before.recoveries[token := Stored(r.value)])
    ensures forall later :: !Enabled(Apply(run[n], Reconcile(token, now)), Reconcile(token, later))
  {
    RunIsSafe(run, n);
    var d := run[n].disk;
    var r := ReadRecord(d, token).value;
    assert PhaseIsTrue(d.recoveries[token], token, d.scans);
    ReconciledIsTrue(d, r, now);
    if HasRow(d.scans, token) {
      var s :| s in d.scans && d.scans[s].token == Some(token);
      assert RowFor(d.scans, s, r.page, token);
      forall x | x in d.scans && d.scans[x].token == Some(token)
        ensures FindRow(d.scans, r.page, token) == x
      {
        assert SameToken(d.scans, FindRow(d.scans, r.page, token), x);
      }
    }
  }

  // ---- discards ------------------------------------------------------------------------------

  /** A discard can only be started while nothing has been registered for the capture. */
  lemma DiscardedBeforeRegistration(run: seq<System>, n: nat, token: Token)
    requires IsRun(run) && n < |run| && Enabled(run[n], DiscardStaging(token))
    ensures !HasRow(run[n].disk.scans, token)
  {
    PhaseTellsTheTruth(run, n, token);
  }

  // ---- assets and journals -------------------------------------------------------------------

  /** An asset file no scan row lists is explained by the journal of the registration that made it,
      which is still on disk. */
  lemma OrphansHaveJournals(run: seq<System>, n: nat, a: Id)
    requires IsRun(run) && n < |run| && a in run[n].disk.assetFiles
    requires forall s :: s in run[n].disk.scans ==> a !in run[n].disk.scans[s].assets
    ensures var f := run[n].disk.assetFiles[a];
            f.producer in run[n].disk.journals
            && Explains(run[n].disk.journals[f.producer], a, f.kind)
  {
    RunIsSafe(run, n);
    assert OrphanExplained(a, run[n].disk.assetFiles[a], run[n].disk.journals);
  }

  /** A journal leaves the disk only when its scan row, with its four assets, is in the database. */
  lemma JournalsOutliveOrphans(run: seq<System>, n: nat, scanId: Id)
    requires IsRun(run) && n + 1 < |run|
    requires scanId in run[n].disk.journals && scanId !in run[n + 1].disk.journals
    ensures scanId in run[n].disk.scans
    ensures RowBacked(scanId, run[n].disk.scans[scanId], run[n].disk.assetFiles, run[n].disk.assetRows)
  {
    RunIsSafe(run, n);
    assert StepAt(run, n);
    JournalRemoval(run[n], run[n + 1], scanId);
  }

  lemma JournalRemoval(s: System, s': System, scanId: Id)
    requires Safe(s) && Step(s, s')
    requires scanId in s.disk.journals && scanId !in s'.disk.journals
    ensures scanId in s.disk.scans
  {
    var a :| Enabled(s, a) && s' == Apply(s, a);
    if !EnabledRecovery(s, a) && EnabledRegistration(s, a) {
      JournalLeft(s, a, scanId);
    }
  }

  lemma JournalLeft(s: System, a: Action, scanId: Id)
    requires EnabledRegistration(s, a) && FlowOwnsRow(s.flow, s.disk.scans)
    requires scanId in s.disk.journals && scanId !in ApplyRegistration(s, a).disk.journals
    ensures scanId in s.disk.scans
  {}

  // ---- preferred scans -----------------------------------------------------------------------

  /** A page with scans always has exactly one preferred scan, the one the page names, whichever was chosen
      last. */
  lemma OnePreferredScan(run: seq<System>, n: nat, s: Id, s': Id)
    requires IsRun(run) && n < |run|
    requires s in run[n].disk.scans && s' in run[n].disk.scans
    requires run[n].disk.scans[s].page == run[n].disk.scans[s'].page && run[n].disk.scans[s].preferred
    ensures run[n].disk.scans[s'].preferred <==> s == s'
    ensures run[n].disk.scans[s].page in run[n].disk.pages
    ensures run[n].disk.pages[run[n].disk.scans[s].page].preferred == Some(s)
  {
    RunIsSafe(run, n);
    assert RowKnowsPage(s, run[n].disk.scans[s], run[n].disk.pages);
    assert RowKnowsPage(s', run[n].disk.scans[s'], run[n].disk.pages);
  }

  lemma SomePreferredScan(run: seq<System>, n: nat, s: Id) returns (preferred: Id)
    requires IsRun(run) && n < |run| && s in run[n].disk.scans
    ensures preferred in run[n].disk.scans && run[n].disk.scans[preferred].preferred
    ensures run[n].disk.scans[preferred].page == run[n].disk.scans[s].page
  {
    RunIsSafe(run, n);
    var page := run[n].disk.scans[s].page;
    assert RowKnowsPage(s, run[n].disk.scans[s], run[n].disk.pages);
    assert PreferredIsOwn(page, run[n].disk.pages[page], run[n].disk.scans);
    preferred := run[n].disk.pages[page].preferred.value;
  }

  lemma RowsAlterInRegistration(s: System, a: Action, scan: Id)
    requires Safe(s) && EnabledRegistration(s, a) && scan in s.disk.scans
    ensures scan in ApplyRegistration(s, a).disk.scans
    ensures var row, after := s.disk.scans[scan], ApplyRegistration(s, a).disk.scans[scan];
            after == if a.ChangePreferred? && a.page == row.page then row.(preferred := scan == a.scan) else row
  {
    if a != CommitRows && !a.ChangePreferred? {
      assert ApplyRegistration(s, a).disk.scans == s.disk.scans;
    }
  }

  /** A stored row changes in exactly one way: choosing another preferred scan of its page moves its flag. */
  lemma RowsAlterOnlyByPreference(run: seq<System>, n: nat, a: Action, s: Id)
    requires IsRun(run) && n < |run| && Enabled(run[n], a) && s in run[n].disk.scans
    ensures s in Apply(run[n], a).disk.scans
    ensures var row, after := run[n].disk.scans[s], Apply(run[n], a).disk.scans[s];
            after == if a.ChangePreferred? && a.page == row.page then row.(preferred := s == a.scan) else row
  {
    RunIsSafe(run, n);
    if !EnabledRecovery(run[n], a) && EnabledRegistration(run[n], a) {
      RowsAlterInRegistration(run[n], a, s);
    }
  }

  // ---- batches -------------------------------------------------------------------------------

  /** A Saved entry names the scan row of its own token and page, in every session file ever seen. */
  lemma SavedEntriesNameTheirRow(run: seq<System>, n: nat, id: string, i: nat)
    requires IsRun(run) && n < |run|
    requires id in run[n].disk.sessions && run[n].disk.sessions[id].SessionStored?
    requires i < |run[n].disk.sessions[id].session.entries|
    requires run[n].disk.sessions[id].session.entries[i].status == Saved
    ensures var e := run[n].disk.sessions[id].session.entries[i];
            e.scanId.Some? && RowFor(run[n].disk.scans, e.scanId.value, e.page, e.token)
  {
    RunIsSafe(run, n);
    var session := run[n].disk.sessions[id].session;
    assert SessionIsTrue(id, session, run[n].disk.scans, run[n].disk.recoveries);
    assert EntryIsTrue(session.entries[i], run[n].disk.scans, run[n].disk.recoveries);
  }

  /** The session rules hold of every session file, and its unflagged entries count its pages. */
  lemma SessionsKeepTheirRules(run: seq<System>, n: nat, id: string)
    requires IsRun(run) && n < |run|
    requires id in run[n].disk.sessions && run[n].disk.sessions[id].SessionStored?
    ensures var session := run[n].disk.sessions[id].session;
            && SessionOk(session)
            && UnflaggedCount(session.entries) == |BatchSession.Pages(session.entries)|
  {
    RunIsSafe(run, n);
    assert SessionIsTrue(id, run[n].disk.sessions[id].session, run[n].disk.scans, run[n].disk.recoveries);
    UnflaggedCountsPages(run[n].disk.sessions[id].session.entries);
  }

  /** A queued entry whose capture was registered comes out of batch reconciliation Saved, with exactly
      that row, if and only if its recovery record has not been acknowledged elsewhere; otherwise it is set
      aside for review, although the scan is there. */
  lemma BatchReconcileFindsTheRow(run: seq<System>, n: nat, id: string, i: nat, s: Id)
    requires IsRun(run) && n < |run| && EnabledBatch(run[n], ReconcileSession(id))
    requires i < |ReadSession(run[n].disk, id).value.entries|
    requires var e := ReadSession(run[n].disk, id).value.entries[i];
             e.status == Queued && s in run[n].disk.scans && run[n].disk.scans[s].token == Some(e.token)
    ensures var file := ApplyBatch(run[n], ReconcileSession(id)).disk.sessions[id];
            && file.SessionStored? && i < |file.session.entries|
            && var e := file.session.entries[i];
               && (e.status == Saved && e.scanId == Some(s) <==> e.token in run[n].disk.recoveries)
               && (e.status == NeedsReview <==> e.token !in run[n].disk.recoveries)
               && RowFor(run[n].disk.scans, s, e.page, e.token)
  {
    RunIsSafe(run, n);
    var d := run[n].disk;
    StoredIsTrue(d, id);
    var e := ReadSession(d, id).value.entries[i];
    assert EntryIsTrue(e, d.scans, d.recoveries);
    if e.token in d.recoveries {
      ReconcileFindsTheRow(d, id, i, s);
    }
    ReconciledFile(run[n], id);
  }

  lemma ReconciledFile(s: System, id: string)
    requires EnabledBatch(s, ReconcileSession(id))
    ensures ReadSession(s.disk, id).Some? && Listable(s.disk)
    ensures forall t :: t in Records(s.disk) ==> Records(s.disk)[t].phase != Phase.Registering
    ensures var sessions := ApplyBatch(s, ReconcileSession(id)).disk.sessions;
            && id in sessions
            && sessions[id] == SessionStored(ReconciledSession(ReadSession(s.disk, id).value, Records(s.disk)))
  {}

  lemma ReconcileFindsTheRow(d: Disk, id: string, i: nat, s: Id)
    requires TablesSafe(d) && BatchSafe(d)
    requires ReadSession(d, id).Some? && i < |ReadSession(d, id).value.entries|
    requires Listable(d) && forall t :: t in Records(d) ==> Records(d)[t].phase != Phase.Registering
    requires var e := ReadSession(d, id).value.entries[i];
             && e.status == Queued && e.token in d.recoveries
             && s in d.scans && d.scans[s].token == Some(e.token)
    ensures var entries := ReconciledSession(ReadSession(d, id).value, Records(d)).entries;
            && i < |entries| && entries[i].status == Saved && entries[i].scanId == Some(s)
            && RowFor(d.scans, s, entries[i].page, entries[i].token)
  {
    StoredIsTrue(d, id);
    var e := ReadSession(d, id).value.entries[i];
    assert EntryIsTrue(e, d.scans, d.recoveries);
    assert ReadRecord(d, e.token).Some? && e.token in Records(d);
    QueuedRowIsFound(d, e, s);
  }

  lemma QueuedRowIsFound(d: Disk, e: Entry, s: Id)
    requires RecordsFiled(d.recoveries) && OneRowPerToken(d.scans) && PhasesAreTrue(d.recoveries, d.scans)
    requires EntryIsTrue(e, d.scans, d.recoveries) && e.status == Queued
    requires ReadRecord(d, e.token).Some? && ReadRecord(d, e.token).value.phase != Phase.Registering
    requires s in d.scans && d.scans[s].token == Some(e.token)
    ensures e.token in Records(d) && Records(d)[e.token].phase == Committed
    ensures Records(d)[e.token].scanId == Some(s) && RowFor(d.scans, s, e.page, e.token)
  {
    var r := d.recoveries[e.token].record;
    assert PhaseIsTrue(d.recoveries[e.token], e.token, d.scans);
    assert HasRow(d.scans, e.token);
    assert SameToken(d.scans, r.scanId.value, s);
  }

  /** An edited session still is one a reader accepts, as long as the records name their scans. */
  lemma ReconciledIsReadable(session: Session, records: map<Token, Record>)
    requires SessionReadable(session)
    requires forall t :: t in records ==> WellShaped(records[t])
    ensures SessionReadable(ReconciledSession(session, records))
  {
    var entries := ReconciledSession(session, records).entries;
    forall i | 0 <= i < |entries|
      ensures entries[i].token == session.entries[i].token
      ensures entries[i].status == Saved <==> entries[i].scanId.Some?
    {
      assert entries[i] == ReconciledEntry(session.entries[i], records);
    }
  }

  /** Batch reconciliation leaves nothing to reconcile: it can be run again, and then nothing changes. */
  lemma BatchReconcileIsStable(run: seq<System>, n: nat, id: string)
    requires IsRun(run) && n < |run| && EnabledBatch(run[n], ReconcileSession(id))
    ensures var s' := ApplyBatch(run[n], ReconcileSession(id));
            EnabledBatch(s', ReconcileSession(id)) && ApplyBatch(s', ReconcileSession(id)) == s'
  {
    var s := run[n];
    var s' := ApplyBatch(s, ReconcileSession(id));
    var session := ReadSession(s.disk, id).value;
    var records := Records(s.disk);
    RunIsSafe(run, n);
    ReconciledFile(s, id);
    ReconciledIsReadable(session, records);
    forall t | t in s.disk.recoveries
      ensures ReadRecord(s'.disk, t) == ReadRecord(s.disk, t)
    {}
    assert ReadSession(s'.disk, id) == Some(ReconciledSession(session, records)) && Records(s'.disk) == records;
    var once := ReconciledEntries(session.entries, records);
    assert ReconciledEntries(once, records) == once;
    assert WithSession(s'.disk, ReconciledSession(session, records)) == s'.disk;
  }

  /** Completion deletes a recovery record only once the durable session file says Saved with the very
      row the record names. */
  lemma CompletionDeletesAfterSaved(run: seq<System>, n: nat, a: Action, token: Token)
    requires IsRun(run) && n < |run| && EnabledBatch(run[n], a)
    requires token in run[n].disk.recoveries && token !in ApplyBatch(run[n], a).disk.recoveries
    ensures a.AcknowledgeSaved? && a.token == token
    ensures InStored(run[n].disk, a.id, token) && run[n].disk.sessions[a.id].session.completedAt.Some?
    ensures var e := StoredEntry(run[n].disk, a.id, token);
            && e.status == Saved && e.scanId == Some(a.scanId)
            && RowFor(run[n].disk.scans, a.scanId, e.page, token)
            && ApplyBatch(run[n], a).disk.sessions == run[n].disk.sessions
  {
    RunIsSafe(run, n);
    RecordsLeftByBatch(run[n], a, token);
    var entries := run[n].disk.sessions[a.id].session.entries;
    assert SessionIsTrue(a.id, run[n].disk.sessions[a.id].session, run[n].disk.scans, run[n].disk.recoveries);
    assert EntryIsTrue(entries[FindToken(entries, token)], run[n].disk.scans, run[n].disk.recoveries);
  }

  lemma RecordsLeftByBatch(s: System, a: Action, token: Token)
    requires EnabledBatch(s, a)
    requires token in s.disk.recoveries && token !in ApplyBatch(s, a).disk.recoveries
    ensures a.AcknowledgeSaved? && a.token == token
  {}

  /** While an entry is still queued, its recovery record leaves the disk only by a discard or by an
      acknowledgement made outside its own session. */
  lemma QueuedRecordsOutliveTheBatch(run: seq<System>, n: nat, a: Action, id: string, i: nat)
    requires IsRun(run) && n < |run| && Enabled(run[n], a)
    requires ReadSession(run[n].disk, id).Some? && i < |ReadSession(run[n].disk, id).value.entries|
    requires var e := ReadSession(run[n].disk, id).value.entries[i];
             && e.status == Queued && e.token in run[n].disk.recoveries
             && e.token !in Apply(run[n], a).disk.recoveries
    ensures a == DiscardRecord || a.Acknowledge? || (a.AcknowledgeSaved? && a.id != id)
  {
    RunIsSafe(run, n);
    StoredIsTrue(run[n].disk, id);
    var entries := ReadSession(run[n].disk, id).value.entries;
    if EnabledBatch(run[n], a) {
      RecordsLeftByBatch(run[n], a, entries[i].token);
    } else if EnabledRegistration(run[n], a) {
      RegistrationKeepsRecords(run[n], a, entries[i].token);
    } else {
      assert HasToken(entries, entries[i].token);
      RecordsLeftByRecovery(run[n], a, entries[i].token);
    }
  }

  lemma RegistrationKeepsRecords(s: System, a: Action, token: Token)
    requires EnabledRegistration(s, a) && token in s.disk.recoveries
    ensures token in ApplyRegistration(s, a).disk.recoveries
  {}

  lemma RecordsLeftByRecovery(s: System, a: Action, token: Token)
    requires EnabledRecovery(s, a) && FlowSafe(s.flow, s.disk) && EntryNames(s.disk.sessions, token)
    requires token in s.disk.recoveries && token !in ApplyRecovery(s, a).disk.recoveries
    ensures a == DiscardRecord || a.Acknowledge?
  {}
}
