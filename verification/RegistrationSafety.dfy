/**
 * What every reachable state of the registration system keeps, whatever operation was interrupted
 * and wherever. Each predicate is one promise, over just the tables it is about; the lemmas show
 * that no durable write, no failed write and no crash breaks any of them.
 */
module RegistrationSafety {
  import opened Prelude
  import opened IdCodec
  import opened ScanRecords
  import opened BatchSession
  import opened Registration

  // ---- recovery records and scan rows --------------------------------------------------------

  /** Every complete record file holds a believable record, filed under its own token. */
  ghost predicate RecordsFiled(recoveries: Recoveries) {
    forall t :: t in recoveries && recoveries[t].Stored? ==>
      WellShaped(recoveries[t].record) && recoveries[t].record.token == t
  }

  ghost predicate SameToken(scans: Scans, s: Id, s': Id) {
    && s in scans && s' in scans
    && scans[s].token.Some? && scans[s].token == scans[s'].token
  }

  /** A recovery token never ends up on two scan rows. */
  ghost predicate OneRowPerToken(scans: Scans) {
    forall s, s' :: SameToken(scans, s, s') ==> s == s'
  }

  ghost predicate RowsOnPage(scans: Scans, token: Token, page: Id) {
    forall s :: s in scans && scans[s].token == Some(token) ==> scans[s].page == page
  }

  /** A record's phase tells the truth about the database. */
  ghost predicate PhaseIsTrue(file: RecoveryFile, t: Token, scans: Scans) {
    match file
    case Reserved => !HasRow(scans, t)
    case Stored(r) =>
      match r.phase
      case Captured => !HasRow(scans, t)
      case PreviewReady => !HasRow(scans, t)
      case Registering => RowsOnPage(scans, t, r.page)
      case Committed => r.scanId.Some? && RowFor(scans, r.scanId.value, r.page, t)
  }

  ghost predicate PhasesAreTrue(recoveries: Recoveries, scans: Scans) {
    forall t :: t in recoveries ==> PhaseIsTrue(recoveries[t], t, scans)
  }

  predicate BeforeRows(stage: Stage) {
    stage == Marked || stage == Created || stage == Open || stage == Announced || stage == Filed
  }

  /** How the operation in progress stands with the recovery records. */
  ghost predicate FlowOwnsRecord(flow: Flow, recoveries: Recoveries, scans: Scans, sessions: Sessions) {
    match flow
    case Idle => true
    case Beginning(r) =>
      && r.token in recoveries && recoveries[r.token].Reserved?
      && WellShaped(r) && r.phase == Captured && !EntryNames(sessions, r.token)
    case Discarding(t) => t in recoveries && recoveries[t].Stored? && Discardable(recoveries[t].record)
    case OpeningSession(session) => true
    case Running(reg, stage, scanId, assets) =>
      reg.token.Some? ==> RunningRecord(reg.token.value, reg.page, stage, recoveries, scans)
  }

  ghost predicate RunningRecord(t: Token, page: Id, stage: Stage, recoveries: Recoveries, scans: Scans) {
    && t in recoveries && recoveries[t].Stored?
    && recoveries[t].record.page == page
    && (BeforeRows(stage) ==> recoveries[t].record.phase == Phase.Registering && !HasRow(scans, t))
  }

  // ---- journals and assets -------------------------------------------------------------------

  function Logged(assets: seq<Id>): seq<JournalEntry> {
    if assets == [] then []
    else
      var k := |assets| - 1;
      Logged(assets[..k]) + [Committing(KindAt(k)), AssetCommitted(assets[k], KindAt(k))]
  }

  /** The journal's exact content at each stage. */
  function JournalAt(path: Path, stage: Stage, scanId: Id, assets: seq<Id>): seq<JournalEntry> {
    match stage
    case Marked => []
    case Created => []
    case Open => [Started(scanId, path)] + Logged(assets)
    case Announced => [Started(scanId, path)] + Logged(assets) + [Committing(KindAt(|assets|))]
    case Filed =>
      if assets == [] then []
      else
        var k := |assets| - 1;
        [Started(scanId, path)] + Logged(assets[..k]) + [Committing(KindAt(k))]
    case RowsIn => [Started(scanId, path)] + Logged(assets)
    case Settled => [Started(scanId, path)] + Logged(assets)
    case Sealed => [Started(scanId, path)] + Logged(assets) + [DatabaseCommitted]
    case Closed => []
  }

  predicate StageFits(stage: Stage, count: nat) {
    && (stage == Marked || stage == Created ==> count == 0)
    && (stage == Announced ==> count < 4)
    && (stage == Filed ==> 0 < count)
    && (!BeforeRows(stage) ==> count == 4)
    && count <= 4
  }

  ghost predicate FlowOwnsJournal(flow: Flow, journals: Journals) {
    flow.Running? && flow.stage != Marked && flow.stage != Closed ==>
      && flow.scanId in journals
      && journals[flow.scanId] == JournalAt(flow.reg.path, flow.stage, flow.scanId, flow.assets)
  }

  /** The same row but for its preferred flag. */
  predicate SameScan(row: ScanRow, other: ScanRow) {
    row.page == other.page && row.token == other.token && row.assets == other.assets
  }

  ghost predicate FlowOwnsRow(flow: Flow, scans: Scans) {
    flow.Running? ==>
      && |flow.reg.contents| == 4
      && StageFits(flow.stage, |flow.assets|)
      && (flow.stage != Marked && BeforeRows(flow.stage) ==> flow.scanId !in scans)
      && (!BeforeRows(flow.stage) ==>
            flow.scanId in scans && SameScan(scans[flow.scanId], ScanRowOf(flow.reg, flow.assets)))
  }

  ghost predicate AssetsFiled(reg: Registering, scanId: Id, assets: seq<Id>, files: AssetFiles) {
    && |assets| <= |reg.contents|
    && forall k :: 0 <= k < |assets| ==>
         assets[k] in files && files[assets[k]] == AssetFile(KindAt(k), reg.contents[k], scanId)
  }

  ghost predicate OnlyProduced(scanId: Id, assets: seq<Id>, files: AssetFiles) {
    forall a :: a in files && files[a].producer == scanId ==> a in assets
  }

  ghost predicate FlowOwnsAssets(flow: Flow, files: AssetFiles) {
    flow.Running? && flow.stage != Marked ==>
      && AssetsFiled(flow.reg, flow.scanId, flow.assets, files)
      && OnlyProduced(flow.scanId, flow.assets, files)
  }

  /** The scan row of the registration that made the file lists it. */
  ghost predicate Referenced(a: Id, file: AssetFile, scans: Scans) {
    file.producer in scans && a in scans[file.producer].assets
  }

  /** The journal lists the asset, or ends by announcing an asset of that kind. */
  ghost predicate Explains(journal: seq<JournalEntry>, a: Id, kind: AssetKind) {
    || AssetCommitted(a, kind) in journal
    || (journal != [] && journal[|journal| - 1] == Committing(kind))
  }

  ghost predicate OrphanExplained(a: Id, file: AssetFile, journals: Journals) {
    file.producer in journals && Explains(journals[file.producer], a, file.kind)
  }

  ghost predicate OrphansExplained(files: AssetFiles, journals: Journals, scans: Scans) {
    forall a {:trigger Referenced(a, files[a], scans)} {:trigger OrphanExplained(a, files[a], journals)} ::
      a in files ==> Referenced(a, files[a], scans) || OrphanExplained(a, files[a], journals)
  }

  /** A scan row is backed by its four committed assets, in the store and in the asset table. */
  ghost predicate RowBacked(s: Id, row: ScanRow, files: AssetFiles, assetRows: set<Id>) {
    && |row.assets| == 4
    && forall k :: 0 <= k < 4 ==>
         && row.assets[k] in files && row.assets[k] in assetRows
         && files[row.assets[k]].kind == KindAt(k)
         && files[row.assets[k]].producer == s
  }

  ghost predicate RowsBacked(scans: Scans, files: AssetFiles, assetRows: set<Id>) {
    forall s :: s in scans ==> RowBacked(s, scans[s], files, assetRows)
  }

  // ---- captures ------------------------------------------------------------------------------

  ghost predicate HoldsOriginal(row: ScanRow, content: Bytes, files: AssetFiles) {
    |row.assets| > 0 && row.assets[0] in files && files[row.assets[0]].content == content
  }

  /** A committed scan row holds these bytes as its original. */
  ghost predicate HeldByScan(content: Bytes, scans: Scans, files: AssetFiles) {
    exists s :: s in scans && HoldsOriginal(scans[s], content, files)
  }

  predicate StagedAs(staging: Staging, path: Path, content: Bytes) {
    path in staging && staging[path] == content
  }

  /** A discard was started for this very file. */
  ghost predicate Dropped(dropped: set<(Token, Path, Bytes)>, path: Path, content: Bytes) {
    exists t :: (t, path, content) in dropped
  }

  ghost predicate CaptureKept(path: Path, content: Bytes, s: System) {
    || StagedAs(s.disk.staging, path, content)
    || HeldByScan(content, s.disk.scans, s.disk.assetFiles)
    || Dropped(s.dropped, path, content)
    || (path, content) in s.released
  }

  ghost predicate NoCaptureLost(s: System) {
    forall t, path, content :: (t, path, content) in s.begun ==> CaptureKept(path, content, s)
  }

  ghost predicate FlowOwnsStaging(flow: Flow, staging: Staging) {
    flow.Running? && |flow.reg.contents| > 0 ==> StagedAs(staging, flow.reg.path, flow.reg.contents[0])
  }

  // ---- preferred scans -----------------------------------------------------------------------

  ghost predicate PreferredIsOwn(p: Id, page: PageRow, scans: Scans) {
    page.preferred.Some? ==>
      && page.preferred.value in scans
      && scans[page.preferred.value].page == p && scans[page.preferred.value].preferred
  }

  ghost predicate RowKnowsPage(s: Id, row: ScanRow, pages: Pages) {
    && row.page in pages
    && pages[row.page].preferred.Some?
    && (row.preferred ==> pages[row.page].preferred == Some(s))
  }

  /** A page and its scans agree on the preferred one, and a page with scans has one. */
  ghost predicate PreferredAgree(pages: Pages, scans: Scans) {
    && (forall p :: p in pages ==> PreferredIsOwn(p, pages[p], scans))
    && (forall s :: s in scans ==> RowKnowsPage(s, scans[s], pages))
  }

  ghost predicate FlowOwnsPage(flow: Flow, pages: Pages) {
    flow.Running? && BeforeRows(flow.stage) ==>
      && flow.reg.page in pages
      && flow.reg.preferred == pages[flow.reg.page].preferred.None?
  }

  // ---- batch sessions ------------------------------------------------------------------------

  /** An entry tells the truth: Saved names the row of its own token and page, and no record or row
      under the token belongs to another page. */
  ghost predicate EntryIsTrue(e: Entry, scans: Scans, recoveries: Recoveries) {
    && ValidToken(e.token)
    && (e.scanId.Some? ==> RowFor(scans, e.scanId.value, e.page, e.token))
    && RowsOnPage(scans, e.token, e.page)
    && (e.token in recoveries && recoveries[e.token].Stored? ==>
          recoveries[e.token].record.page == e.page)
  }

  ghost predicate SessionIsTrue(id: string, session: Session, scans: Scans, recoveries: Recoveries) {
    && session.id == id && ValidToken(id) && session.startedAt > 0
    && SessionOk(session)
    && forall i :: 0 <= i < |session.entries| ==> EntryIsTrue(session.entries[i], scans, recoveries)
  }

  ghost predicate SessionsAreTrue(sessions: Sessions, scans: Scans, recoveries: Recoveries) {
    forall id :: id in sessions && sessions[id].SessionStored? ==>
      SessionIsTrue(id, sessions[id].session, scans, recoveries)
  }

  ghost predicate FlowOwnsSession(flow: Flow) {
    flow.OpeningSession? ==>
      && flow.session.entries == [] && flow.session.completedAt == None && flow.session.startedAt > 0
      && ValidToken(flow.session.id)
  }

  // ---- the invariant -------------------------------------------------------------------------

  ghost predicate TablesSafe(d: Disk) {
    && RecordsFiled(d.recoveries)
    && OneRowPerToken(d.scans)
    && PhasesAreTrue(d.recoveries, d.scans)
    && OrphansExplained(d.assetFiles, d.journals, d.scans)
    && RowsBacked(d.scans, d.assetFiles, d.assetRows)
    && PreferredAgree(d.pages, d.scans)
  }

  ghost predicate BatchSafe(d: Disk) {
    SessionsAreTrue(d.sessions, d.scans, d.recoveries)
  }

  ghost predicate FlowSafe(flow: Flow, d: Disk) {
    && FlowOwnsRecord(flow, d.recoveries, d.scans, d.sessions)
    && FlowOwnsJournal(flow, d.journals)
    && FlowOwnsRow(flow, d.scans)
    && FlowOwnsAssets(flow, d.assetFiles)
    && FlowOwnsStaging(flow, d.staging)
    && FlowOwnsPage(flow, d.pages)
    && FlowOwnsSession(flow)
  }

  ghost predicate Safe(s: System) {
    TablesSafe(s.disk) && FlowSafe(s.flow, s.disk) && BatchSafe(s.disk) && NoCaptureLost(s)
  }

  lemma InitiallySafe(s: System)
    requires Initial(s)
    ensures Safe(s)
  {}

  // ---- what one edit of one table keeps ------------------------------------------------------

  lemma PutRecord(d: Disk, r: Record)
    requires TablesSafe(d) && WellShaped(r)
    requires PhaseIsTrue(Stored(r), r.token, d.scans)
    ensures TablesSafe(WithRecord(d, r))
  {}

  /** The sessions do not mind a record that keeps its page, or one no entry names. */
  lemma PutRecordKeepsBatches(d: Disk, r: Record)
    requires BatchSafe(d)
    requires if r.token in d.recoveries && d.recoveries[r.token].Stored?
             then d.recoveries[r.token].record.page == r.page
             else !EntryNames(d.sessions, r.token)
    ensures BatchSafe(WithRecord(d, r))
  {
    var recoveries' := WithRecord(d, r).recoveries;
    forall id | id in d.sessions && d.sessions[id].SessionStored?
      ensures SessionIsTrue(id, d.sessions[id].session, d.scans, recoveries')
    {
      var entries := d.sessions[id].session.entries;
      forall i | 0 <= i < |entries|
        ensures EntryIsTrue(entries[i], d.scans, recoveries')
      {
        assert EntryIsTrue(entries[i], d.scans, d.recoveries);
        if entries[i].token == r.token {
          assert HasToken(entries, r.token);
        }
      }
    }
  }

  lemma DropRecord(d: Disk, t: Token)
    requires TablesSafe(d)
    ensures TablesSafe(WithoutRecord(d, t))
  {}

  lemma ReserveName(d: Disk, t: Token)
    requires TablesSafe(d) && t !in d.recoveries && !HasRow(d.scans, t)
    ensures TablesSafe(d.(recoveries := d.recoveries[t := Reserved]))
  {}

  lemma SessionsOutliveRecord(d: Disk, recoveries': Recoveries)
    requires BatchSafe(d)
    requires forall u :: u in recoveries' && recoveries'[u].Stored? ==>
               u in d.recoveries && d.recoveries[u] == recoveries'[u]
    ensures SessionsAreTrue(d.sessions, d.scans, recoveries')
  {
    forall id | id in d.sessions && d.sessions[id].SessionStored?
      ensures SessionIsTrue(id, d.sessions[id].session, d.scans, recoveries')
    {
      var entries := d.sessions[id].session.entries;
      forall i | 0 <= i < |entries|
        ensures EntryIsTrue(entries[i], d.scans, recoveries')
      {
        assert EntryIsTrue(entries[i], d.scans, d.recoveries);
      }
    }
  }

  lemma PutSession(d: Disk, session: Session)
    requires BatchSafe(d)
    requires SessionIsTrue(session.id, session, d.scans, d.recoveries)
    ensures BatchSafe(WithSession(d, session))
  {}

  /** An edit that keeps every journal, or only appends to it, keeps the orphans explained. */
  lemma AppendKeepsOrphans(d: Disk, scanId: Id, e: JournalEntry)
    requires OrphansExplained(d.assetFiles, d.journals, d.scans)
    requires scanId in d.journals
    requires forall a :: a in d.assetFiles && d.assetFiles[a].producer == scanId ==>
               || Referenced(a, d.assetFiles[a], d.scans)
               || e == AssetCommitted(a, d.assetFiles[a].kind)
               || AssetCommitted(a, d.assetFiles[a].kind) in d.journals[scanId]
    ensures OrphansExplained(d.assetFiles, Appended(d, scanId, e).journals, d.scans)
  {
    var journals' := Appended(d, scanId, e).journals;
    forall a | a in d.assetFiles
      ensures Referenced(a, d.assetFiles[a], d.scans) || OrphanExplained(a, d.assetFiles[a], journals')
    {
      assert Referenced(a, d.assetFiles[a], d.scans) || OrphanExplained(a, d.assetFiles[a], d.journals);
    }
  }
}
