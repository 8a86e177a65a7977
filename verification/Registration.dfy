/**
 * Crash-tolerant scan registration as a transition system.
 *
 * `Disk` is everything that survives a crash: the staging directory, the recovery records, the
 * asset journals, the asset store, the database tables and the batch session files. `Flow` is what
 * a crash destroys: how far the one operation in progress has got. An `Action` is one durable write
 * (or one write that failed without a crash); `Halt` is a crash or an early error return, and may
 * happen between any two writes.
 */
module Registration {
  import opened Prelude
  import opened IdCodec
  import opened ScanRecords
  import opened BatchSession

  const MAX_RECORDS := 128
  const CAMERA_RESERVATION := "A2D_CAMERA_CAPTURE_RESERVED_V1\n"
  const BATCH_RESERVATION := "A2D_BATCH_CAMERA_CAPTURE_RESERVED_V1\n"
  const MAX_SESSIONS := 32

  // ---- state ---------------------------------------------------------------------------------

  datatype AssetKind = Original | Corrected | Ocr | Thumbnail

  /** A committed asset file, with the registration that produced it. */
  datatype AssetFile = AssetFile(kind: AssetKind, content: Bytes, producer: Id)

  datatype JournalEntry =
    | Started(scanId: Id, stagingPath: Path)
    | Committing(kind: AssetKind)
    | AssetCommitted(asset: Id, kind: AssetKind)
    | DatabaseCommitted

  /** A recovery record file: its name reserved but still empty, or a complete record. */
  datatype RecoveryFile = Reserved | Stored(record: Record)

  datatype SessionFile = SessionReserved | SessionStored(session: Session)

  datatype ScanRow = ScanRow(
    page: Id,
    token: Option<Token>,
    assets: seq<Id>,
    preferred: bool
  )

  datatype PageState = Unscanned | GeneratedNotScanned | Scanned | NeedsReviewPage | Archived | Trashed

  datatype PageRow = PageRow(state: PageState, preferred: Option<Id>)

  type Staging = map<Path, Bytes>
  type Recoveries = map<Token, RecoveryFile>
  type Journals = map<Id, seq<JournalEntry>>
  type AssetFiles = map<Id, AssetFile>
  type Scans = map<Id, ScanRow>
  type Pages = map<Id, PageRow>
  type Sessions = map<string, SessionFile>

  datatype Disk = Disk(
    staging: Staging,
    recoveries: Recoveries,
    journals: Journals,
    assetFiles: AssetFiles,
    assetRows: set<Id>,
    scans: Scans,
    pages: Pages,
    sessions: Sessions
  )

  /** What one registration carries in memory from its checks to its last write. */
  datatype Registering = Registering(
    token: Option<Token>,
    page: Id,
    notebook: Option<Id>,
    layout: string,
    policy: nat,
    path: Path,
    contents: seq<Bytes>,
    preferred: bool
  )

  datatype Stage =
    | Marked        // the recovery record, if any, says Registering
    | Created       // the journal file exists and is empty
    | Open          // every committed asset is journalled
    | Announced     // the next asset's kind is journalled
    | Filed         // that asset is committed but not yet journalled
    | RowsIn        // the database transaction has committed
    | Settled       // the recovery record has been advanced, or that write failed
    | Sealed        // the journal says the rows are in
    | Closed        // the journal is gone, or its removal failed

  datatype Flow =
    | Idle
    | Beginning(record: Record)
    | Discarding(token: Token)
    | OpeningSession(session: Session)
    | Running(reg: Registering, stage: Stage, scanId: Id, assets: seq<Id>)

  /** `begun`, `dropped` and `released` only remember: photos taken into recovery, files a discard removed, and
      staged files the platform deleted. */
  datatype System = System(
    disk: Disk,
    flow: Flow,
    begun: set<(Token, Path, Bytes)>,
    dropped: set<(Token, Path, Bytes)>,
    released: set<(Path, Bytes)>
  )

  // ---- placeholders --------------------------------------------------------------------------

  function Ascii(text: string): Bytes {
    seq(|text|, i requires 0 <= i < |text| => (text[i] as int % 256) as byte)
  }

  /** What the platform writes at a staging path to take it into recovery, and deletes again so that the camera
      can write the photo there. */
  predicate Placeholder(content: Bytes) {
    content == Ascii(CAMERA_RESERVATION) || content == Ascii(BATCH_RESERVATION)
  }

  // ---- reading the disk ----------------------------------------------------------------------

  function KindAt(k: nat): AssetKind {
    if k == 0 then Original else if k == 1 then Corrected else if k == 2 then Ocr else Thumbnail
  }

  /** The record still needs the file. */
  predicate Claims(recoveries: Recoveries, t: Token, path: Path) {
    && t in recoveries && recoveries[t].Stored?
    && recoveries[t].record.phase != Committed && recoveries[t].record.stagingPath == path
  }

  predicate Staged(d: Disk, path: Path) {
    path in d.staging && d.staging[path] != []
  }

  /** `read_scanner_recovery`: a record is believed only if it is complete, well shaped, filed under
      its own token and, until it is committed, still backed by its staging file. */
  function ReadRecord(d: Disk, token: Token): Option<Record> {
    if !ValidToken(token) || token !in d.recoveries || d.recoveries[token].Reserved? then None
    else
      var r := d.recoveries[token].record;
      if WellShaped(r) && r.token == token && (r.phase == Committed || Staged(d, r.stagingPath))
      then Some(r) else None
  }

  /** `list_scanner_recoveries` succeeds: every record can be read, and there are not too many. */
  predicate Listable(d: Disk) {
    && |d.recoveries| <= MAX_RECORDS
    && forall t :: t in d.recoveries ==> ReadRecord(d, t).Some?
  }

  function Records(d: Disk): map<Token, Record> {
    map t | t in d.recoveries && d.recoveries[t].Stored? :: d.recoveries[t].record
  }

  predicate SessionReadable(s: Session) {
    && ValidToken(s.id)
    && s.startedAt > 0
    && (s.completedAt.Some? ==> s.completedAt.value >= s.startedAt)
    && |s.entries| <= MAX_ENTRIES
    && (forall i :: 0 <= i < |s.entries| ==>
          ValidToken(s.entries[i].token)
          && (s.entries[i].status == Saved <==> s.entries[i].scanId.Some?))
    && forall i, j :: 0 <= i < j < |s.entries| ==> s.entries[i].token != s.entries[j].token
  }

  function ReadSession(d: Disk, id: string): Option<Session> {
    if id !in d.sessions || d.sessions[id].SessionReserved? then None
    else
      var s := d.sessions[id].session;
      if SessionReadable(s) && s.id == id then Some(s) else None
  }

  /** `list_batch_scan_sessions` succeeds. */
  predicate SessionsListable(d: Disk) {
    |d.sessions| <= MAX_SESSIONS && forall id :: id in d.sessions ==> ReadSession(d, id).Some?
  }

  predicate StillOpen(file: SessionFile) {
    file.SessionStored? && file.session.completedAt.None?
  }

  predicate NoActiveSession(d: Disk) {
    forall id :: id in d.sessions ==> !StillOpen(d.sessions[id])
  }

  predicate HasRow(scans: Scans, token: Token) {
    exists s :: s in scans && scans[s].token == Some(token)
  }

  /** The row `find_scan_by_recovery_token` looks for. */
  predicate RowFor(scans: Scans, s: Id, page: Id, token: Token) {
    s in scans && scans[s].token == Some(token) && scans[s].page == page
  }

  predicate EntryNames(sessions: Sessions, token: Token) {
    exists id :: id in sessions && sessions[id].SessionStored?
      && HasToken(sessions[id].session.entries, token)
  }

  /** Nothing else has ever been filed under the token: what a caller's fresh random token gives. */
  predicate TokenFresh(d: Disk, token: Token) {
    !HasRow(d.scans, token) && !EntryNames(d.sessions, token)
  }

  /** No asset, journal or row carries the scan id. */
  predicate ScanIdFresh(d: Disk, scanId: Id) {
    && scanId !in d.journals
    && scanId !in d.scans
    && forall a :: a in d.assetFiles ==> d.assetFiles[a].producer != scanId
  }

  predicate Writable(p: PageRow) {
    p.state != Archived && p.state != Trashed
  }

  // ---- actions -------------------------------------------------------------------------------

  datatype Action =
    // the platform writes a new file, a placeholder or a photo, or deletes one
    | CaptureFile(path: Path, content: Bytes)
    | DeleteStaged(path: Path)
    // a notebook or page set is created
    | CreatePage(page: Id, state: PageState)
    // begin
    | ReserveRecord(record: Record)
    | FinalizeRecord
    | ReleaseReservation
    // phases, discard, acknowledge
    | MarkPreviewReady(token: Token, now: int)
    | Reconcile(token: Token, now: int)
    | DiscardStaging(token: Token)
    | DiscardRecord
    | Acknowledge(token: Token, scanId: Id)
    // one registration, in order
    | StartRegistration(reg: Registering, now: int)
    | CreateJournal(scanId: Id)
    | StartJournal
    | Announce
    | CommitAsset(asset: Id)
    | RecordAsset
    | CommitRows
    | MarkCommitted(now: int)
    | LeaveUncommitted
    | SealJournal
    | CloseJournal
    | LeaveJournal
    | RemoveStaging
    | LeaveStaging
    // another scan of the page is preferred from now on
    | ChangePreferred(page: Id, scan: Id)
    // batch sessions
    | ReserveSession(session: Session)
    | FinalizeSession
    | QueueCapture(id: string, token: Token)
    | RecordSaved(id: string, token: Token, scanId: Id, reviewId: Option<Id>, message: Option<string>)
    | ReportReview(id: string, token: Token, reportId: Id, report: string)
    | ReconcileSession(id: string)
    | CompleteSession(id: string, now: int)
    | AcknowledgeSaved(id: string, token: Token, scanId: Id)
    | RemoveSession(id: string)
    // a crash, or an error returned before the operation's next write
    | Halt

  /** The record matches the registration request and is ready to be registered. */
  predicate RecordMatches(r: Record, reg: Registering) {
    && r.phase == PreviewReady
    && r.stagingPath == reg.path
    && r.page == reg.page
    && reg.notebook == Some(r.notebook)
    && r.layout == reg.layout
    && r.policy == reg.policy
  }

  predicate InSession(d: Disk, id: string, token: Token) {
    ReadSession(d, id).Some? && HasToken(ReadSession(d, id).value.entries, token)
  }

  function SessionEntry(d: Disk, id: string, token: Token): Entry
    requires InSession(d, id, token)
  {
    var s := ReadSession(d, id).value;
    s.entries[FindToken(s.entries, token)]
  }

  /** The session file names the token; completion works from the session it has just written, so it
      does not matter whether the file could be read again. */
  predicate InStored(d: Disk, id: string, token: Token) {
    id in d.sessions && d.sessions[id].SessionStored? && HasToken(d.sessions[id].session.entries, token)
  }

  function StoredEntry(d: Disk, id: string, token: Token): Entry
    requires InStored(d, id, token)
  {
    var entries := d.sessions[id].session.entries;
    entries[FindToken(entries, token)]
  }

  /** The platform waits for a begin or a registration of the file to return. */
  predicate InUse(flow: Flow, path: Path) {
    (flow.Beginning? && flow.record.stagingPath == path) || (flow.Running? && flow.reg.path == path)
  }

  predicate EnabledRecovery(s: System, a: Action) {
    var d := s.disk;
    match a
    case CaptureFile(path, content) => path !in d.staging && content != []
    case DeleteStaged(path) => path in d.staging && !InUse(s.flow, path)
    case CreatePage(page, state) => page !in d.pages
    case ReserveRecord(r) =>
      && s.flow == Idle && WellShaped(r) && r.phase == Captured
      && Staged(d, r.stagingPath) && r.token !in d.recoveries && TokenFresh(d, r.token)
      && Listable(d) && |d.recoveries| < MAX_RECORDS
    case FinalizeRecord => s.flow.Beginning?
    case ReleaseReservation => s.flow.Beginning?
    case MarkPreviewReady(token, now) =>
      && s.flow == Idle && now > 0
      && ReadRecord(d, token).Some? && ReadRecord(d, token).value.phase == Captured
    case Reconcile(token, now) =>
      && s.flow == Idle && now > 0
      && ReadRecord(d, token).Some? && ReadRecord(d, token).value.phase == Phase.Registering
    case DiscardStaging(token) =>
      && s.flow == Idle && ReadRecord(d, token).Some? && Discardable(ReadRecord(d, token).value)
    case DiscardRecord => s.flow.Discarding?
    case Acknowledge(token, scanId) =>
      && s.flow == Idle && ReadRecord(d, token).Some?
      && ReadRecord(d, token).value.scanId == Some(scanId)
    case Halt => true
    case _ => false
  }

  predicate EnabledRegistration(s: System, a: Action) {
    var d := s.disk;
    match a
    case StartRegistration(reg, now) =>
      && s.flow == Idle && now > 0
      && |reg.contents| == 4 && Staged(d, reg.path) && d.staging[reg.path] == reg.contents[0]
      && !Placeholder(reg.contents[0])
      && reg.page in d.pages && Writable(d.pages[reg.page])
      && reg.preferred == d.pages[reg.page].preferred.None?
      && (reg.token.Some? ==>
            && ReadRecord(d, reg.token.value).Some?
            && RecordMatches(ReadRecord(d, reg.token.value).value, reg))
    case CreateJournal(scanId) =>
      s.flow.Running? && s.flow.stage == Marked && ScanIdFresh(d, scanId)
    case StartJournal => s.flow.Running? && s.flow.stage == Created
    case Announce => s.flow.Running? && s.flow.stage == Open && |s.flow.assets| < 4
    case CommitAsset(asset) =>
      s.flow.Running? && s.flow.stage == Announced && |s.flow.assets| < 4 && asset !in d.assetFiles
    case RecordAsset => s.flow.Running? && s.flow.stage == Filed
    case CommitRows => s.flow.Running? && s.flow.stage == Open && |s.flow.assets| == 4
    case MarkCommitted(now) =>
      && s.flow.Running? && s.flow.stage == RowsIn && now > 0 && s.flow.reg.token.Some?
      && ReadRecord(d, s.flow.reg.token.value).Some?
      && ReadRecord(d, s.flow.reg.token.value).value.phase == Phase.Registering
    case LeaveUncommitted => s.flow.Running? && s.flow.stage == RowsIn
    case SealJournal => s.flow.Running? && s.flow.stage == Settled
    case CloseJournal => s.flow.Running? && s.flow.stage == Sealed
    case LeaveJournal => s.flow.Running? && (s.flow.stage == Settled || s.flow.stage == Sealed)
    case RemoveStaging => s.flow.Running? && s.flow.stage == Closed
    case LeaveStaging => s.flow.Running? && s.flow.stage == Closed
    case ChangePreferred(page, scan) =>
      && page in d.pages && scan in d.scans && d.scans[scan].page == page
      && d.pages[page].preferred != Some(scan)
    case _ => false
  }

  predicate EnabledBatch(s: System, a: Action) {
    var d := s.disk;
    match a
    case ReserveSession(session) =>
      && s.flow == Idle && session.id !in d.sessions && ValidToken(session.id)
      && session.entries == [] && session.completedAt == None && session.startedAt > 0
      && SessionsListable(d) && |d.sessions| < MAX_SESSIONS && NoActiveSession(d)
    case FinalizeSession => s.flow.OpeningSession?
    case QueueCapture(id, token) =>
      && s.flow == Idle && ReadSession(d, id).Some?
      && ReadSession(d, id).value.completedAt.None?
      && |ReadSession(d, id).value.entries| < MAX_ENTRIES
      && !HasToken(ReadSession(d, id).value.entries, token)
      && ReadRecord(d, token).Some? && Discardable(ReadRecord(d, token).value)
      && ReadRecord(d, token).value.notebook == ReadSession(d, id).value.notebook
    case RecordSaved(id, token, scanId, reviewId, message) =>
      && s.flow == Idle && InSession(d, id, token)
      && RowFor(d.scans, scanId, SessionEntry(d, id, token).page, token)
    case ReportReview(id, token, reportId, report) =>
      && s.flow == Idle && InSession(d, id, token) && SessionEntry(d, id, token).status != Saved
    case ReconcileSession(id) =>
      && s.flow == Idle && ReadSession(d, id).Some? && Listable(d)
      && forall t :: t in Records(d) ==> Records(d)[t].phase != Phase.Registering
    case CompleteSession(id, now) =>
      && s.flow == Idle && now > 0 && ReadSession(d, id).Some?
      && !SomeQueued(ReadSession(d, id).value.entries)
      && ReadSession(d, id).value.completedAt.None?
    case AcknowledgeSaved(id, token, scanId) =>
      && s.flow == Idle && InStored(d, id, token)
      && d.sessions[id].session.completedAt.Some?
      && StoredEntry(d, id, token).status == Saved
      && StoredEntry(d, id, token).scanId == Some(scanId)
      && ReadRecord(d, token).Some? && ReadRecord(d, token).value.scanId == Some(scanId)
    case RemoveSession(id) =>
      && s.flow == Idle && ReadSession(d, id).Some? && ReadSession(d, id).value.completedAt.Some?
    case _ => false
  }

  predicate Enabled(s: System, a: Action) {
    EnabledRecovery(s, a) || EnabledRegistration(s, a) || EnabledBatch(s, a)
  }

  // ---- effects -------------------------------------------------------------------------------

  function WithRecord(d: Disk, r: Record): Disk {
    d.(recoveries := d.recoveries[r.token := Stored(r)])
  }

  function WithoutRecord(d: Disk, token: Token): Disk {
    d.(recoveries := d.recoveries - {token})
  }

  function WithSession(d: Disk, session: Session): Disk {
    d.(sessions := d.sessions[session.id := SessionStored(session)])
  }

  function WithJournal(d: Disk, scanId: Id, entries: seq<JournalEntry>): Disk {
    d.(journals := d.journals[scanId := entries])
  }

  function Appended(d: Disk, scanId: Id, e: JournalEntry): Disk {
    WithJournal(d, scanId, (if scanId in d.journals then d.journals[scanId] else []) + [e])
  }

  /** What reconcile writes for a Registering record: Committed with the row it found, or back to
      PreviewReady when the transaction never committed. */
  ghost function Reconciled(d: Disk, r: Record, now: int): Record {
    if exists s :: RowFor(d.scans, s, r.page, r.token) then
      Advanced(r, Committed, Some(FindRow(d.scans, r.page, r.token)), now)
    else Advanced(r, PreviewReady, None, now)
  }

  ghost function FindRow(scans: Scans, page: Id, token: Token): (s: Id)
    requires exists s :: RowFor(scans, s, page, token)
    ensures RowFor(scans, s, page, token)
  {
    var s :| RowFor(scans, s, page, token);
    s
  }

  function ScanRowOf(reg: Registering, assets: seq<Id>): ScanRow {
    ScanRow(reg.page, reg.token, assets, reg.preferred)
  }

  /** The database transaction with the page trigger: asset rows, the scan row, and the owning page. */
  function WithRows(d: Disk, reg: Registering, scanId: Id, assets: seq<Id>): Disk {
    var page := if reg.page in d.pages then d.pages[reg.page] else PageRow(NeedsReviewPage, None);
    d.(
      assetRows := d.assetRows + (set a | a in assets),
      scans := d.scans[scanId := ScanRowOf(reg, assets)],
      pages := d.pages[reg.page := PageRow(NeedsReviewPage,
                                           if reg.preferred then Some(scanId) else page.preferred)]
    )
  }

  /** The page and all its scans agree on the new preferred scan. */
  function WithPreferred(d: Disk, page: Id, scan: Id): Disk
    requires page in d.pages
  {
    d.(scans := map s | s in d.scans ::
                  if d.scans[s].page == page then d.scans[s].(preferred := s == scan) else d.scans[s],
       pages := d.pages[page := d.pages[page].(preferred := Some(scan))])
  }

  /** The photo is followed from the moment a record needs it. */
  function Photographed(recoveries: Recoveries, path: Path, content: Bytes): set<(Token, Path, Bytes)> {
    if Placeholder(content) then {} else set t | t in recoveries && Claims(recoveries, t, path) :: (t, path, content)
  }

  ghost function ApplyRecovery(s: System, a: Action): (s': System)
    requires EnabledRecovery(s, a)
    ensures s'.disk.journals == s.disk.journals && s'.disk.assetFiles == s.disk.assetFiles
    ensures s'.disk.scans == s.disk.scans && s'.disk.assetRows == s.disk.assetRows
    ensures s'.disk.sessions == s.disk.sessions
  {
    var d := s.disk;
    match a
    case CaptureFile(path, content) =>
      s.(disk := d.(staging := d.staging[path := content]),
         begun := s.begun + Photographed(d.recoveries, path, content))
    case DeleteStaged(path) =>
      s.(disk := d.(staging := d.staging - {path}), released := s.released + {(path, d.staging[path])})
    case CreatePage(page, state) => s.(disk := d.(pages := d.pages[page := PageRow(state, None)]))
    case ReserveRecord(r) =>
      s.(disk := d.(recoveries := d.recoveries[r.token := Reserved]), flow := Beginning(r))
    case FinalizeRecord =>
      var r := s.flow.record;
      s.(disk := WithRecord(d, r), flow := Idle,
         begun := if r.stagingPath in d.staging && !Placeholder(d.staging[r.stagingPath])
                  then s.begun + {(r.token, r.stagingPath, d.staging[r.stagingPath])} else s.begun)
    case ReleaseReservation => s.(disk := WithoutRecord(d, s.flow.record.token), flow := Idle)
    case MarkPreviewReady(token, now) =>
      s.(disk := WithRecord(d, Advanced(ReadRecord(d, token).value, PreviewReady, None, now)))
    case Reconcile(token, now) => s.(disk := WithRecord(d, Reconciled(d, ReadRecord(d, token).value, now)))
    case DiscardStaging(token) =>
      var path := ReadRecord(d, token).value.stagingPath;
      s.(disk := d.(staging := d.staging - {path}), flow := Discarding(token),
         dropped := s.dropped + {(token, path, d.staging[path])})
    case DiscardRecord => s.(disk := WithoutRecord(d, s.flow.token), flow := Idle)
    case Acknowledge(token, scanId) => s.(disk := WithoutRecord(d, token))
    case Halt => s.(flow := Idle)
  }

  ghost function ApplyRegistration(s: System, a: Action): (s': System)
    requires EnabledRegistration(s, a)
    ensures s'.begun == s.begun && s'.dropped == s.dropped && s'.released == s.released
    ensures s'.disk.sessions == s.disk.sessions
    ensures !a.StartRegistration? && !a.MarkCommitted? ==> s'.disk.recoveries == s.disk.recoveries
    ensures a != RemoveStaging ==> s'.disk.staging == s.disk.staging
  {
    var d := s.disk;
    match a
    case StartRegistration(reg, now) =>
      var d' := if reg.token.None? then d
                else WithRecord(d, Advanced(ReadRecord(d, reg.token.value).value, Phase.Registering, None, now));
      s.(disk := d', flow := Running(reg, Marked, 0, []))
    case CreateJournal(scanId) =>
      s.(disk := WithJournal(d, scanId, []), flow := s.flow.(stage := Created, scanId := scanId))
    case StartJournal =>
      s.(disk := Appended(d, s.flow.scanId, Started(s.flow.scanId, s.flow.reg.path)),
         flow := s.flow.(stage := Open))
    case Announce =>
      s.(disk := Appended(d, s.flow.scanId, Committing(KindAt(|s.flow.assets|))),
         flow := s.flow.(stage := Announced))
    case CommitAsset(asset) =>
      var k := |s.flow.assets|;
      var content := if k < |s.flow.reg.contents| then s.flow.reg.contents[k] else [];
      s.(disk := d.(assetFiles := d.assetFiles[asset := AssetFile(KindAt(k), content, s.flow.scanId)]),
         flow := s.flow.(stage := Filed, assets := s.flow.assets + [asset]))
    case RecordAsset =>
      var k := |s.flow.assets|;
      s.(disk := if k == 0 then d
                 else Appended(d, s.flow.scanId, AssetCommitted(s.flow.assets[k - 1], KindAt(k - 1))),
         flow := s.flow.(stage := Open))
    case CommitRows =>
      s.(disk := WithRows(d, s.flow.reg, s.flow.scanId, s.flow.assets), flow := s.flow.(stage := RowsIn))
    case MarkCommitted(now) =>
      s.(disk := WithRecord(d, Advanced(ReadRecord(d, s.flow.reg.token.value).value,
                                        Committed, Some(s.flow.scanId), now)),
         flow := s.flow.(stage := Settled))
    case LeaveUncommitted => s.(flow := s.flow.(stage := Settled))
    case SealJournal =>
      s.(disk := Appended(d, s.flow.scanId, DatabaseCommitted), flow := s.flow.(stage := Sealed))
    case CloseJournal =>
      s.(disk := d.(journals := d.journals - {s.flow.scanId}), flow := s.flow.(stage := Closed))
    case LeaveJournal => s.(flow := s.flow.(stage := Closed))
    case RemoveStaging => s.(disk := d.(staging := d.staging - {s.flow.reg.path}), flow := Idle)
    case LeaveStaging => s.(flow := Idle)
    case ChangePreferred(page, scan) => s.(disk := WithPreferred(d, page, scan))
  }

  ghost function ApplyBatch(s: System, a: Action): (s': System)
    requires EnabledBatch(s, a)
    ensures s'.disk == s.disk.(sessions := s'.disk.sessions, recoveries := s'.disk.recoveries)
  {
    var d := s.disk;
    match a
    case ReserveSession(session) =>
      s.(disk := d.(sessions := d.sessions[session.id := SessionReserved]), flow := OpeningSession(session))
    case FinalizeSession => s.(disk := WithSession(d, s.flow.session), flow := Idle)
    case QueueCapture(id, token) =>
      s.(disk := WithSession(d, WithCapture(ReadSession(d, id).value, ReadRecord(d, token).value)))
    case RecordSaved(id, token, scanId, reviewId, message) =>
      var session := ReadSession(d, id).value;
      s.(disk := WithSession(d, WithEntry(session, FindToken(session.entries, token),
           SavedEntry(SessionEntry(d, id, token), scanId, reviewId, message))))
    case ReportReview(id, token, reportId, report) =>
      var session := ReadSession(d, id).value;
      s.(disk := WithSession(d, WithEntry(session, FindToken(session.entries, token),
           ReviewedEntry(SessionEntry(d, id, token), reportId, report))))
    case ReconcileSession(id) =>
      s.(disk := WithSession(d, ReconciledSession(ReadSession(d, id).value, Records(d))))
    case CompleteSession(id, now) =>
      s.(disk := WithSession(d, ReadSession(d, id).value.(completedAt := Some(now))))
    case AcknowledgeSaved(id, token, scanId) => s.(disk := WithoutRecord(d, token))
    case RemoveSession(id) => s.(disk := d.(sessions := d.sessions - {id}))
  }

  ghost function Apply(s: System, a: Action): System
    requires Enabled(s, a)
  {
    if EnabledRecovery(s, a) then ApplyRecovery(s, a)
    else if EnabledRegistration(s, a) then ApplyRegistration(s, a)
    else ApplyBatch(s, a)
  }

  // ---- runs ----------------------------------------------------------------------------------

  ghost predicate RecoveryBy(s: System, a: Action, s': System) {
    EnabledRecovery(s, a) && s' == ApplyRecovery(s, a)
  }

  ghost predicate RegistrationBy(s: System, a: Action, s': System) {
    EnabledRegistration(s, a) && s' == ApplyRegistration(s, a)
  }

  ghost predicate BatchBy(s: System, a: Action, s': System) {
    EnabledBatch(s, a) && s' == ApplyBatch(s, a)
  }

  /** An empty library: pages exist, nothing has been captured or scanned. */
  ghost predicate Initial(s: System) {
    var d := s.disk;
    && s.flow == Idle && s.begun == {} && s.dropped == {} && s.released == {}
    && d.staging == map[] && d.recoveries == map[] && d.journals == map[]
    && d.assetFiles == map[] && d.assetRows == {} && d.scans == map[] && d.sessions == map[]
    && forall p :: p in d.pages ==> d.pages[p].preferred == None
  }

  ghost predicate Step(s: System, s': System) {
    exists a :: Enabled(s, a) && s' == Apply(s, a)
  }

  ghost predicate StepAt(run: seq<System>, i: nat)
    requires i + 1 < |run|
  {
    Step(run[i], run[i + 1])
  }

  ghost predicate IsRun(run: seq<System>) {
    && run != [] && Initial(run[0])
    && forall i :: 0 <= i < |run| - 1 ==> StepAt(run, i)
  }

  ghost predicate AllSteps(run: seq<System>) {
    forall i :: 0 <= i < |run| - 1 ==> StepAt(run, i)
  }

  lemma LongerSteps(run: seq<System>, s: System, s': System)
    requires run != [] && AllSteps(run) && run[|run| - 1] == s && Step(s, s')
    ensures AllSteps(run + [s'])
  {
    var longer := run + [s'];
    forall i | 0 <= i < |longer| - 1
      ensures StepAt(longer, i)
    {
      if i < |run| - 1 {
        MovedStep(run, longer, i);
      } else {
        LastStep(longer, i, s, s');
      }
    }
  }

  lemma MovedStep(run: seq<System>, longer: seq<System>, i: nat)
    requires i + 1 < |run| && i + 1 < |longer| && StepAt(run, i)
    requires longer[i] == run[i] && longer[i + 1] == run[i + 1]
    ensures StepAt(longer, i)
  {}

  lemma LastStep(run: seq<System>, i: nat, s: System, s': System)
    requires i + 1 < |run| && run[i] == s && run[i + 1] == s' && Step(s, s')
    ensures StepAt(run, i)
  {}

  /** A run goes on with any step. */
  lemma LongerRun(run: seq<System>, s: System, s': System)
    requires IsRun(run) && run[|run| - 1] == s && Step(s, s')
    ensures IsRun(run + [s']) && (run + [s'])[|run|] == s'
  {
    LongerSteps(run, s, s');
    assert (run + [s'])[0] == run[0];
  }
}
