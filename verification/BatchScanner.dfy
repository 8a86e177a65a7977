/**
 * The batch scanner on top of recovery and registration: a durable session file of queued captures,
 * reconciled against the recovery records before every registration and before completion.
 */
module BatchScanner {
  import opened Prelude
  import opened IdCodec
  import opened ScanRecords
  import opened BatchSession
  import opened Registration
  import opened RegistrationSafety
  import opened RegistrationSteps
  import opened RegistrationTheorems
  import opened ScanCore
  import opened SessionList
  import opened Texts

  const MAX_MESSAGE_BYTES := 512

  datatype BatchError =
    | SessionUnreadable
    | SessionExists
    | SessionLimit
    | ActiveSession
    | TokenInvalid
    | NotebookNotFound
    | NotebookArchived
    | NotebookNotActive
    | SessionCompleted
    | SessionStillActive
    | EntryLimit
    | RecordsUnreadable
    | RecoveryNotFound
    | IdentityConflict
    | NotebookChanged
    | PhaseInvalid
    | TokenRequired
    | NotQueued
    | AlreadySaved
    | MessageInvalid
    | PendingCaptures
    | NotCommitted
    | ReviewFailed
    | PersistFailed       // the session file was not written
    | PersistUnsynced     // it was written, but synchronizing its directory failed
    | CoreFailed(cause: CoreError)

  /** The session is stored, and not left out of the list. */
  predicate Listed(d: Disk, s: Session, includeCompleted: bool) {
    s.id in d.sessions && d.sessions[s.id] == SessionStored(s) && (includeCompleted || s.completedAt.None?)
  }

  /** The session files that are not pending have been read. */
  ghost predicate ReadBut(d: Disk, pending: set<string>, sessions: seq<Session>, includeCompleted: bool) {
    && pending <= d.sessions.Keys && DistinctIds(sessions)
    && (forall id :: id in d.sessions && id !in pending ==> ReadSession(d, id).Some?)
    && (forall s :: s in sessions <==> Listed(d, s, includeCompleted) && s.id !in pending)
    && (includeCompleted ==> |sessions| + |pending| == |d.sessions|)
  }

  lemma OneMoreRead(d: Disk, pending: set<string>, id: string, sessions: seq<Session>, includeCompleted: bool)
    requires ReadBut(d, pending, sessions, includeCompleted) && id in pending && ReadSession(d, id).Some?
    ensures var s := ReadSession(d, id).value;
            ReadBut(d, pending - {id}, if includeCompleted || s.completedAt.None? then sessions + [s] else sessions,
                    includeCompleted)
  {
    var s := ReadSession(d, id).value;
    forall x | x in sessions
      ensures x.id != id
    {
      assert x.id !in pending;
    }
    forall x
      ensures Listed(d, x, includeCompleted) && x.id !in pending - {id} <==>
              (Listed(d, x, includeCompleted) && x.id !in pending)
              || (x == s && (includeCompleted || s.completedAt.None?))
    {}
  }

  /** Every session file is read, the completed ones are left out on request, and the rest is sorted; one file
      that cannot be read fails the whole list. */
  method ListBatchScanSessions(core: Core, includeCompleted: bool) returns (result: Option<seq<Session>>)
    ensures result.Some? <==> SessionsListable(core.disk)
    ensures result.Some? ==> InOrder(result.value)
    ensures result.Some? ==> forall i, j :: 0 <= i < j < |result.value| ==>
              || result.value[i].startedAt < result.value[j].startedAt
              || (result.value[i].startedAt == result.value[j].startedAt
                  && TextBefore(result.value[i].id, result.value[j].id))
    ensures result.Some? ==> forall s :: s in result.value <==> Listed(core.disk, s, includeCompleted)
    ensures result.Some? && includeCompleted ==> |result.value| == |core.disk.sessions|
  {
    var pending := core.disk.sessions.Keys;
    if |core.disk.sessions| > MAX_SESSIONS {
      return None;
    }
    var sessions: seq<Session> := [];
    assert |pending| == |core.disk.sessions|;
    while pending != {}
      invariant ReadBut(core.disk, pending, sessions, includeCompleted)
      decreases pending
    {
      var id :| id in pending;
      var session := ReadSession(core.disk, id);
      if session.None? {
        return None;
      }
      OneMoreRead(core.disk, pending, id, sessions, includeCompleted);
      if includeCompleted || session.value.completedAt.None? {
        sessions := sessions + [session.value];
      }
      pending := pending - {id};
    }
    OrderedIsSorted(sessions);
    return Some(Ordered(sessions));
  }

  // ---- writing a session file --------------------------------------------------------------------

  ghost function WithFile(core: Core, session: Session): System
    reads core
  {
    core.Now().(disk := WithSession(core.disk, session))
  }

  /** The session file, or its directory, could not be written. */
  predicate Unpersisted(e: BatchError) {
    e == PersistFailed || e == PersistUnsynced
  }

  /** An existing session file, replaced whole. */
  method PersistSession(core: Core, session: Session, ghost edit: Action) returns (failure: Option<BatchError>)
    requires core.Ready() && BatchBy(core.Now(), edit, WithFile(core, session))
    modifies core
    ensures core.Ready() && old(core.trace) <= core.trace
    ensures failure.None? || (Unpersisted(failure.value) && !core.reliable)
    ensures core.disk == if failure == Some(PersistFailed) then old(core.disk) else WithSession(old(core.disk), session)
  {
    var persisted := core.Attempt();
    if !persisted {
      return Some(PersistFailed);
    }
    ghost var before := core.Now();
    core.disk := WithSession(core.disk, session);
    core.Batched(before, edit);
    var synced := core.Attempt();
    return if synced then None else Some(PersistUnsynced);
  }

  // ---- begin, queue ------------------------------------------------------------------------------

  lemma NoneListedIsNoneOpen(d: Disk, sessions: seq<Session>)
    requires SessionsListable(d) && forall s :: s in sessions <==> Listed(d, s, false)
    requires forall i :: 0 <= i < |sessions| ==> sessions[i].completedAt.Some?
    ensures NoActiveSession(d)
  {
    forall id | id in d.sessions
      ensures !StillOpen(d.sessions[id])
    {
      var s := ReadSession(d, id).value;
      assert s in sessions <==> Listed(d, s, false);
    }
  }

  lemma OneListedIsOpen(d: Disk, sessions: seq<Session>)
    requires forall s :: s in sessions <==> Listed(d, s, false)
    requires exists i :: 0 <= i < |sessions| && sessions[i].completedAt.None?
    ensures !NoActiveSession(d)
  {
    var i :| 0 <= i < |sessions| && sessions[i].completedAt.None?;
    assert sessions[i] in sessions;
    assert StillOpen(d.sessions[sessions[i].id]);
  }

  /** Only the active notebook that is not archived can be scanned in a batch. */
  predicate Scannable(id: string, notebook: Id, archived: map<Id, bool>, active: Option<Id>) {
    ValidToken(id) && notebook in archived && !archived[notebook] && active == Some(notebook)
  }

  /** At most one session is open at a time. A failed begin may leave the empty reservation behind. `archived`
      lists the notebooks there are. */
  method BeginBatchScanSession(core: Core, id: string, notebook: Id, archived: map<Id, bool>, active: Option<Id>,
                               now: int)
    returns (result: Result<Session, BatchError>)
    requires core.Ready() && now > 0
    modifies core
    ensures core.Ready() && old(core.trace) <= core.trace
    ensures core.disk == old(core.disk).(sessions := core.disk.sessions)
    ensures result.Ok? ==>
              && result.value == Session(id, notebook, now, None, [])
              && Scannable(id, notebook, archived, active)
              && id !in old(core.disk).sessions && NoActiveSession(old(core.disk))
              && core.disk == WithSession(old(core.disk), result.value)
    ensures result.Err? && core.disk != old(core.disk) ==>
              && id !in old(core.disk).sessions
              && (result.error == PersistFailed || result.error == PersistUnsynced)
              && LeftBehind(old(core.disk), core.disk, Session(id, notebook, now, None, []), result.error)
    ensures !Scannable(id, notebook, archived, active) ==>
              result == Err(if !ValidToken(id) then TokenInvalid else if notebook !in archived then NotebookNotFound
                            else if archived[notebook] then NotebookArchived else NotebookNotActive)
    ensures Scannable(id, notebook, archived, active) ==>
              if !SessionsListable(old(core.disk)) then result == Err(SessionUnreadable)
              else if !NoActiveSession(old(core.disk)) then result == Err(ActiveSession)
              else if |old(core.disk).sessions| >= MAX_SESSIONS then result == Err(SessionLimit)
              else if id in old(core.disk).sessions then result == Err(SessionExists)
              else result.Ok? || (Unpersisted(result.error) && !core.reliable)
  {
    if !ValidToken(id) {
      return Err(TokenInvalid);
    }
    if notebook !in archived {
      return Err(NotebookNotFound);
    }
    if archived[notebook] {
      return Err(NotebookArchived);
    }
    if active != Some(notebook) {
      return Err(NotebookNotActive);
    }
    var open := ListBatchScanSessions(core, false);
    if open.None? {
      return Err(SessionUnreadable);
    }
    if exists i :: 0 <= i < |open.value| && open.value[i].completedAt.None? {
      OneListedIsOpen(core.disk, open.value);
      return Err(ActiveSession);
    }
    NoneListedIsNoneOpen(core.disk, open.value);
    var all := ListBatchScanSessions(core, true);
    if all.None? {
      return Err(SessionUnreadable);
    }
    if |all.value| >= MAX_SESSIONS {
      return Err(SessionLimit);
    }
    if id in core.disk.sessions {
      return Err(SessionExists);
    }
    result := CreateSession(core, Session(id, notebook, now, None, []));
  }

  /** What a session that was not reported as written leaves: nothing, an empty file, or the whole session, and
      never anything of another one. */
  ghost predicate LeftBehind(before: Disk, after: Disk, session: Session, error: BatchError) {
    if error == PersistUnsynced then after == WithSession(before, session)
    else after == before || after == before.(sessions := before.sessions[session.id := SessionReserved])
  }

  lemma StoredOverReservation(d: Disk, session: Session)
    ensures WithSession(d.(sessions := d.sessions[session.id := SessionReserved]), session) == WithSession(d, session)
  {
    assert d.sessions[session.id := SessionReserved][session.id := SessionStored(session)]
        == d.sessions[session.id := SessionStored(session)];
  }

  method CreateSession(core: Core, session: Session) returns (result: Result<Session, BatchError>)
    requires core.Ready() && session.id !in core.disk.sessions && ValidToken(session.id)
    requires session.entries == [] && session.completedAt == None && session.startedAt > 0
    requires SessionsListable(core.disk) && |core.disk.sessions| < MAX_SESSIONS && NoActiveSession(core.disk)
    modifies core
    ensures core.Ready() && old(core.trace) <= core.trace
    ensures core.disk == old(core.disk).(sessions := core.disk.sessions)
    ensures result.Ok? ==> result.value == session && core.disk == WithSession(old(core.disk), session)
    ensures result.Err? ==> Unpersisted(result.error) && !core.reliable
    ensures result.Err? ==> LeftBehind(old(core.disk), core.disk, session, result.error)
  {
    var prepared := core.Attempt();
    if !prepared {
      return Err(PersistFailed);
    }
    ReserveSessionName(core, session);
    var renamed := core.Attempt();
    if !renamed {
      core.Stop();
      return Err(PersistFailed);
    }
    PublishSession(core, session);
    StoredOverReservation(old(core.disk), session);
    var synced := core.Attempt();
    return if synced then Ok(session) else Err(PersistUnsynced);
  }

  method ReserveSessionName(core: Core, session: Session)
    requires core.Ready() && session.id !in core.disk.sessions && ValidToken(session.id)
    requires session.entries == [] && session.completedAt == None && session.startedAt > 0
    requires SessionsListable(core.disk) && |core.disk.sessions| < MAX_SESSIONS && NoActiveSession(core.disk)
    modifies core
    ensures core.Valid() && old(core.trace) <= core.trace && core.flow == OpeningSession(session)
    ensures core.disk == old(core.disk).(sessions := old(core.disk).sessions[session.id := SessionReserved])
  {
    ghost var before := core.Now();
    core.disk := core.disk.(sessions := core.disk.sessions[session.id := SessionReserved]);
    core.flow := OpeningSession(session);
    core.Batched(before, ReserveSession(session));
  }

  method PublishSession(core: Core, session: Session)
    requires core.Valid() && core.flow == OpeningSession(session)
    modifies core
    ensures core.Ready() && old(core.trace) <= core.trace && core.disk == WithSession(old(core.disk), session)
  {
    ghost var before := core.Now();
    core.disk := WithSession(core.disk, session);
    core.flow := Idle;
    core.Batched(before, FinalizeSession);
  }

  /** The entry is the record's capture, queued, with nothing decided about it yet. */
  predicate Captures(before: seq<Entry>, record: Record, e: Entry) {
    && e.token == record.token && e.page == record.page && e.capturedAt == record.capturedAt
    && e.status == Queued && e.scanId.None? && e.reviewId.None?
    && (e.duplicate <==> exists i :: 0 <= i < |before| && before[i].page == record.page)
    && e.message == if e.duplicate then Some(DUPLICATE_MESSAGE) else None
  }

  /** A token already queued still means the same page of the same notebook, as far as its record tells. */
  predicate IdentityKept(session: Session, token: Token, records: map<Token, Record>) {
    forall i :: 0 <= i < |session.entries| && session.entries[i].token == token && token in records ==>
      records[token].page == session.entries[i].page && records[token].notebook == session.notebook
  }

  /** Queues a capture once. A token already in the session is left as it is. */
  method QueueBatchScanCapture(core: Core, id: string, token: Token) returns (result: Result<Session, BatchError>)
    requires core.Ready()
    modifies core
    ensures core.Ready() && old(core.trace) <= core.trace
    ensures result.Ok? ==>
              && ReadSession(old(core.disk), id).Some?
              && var session := ReadSession(old(core.disk), id).value;
                 session.completedAt.None?
                 && (if HasToken(session.entries, token) then result.value == session && core.disk == old(core.disk)
                     else && ReadRecord(old(core.disk), token).Some?
                          && Discardable(ReadRecord(old(core.disk), token).value)
                          && result.value == WithCapture(session, ReadRecord(old(core.disk), token).value)
                          && core.disk == WithSession(old(core.disk), result.value))
    ensures result.Err? && result.error != PersistUnsynced ==> core.disk == old(core.disk)
    ensures if ReadSession(old(core.disk), id).None? then result == Err(SessionUnreadable)
            else
              var session := ReadSession(old(core.disk), id).value;
              if session.completedAt.Some? then result == Err(SessionCompleted)
              else if HasToken(session.entries, token) then
                if !Listable(old(core.disk)) then result == Err(RecordsUnreadable)
                else if IdentityKept(session, token, Records(old(core.disk))) then result.Ok?
                else result == Err(IdentityConflict)
              else if |session.entries| >= MAX_ENTRIES then result == Err(EntryLimit)
              else if !Listable(old(core.disk)) then result == Err(RecordsUnreadable)
              else if token !in old(core.disk).recoveries then result == Err(RecoveryNotFound)
              else if ReadRecord(old(core.disk), token).value.notebook != session.notebook
              then result == Err(NotebookChanged)
              else if !Discardable(ReadRecord(old(core.disk), token).value) then result == Err(PhaseInvalid)
              else result.Ok? || (Unpersisted(result.error) && !core.reliable)
    ensures result.Ok? && !HasToken(ReadSession(old(core.disk), id).value.entries, token) ==>
              var before, record := ReadSession(old(core.disk), id).value, ReadRecord(old(core.disk), token).value;
              && |result.value.entries| == |before.entries| + 1
              && result.value == before.(entries := before.entries + [result.value.entries[|before.entries|]])
              && Captures(before.entries, record, result.value.entries[|before.entries|])
  {
    var read := ReadSession(core.disk, id);
    if read.None? {
      return Err(SessionUnreadable);
    }
    var session := read.value;
    if session.completedAt.Some? {
      return Err(SessionCompleted);
    }
    if HasToken(session.entries, token) {
      var existing := session.entries[FindToken(session.entries, token)];
      var known := core.ListScannerRecoveries();
      if known.None? {
        return Err(RecordsUnreadable);
      }
      if token in known.value
         && (known.value[token].page != existing.page || known.value[token].notebook != session.notebook)
      {
        return Err(IdentityConflict);
      }
      return Ok(session);
    }
    if |session.entries| >= MAX_ENTRIES {
      return Err(EntryLimit);
    }
    var listed := core.ListScannerRecoveries();
    if listed.None? {
      return Err(RecordsUnreadable);
    }
    if token !in listed.value {
      return Err(RecoveryNotFound);
    }
    var record := listed.value[token];
    if record.notebook != session.notebook {
      return Err(NotebookChanged);
    }
    if !Discardable(record) {
      return Err(PhaseInvalid);
    }
    ListedIsRead(core.disk, token);
    session := session.(entries := session.entries + [QueuedEntry(session.entries, record)]);
    var failure := PersistSession(core, session, QueueCapture(id, token));
    return if failure.None? then Ok(session) else Err(failure.value);
  }

  lemma ListedIsRead(d: Disk, t: Token)
    requires Listable(d) && t in Records(d)
    ensures ReadRecord(d, t) == Some(Records(d)[t])
  {}

  // ---- reconcile ---------------------------------------------------------------------------------

  /** A write of a record failed on the way. */
  predicate WriteLost(e: BatchError) {
    e.CoreFailed? && LostWrite(e.cause)
  }

  /** A record after reconciliation: as it was, unless it said Registering; then Committed with its row, or
      PreviewReady if it has none. */
  ghost predicate RecordIsSettled(before: Disk, after: Disk, t: Token, now: int) {
    && ReadRecord(before, t).Some? && ReadRecord(after, t).Some?
    && var r, settled := ReadRecord(before, t).value, ReadRecord(after, t).value;
       if r.phase != Phase.Registering then settled == r
       else
         && settled == r.(phase := settled.phase, scanId := settled.scanId, updatedAt := now)
         && settled.phase == (if HasRow(before.scans, t) then Committed else PreviewReady)
         && (HasRow(before.scans, t) ==> forall s: Id :: RowOf(before.scans, s, t) ==> settled.scanId == Some(s))
         && (!HasRow(before.scans, t) ==> settled.scanId.None?)
  }

  ghost predicate AllRecordsSettled(before: Disk, after: Disk, now: int) {
    forall t :: t in before.recoveries ==> RecordIsSettled(before, after, t, now)
  }

  /** The records are those there were, and only those that said Registering may have changed. */
  ghost predicate OnlyRegisteringChange(before: Disk, after: Disk) {
    && after == before.(recoveries := after.recoveries) && after.recoveries.Keys == before.recoveries.Keys
    && forall t :: t in before.recoveries && !SaysRegistering(before, t) ==> after.recoveries[t] == before.recoveries[t]
  }

  /** How far the records have got: the pending ones are as they were, the others are settled. */
  ghost predicate SettledSince(start: Disk, d: Disk, pending: set<Token>, now: int) {
    && OnlyRegisteringChange(start, d)
    && (forall t :: t in pending && t in start.recoveries ==> d.recoveries[t] == start.recoveries[t])
    && (forall t :: t in start.recoveries && t !in pending ==> RecordIsSettled(start, d, t, now))
  }

  lemma SettledOneMore(start: Disk, before: Disk, after: Disk, pending: set<Token>, token: Token, r: Record, now: int)
    requires SettledSince(start, before, pending, now) && token in pending && token in start.recoveries
    requires after == before.(recoveries := before.recoveries[token := Stored(r)])
    requires ReadRecord(before, token).Some? && ReadRecord(after, token) == Some(r)
    requires ReadRecord(before, token).value.phase != Phase.Registering ==> after == before
    requires var read := ReadRecord(before, token).value;
             read.phase == Phase.Registering ==>
               && r == Advanced(read, r.phase, r.scanId, now)
               && if HasRow(after.scans, token)
                  then r.phase == Committed
                       && forall s :: s in after.scans && after.scans[s].token == Some(token) ==> r.scanId == Some(s)
                  else r.phase == PreviewReady && r.scanId.None?
    ensures SettledSince(start, after, pending - {token}, now)
  {
    assert ReadRecord(before, token) == ReadRecord(start, token);
    forall t | t in start.recoveries && t !in pending - {token}
      ensures RecordIsSettled(start, after, t, now)
    {
      if t != token {
        assert RecordIsSettled(start, before, t, now) && ReadRecord(after, t) == ReadRecord(before, t);
      }
    }
  }

  lemma PendingIsReadable(start: Disk, d: Disk, pending: set<Token>, token: Token, now: int)
    requires Listable(start) && SettledSince(start, d, pending, now) && token in pending && token in start.recoveries
    ensures ReadRecord(d, token).Some?
  {
    assert ReadRecord(d, token) == ReadRecord(start, token);
  }

  lemma AllSettled(start: Disk, d: Disk, now: int)
    requires Listable(start) && SettledSince(start, d, {}, now)
    ensures NothingRegistering(d)
  {
    assert |start.recoveries.Keys| == |start.recoveries| && |d.recoveries.Keys| == |d.recoveries|;
    forall t | t in d.recoveries
      ensures ReadRecord(d, t).Some? && ReadRecord(d, t).value.phase != Phase.Registering
    {
      assert RecordIsSettled(start, d, t, now);
    }
  }

  ghost predicate NothingRegistering(d: Disk) {
    Listable(d) && forall t :: t in Records(d) ==> Records(d)[t].phase != Phase.Registering
  }

  /** A reconciliation that was not reported as written changed at most the record it was about. */
  lemma LostIsRegistering(start: Disk, before: Disk, after: Disk, pending: set<Token>, token: Token, now: int)
    requires SettledSince(start, before, pending, now) && token in pending && token in start.recoveries
    requires ReadRecord(before, token).Some?
    requires || after == before
             || (SaysRegistering(before, token)
                 && after == WithRecord(before, Reconciled(before, ReadRecord(before, token).value, now)))
    ensures OnlyRegisteringChange(start, after)
  {
    assert ReadRecord(before, token) == ReadRecord(start, token);
    assert after == before.(recoveries := after.recoveries) && after.recoveries.Keys == before.recoveries.Keys;
  }

  method SettleRecord(core: Core, token: Token, ghost start: Disk, ghost pending: set<Token>, now: int)
    returns (failure: Option<BatchError>)
    requires core.Ready() && now > 0 && Listable(start) && token in pending && token in start.recoveries
    requires SettledSince(start, core.disk, pending, now)
    modifies core
    ensures core.Ready() && old(core.trace) <= core.trace && OnlyRegisteringChange(start, core.disk)
    ensures failure.None? ==> SettledSince(start, core.disk, pending - {token}, now)
    ensures failure.None? || (WriteLost(failure.value) && !core.reliable)
  {
    PendingIsReadable(start, core.disk, pending, token, now);
    var reconciled := core.ReconcileScannerRecovery(token, now);
    if reconciled.Err? {
      LostIsRegistering(start, old(core.disk), core.disk, pending, token, now);
      return Some(CoreFailed(reconciled.error));
    }
    SettledOneMore(start, old(core.disk), core.disk, pending, token, reconciled.value, now);
    return None;
  }

  /** Every Registering record is reconciled; the others are left alone. */
  method ReconcileRecords(core: Core, now: int) returns (failure: Option<BatchError>)
    requires core.Ready() && now > 0
    modifies core
    ensures core.Ready() && old(core.trace) <= core.trace
    ensures OnlyRegisteringChange(old(core.disk), core.disk)
    ensures failure.None? ==> NothingRegistering(core.disk) && AllRecordsSettled(old(core.disk), core.disk, now)
    ensures if !Listable(old(core.disk)) then failure == Some(RecordsUnreadable)
            else failure.None? || (WriteLost(failure.value) && !core.reliable)
  {
    var listed := core.ListScannerRecoveries();
    if listed.None? {
      return Some(RecordsUnreadable);
    }
    var pending := listed.value.Keys;
    while pending != {}
      invariant core.Ready() && old(core.trace) <= core.trace
      invariant pending <= old(core.disk).recoveries.Keys && Listable(old(core.disk))
      invariant SettledSince(old(core.disk), core.disk, pending, now)
      decreases pending
    {
      var token :| token in pending;
      failure := SettleRecord(core, token, old(core.disk), pending, now);
      if failure.Some? {
        return;
      }
      pending := pending - {token};
    }
    AllSettled(old(core.disk), core.disk, now);
    return None;
  }

  /** The edits of reconciliation, entry by entry. */
  method ReconcileEntries(session: Session, records: map<Token, Record>) returns (after: Session, changed: bool)
    ensures after == ReconciledSession(session, records)
    ensures !changed ==> after == session
  {
    var entries := session.entries;
    changed := false;
    for i := 0 to |entries|
      invariant |entries| == |session.entries|
      invariant forall k :: 0 <= k < i ==> entries[k] == ReconciledEntry(session.entries[k], records)
      invariant forall k :: i <= k < |entries| ==> entries[k] == session.entries[k]
      invariant !changed ==> entries == session.entries
    {
      var entry := entries[i];
      if entry.status == Queued {
        if entry.token !in records {
          entries := entries[i := entry.(status := NeedsReview, message := Some(LOST_RECORD_MESSAGE))];
          changed := true;
        } else if records[entry.token].phase == Committed {
          entries := entries[i := entry.(status := Saved, scanId := records[entry.token].scanId,
                                         message := Some(RECOVERED_MESSAGE))];
          changed := true;
        }
      }
    }
    assert entries == ReconciledEntries(session.entries, records);
    after := session.(entries := entries);
  }

  predicate RowOf(scans: Scans, s: Id, token: Token) {
    s in scans && scans[s].token == Some(token)
  }

  /** What reconciliation makes of an entry, told from the database: only a queued one changes. Without its
      record it is set aside; with it, it comes out Saved with the row of its capture, if there is one. */
  ghost predicate EntrySettled(e: Entry, after: Entry, d: Disk) {
    if e.status != Queued then after == e
    else if e.token !in d.recoveries then after == e.(status := NeedsReview, message := Some(LOST_RECORD_MESSAGE))
    else if HasRow(d.scans, e.token) then
      && after == e.(status := Saved, scanId := after.scanId, message := Some(RECOVERED_MESSAGE))
      && after.scanId.Some? && forall s: Id :: RowOf(d.scans, s, e.token) <==> after.scanId == Some(s)
    else after == e
  }

  ghost predicate EntriesSettled(before: Session, after: Session, d: Disk) {
    && |after.entries| == |before.entries|
    && forall i :: 0 <= i < |before.entries| ==> EntrySettled(before.entries[i], after.entries[i], d)
  }

  /** The session's queued entries brought in line with the settled records. */
  method ReconcileSessionFile(core: Core, id: string) returns (result: Result<Session, BatchError>)
    requires core.Ready() && NothingRegistering(core.disk) && ReadSession(core.disk, id).Some?
    modifies core
    ensures core.Ready() && old(core.trace) <= core.trace
    ensures var session := ReconciledSession(ReadSession(old(core.disk), id).value, Records(old(core.disk)));
            && (result == Ok(session) || (result.Err? && Unpersisted(result.error) && !core.reliable))
            && (core.disk == old(core.disk) || core.disk == WithSession(old(core.disk), session))
            && (result.Ok? ==> ReadSession(core.disk, id) == Some(session))
            && session.id == id
            && EntriesSettled(ReadSession(old(core.disk), id).value, session, old(core.disk))
  {
    var read := ReadSession(core.disk, id);
    var listed := core.ListScannerRecoveries();
    var session, changed := ReconcileEntries(read.value, listed.value);
    EntriesAreSettled(core, id);
    ReconciledIsReadable(core, id);
    if !changed {
      return Ok(session);
    }
    var failure := PersistSession(core, session, ReconcileSession(id));
    WrittenIsRead(core.disk, session);
    return if failure.None? then Ok(session) else Err(failure.value);
  }

  /** First the records that say Registering, then the session. A queued entry whose capture has a row comes
      out Saved with that row; other sessions are left alone. */
  method ReconcileBatchScanSession(core: Core, id: string, now: int) returns (result: Result<Session, BatchError>)
    requires core.Ready() && now > 0
    modifies core
    ensures core.Ready() && old(core.trace) <= core.trace
    ensures core.disk == old(core.disk).(recoveries := core.disk.recoveries, sessions := core.disk.sessions)
    ensures core.disk.recoveries.Keys == old(core.disk).recoveries.Keys
    ensures result.Ok? ==>
              && ReadSession(old(core.disk), id).Some? && NothingRegistering(core.disk)
              && ReadSession(core.disk, id) == Some(result.value)
              && result.value == ReadSession(old(core.disk), id).value.(entries := result.value.entries)
              && EntriesSettled(ReadSession(old(core.disk), id).value, result.value, old(core.disk))
              && AllRecordsSettled(old(core.disk), core.disk, now)
    ensures forall t :: t in old(core.disk).recoveries && !SaysRegistering(old(core.disk), t) ==>
              core.disk.recoveries[t] == old(core.disk).recoveries[t]
    ensures forall other :: other in old(core.disk).sessions && other != id ==>
              other in core.disk.sessions && core.disk.sessions[other] == old(core.disk).sessions[other]
    ensures if ReadSession(old(core.disk), id).None? then result == Err(SessionUnreadable)
            else if !Listable(old(core.disk)) then result == Err(RecordsUnreadable)
            else result.Ok? || ((WriteLost(result.error) || Unpersisted(result.error)) && !core.reliable)
  {
    var read := ReadSession(core.disk, id);
    if read.None? {
      return Err(SessionUnreadable);
    }
    var failure := ReconcileRecords(core, now);
    if failure.Some? {
      return Err(failure.value);
    }
    SameSession(old(core.disk), core.disk, id);
    ghost var settled := core.disk;
    result := ReconcileSessionFile(core, id);
    SameRecords(settled, core.disk);
    if result.Ok? {
      SameEntriesSettled(read.value, result.value, settled, old(core.disk));
      StillSettled(old(core.disk), settled, core.disk, now);
    }
  }

  lemma StillSettled(start: Disk, settled: Disk, after: Disk, now: int)
    requires after == settled.(sessions := after.sessions)
    requires AllRecordsSettled(start, settled, now)
    ensures AllRecordsSettled(start, after, now)
  {
    forall t | t in start.recoveries
      ensures RecordIsSettled(start, after, t, now)
    {
      assert RecordIsSettled(start, settled, t, now) && ReadRecord(after, t) == ReadRecord(settled, t);
    }
  }

  lemma SameRecords(before: Disk, after: Disk)
    requires after == before.(sessions := after.sessions)
    ensures Records(after) == Records(before)
    ensures NothingRegistering(before) ==> NothingRegistering(after)
  {
    assert forall t :: ReadRecord(after, t) == ReadRecord(before, t);
  }

  lemma SameEntriesSettled(session: Session, reconciled: Session, before: Disk, after: Disk)
    requires EntriesSettled(session, reconciled, before)
    requires after.scans == before.scans && after.recoveries.Keys == before.recoveries.Keys
    ensures EntriesSettled(session, reconciled, after)
  {
    forall i | 0 <= i < |session.entries|
      ensures EntrySettled(session.entries[i], reconciled.entries[i], after)
    {
      assert EntrySettled(session.entries[i], reconciled.entries[i], before);
    }
  }

  lemma SameSession(before: Disk, after: Disk, id: string)
    requires after.sessions == before.sessions
    ensures ReadSession(after, id) == ReadSession(before, id)
  {}

  lemma EntryIsSettled(d: Disk, e: Entry)
    requires TablesSafe(d) && NothingRegistering(d) && EntryIsTrue(e, d.scans, d.recoveries)
    ensures EntrySettled(e, ReconciledEntry(e, Records(d)), d)
  {
    if e.status == Queued && e.token in d.recoveries {
      assert ReadRecord(d, e.token).Some? && e.token in Records(d);
      assert PhaseIsTrue(d.recoveries[e.token], e.token, d.scans);
      var r := d.recoveries[e.token].record;
      if r.phase == Committed {
        forall s: Id
          ensures RowOf(d.scans, s, e.token) <==> r.scanId == Some(s)
        {
          assert RowOf(d.scans, s, e.token) ==> SameToken(d.scans, r.scanId.value, s);
        }
      }
    }
  }

  lemma EntriesAreSettled(core: Core, id: string)
    requires core.Ready() && ReadSession(core.disk, id).Some? && NothingRegistering(core.disk)
    ensures var session := ReadSession(core.disk, id).value;
            EntriesSettled(session, ReconciledSession(session, Records(core.disk)), core.disk)
  {
    core.ValidIsSafe();
    var session := ReadSession(core.disk, id).value;
    StoredIsTrue(core.disk, id);
    forall i | 0 <= i < |session.entries|
      ensures EntrySettled(session.entries[i], ReconciledSession(session, Records(core.disk)).entries[i], core.disk)
    {
      assert EntryIsTrue(session.entries[i], core.disk.scans, core.disk.recoveries);
      EntryIsSettled(core.disk, session.entries[i]);
    }
  }

  lemma ReconciledIsReadable(core: Core, id: string)
    requires core.Ready() && ReadSession(core.disk, id).Some? && Listable(core.disk)
    ensures var session := ReconciledSession(ReadSession(core.disk, id).value, Records(core.disk));
            session.id == id && SessionReadable(session)
  {
    var session := ReadSession(core.disk, id).value;
    var after := ReconciledSession(session, Records(core.disk));
    forall i | 0 <= i < |after.entries|
      ensures ValidToken(after.entries[i].token) && after.entries[i].token == session.entries[i].token
      ensures after.entries[i].status == Saved <==> after.entries[i].scanId.Some?
    {
      var e := session.entries[i];
      if e.token in Records(core.disk) {
        ListedIsRead(core.disk, e.token);
      }
    }
  }

  // ---- edits to one entry ------------------------------------------------------------------------

  /** An edit that keeps the entry's token and the rule between Saved and the scan id keeps the session
      readable. */
  lemma EditedIsReadable(session: Session, i: nat, e: Entry)
    requires SessionReadable(session) && i < |session.entries| && e.token == session.entries[i].token
    requires e.status == Saved <==> e.scanId.Some?
    ensures SessionReadable(WithEntry(session, i, e))
  {
    var after := WithEntry(session, i, e);
    forall k | 0 <= k < |after.entries|
      ensures after.entries[k].token == session.entries[k].token && ValidToken(after.entries[k].token)
      ensures after.entries[k].status == Saved <==> after.entries[k].scanId.Some?
    {}
  }

  predicate NeedsAttention(e: Entry, done: Registered, lowQuality: bool) {
    e.duplicate || lowQuality || done.reconcile || !done.preferred || done.inspectJournal || done.removeStaging
  }

  /** Saved with the new row. A review the entry already had is kept; one is opened for a duplicate page, for
      doubtful quality and for whatever the registration could not finish, and only then. */
  predicate SavedAs(e: Entry, saved: Entry, done: Registered, lowQuality: bool) {
    && saved == e.(status := Saved, scanId := Some(done.scanId), reviewId := saved.reviewId, message := saved.message)
    && (e.reviewId.Some? ==> saved.reviewId == e.reviewId)
    && (e.reviewId.None? ==>
          (saved.reviewId.Some? <==>
             e.duplicate || lowQuality || done.reconcile || done.inspectJournal || done.removeStaging || !done.preferred))
    && saved.message == (if saved.reviewId != e.reviewId then Some(REVIEW_MESSAGE)
                         else if e.message.Some? then e.message else Some(SAVED_MESSAGE))
  }

  /** Only the token's entry changed, and it is Saved with the new row. */
  ghost predicate SavedIn(before: Session, after: Session, token: Token, done: Registered, lowQuality: bool) {
    && HasToken(before.entries, token)
    && var i := FindToken(before.entries, token);
       && |after.entries| == |before.entries|
       && after == before.(entries := before.entries[i := after.entries[i]])
       && SavedAs(before.entries[i], after.entries[i], done, lowQuality)
  }

  method SaveEntry(core: Core, entry: Entry, done: Registered, lowQuality: bool, reviewId: Id)
    returns (saved: Option<Entry>)
    ensures saved.Some? ==> SavedAs(entry, saved.value, done, lowQuality)
    ensures saved.None? ==> entry.reviewId.None? && NeedsAttention(entry, done, lowQuality) && !core.reliable
  {
    var e := entry.(status := Saved, scanId := Some(done.scanId));
    if NeedsAttention(e, done, lowQuality) && e.reviewId.None? {
      var created := core.Attempt();
      if !created {
        return None;
      }
      e := e.(reviewId := Some(reviewId), message := Some(REVIEW_MESSAGE));
    } else if e.message.None? {
      e := e.(message := Some(SAVED_MESSAGE));
    }
    return Some(e);
  }

  lemma SavedIsBatchStep(core: Core, id: string, token: Token, saved: Entry, done: Registered, lowQuality: bool)
    requires core.Ready() && InSession(core.disk, id, token)
    requires SavedAs(SessionEntry(core.disk, id, token), saved, done, lowQuality)
    requires RowFor(core.disk.scans, done.scanId, saved.page, token)
    ensures var session := ReadSession(core.disk, id).value;
            var i := FindToken(session.entries, token);
            && SessionReadable(WithEntry(session, i, saved))
            && SavedIn(session, WithEntry(session, i, saved), token, done, lowQuality)
            && BatchBy(core.Now(), RecordSaved(id, token, done.scanId, saved.reviewId, saved.message),
                       WithFile(core, WithEntry(session, i, saved)))
  {
    var session := ReadSession(core.disk, id).value;
    EditedIsReadable(session, FindToken(session.entries, token), saved);
  }

  /** The review could not be opened, or the session file not written. */
  predicate Unsaved(e: BatchError) {
    e == ReviewFailed || Unpersisted(e)
  }

  method RecordBatchScanSaved(core: Core, id: string, token: Token, done: Registered, lowQuality: bool, reviewId: Id)
    returns (failure: Option<BatchError>)
    requires core.Ready() && RowFor(core.disk.scans, done.scanId, done.page, token)
    modifies core
    ensures core.Ready() && old(core.trace) <= core.trace
    ensures core.disk == old(core.disk).(sessions := core.disk.sessions)
    ensures failure.None? || failure == Some(PersistUnsynced) ==>
              && ReadSession(old(core.disk), id).Some? && ReadSession(core.disk, id).Some?
              && SavedIn(ReadSession(old(core.disk), id).value, ReadSession(core.disk, id).value, token, done, lowQuality)
              && core.disk == WithSession(old(core.disk), ReadSession(core.disk, id).value)
    ensures failure.Some? && failure != Some(PersistUnsynced) ==> core.disk == old(core.disk)
    ensures if ReadSession(old(core.disk), id).None? then failure == Some(SessionUnreadable)
            else if !HasToken(ReadSession(old(core.disk), id).value.entries, token) then failure == Some(NotQueued)
            else if SessionEntry(old(core.disk), id, token).page != done.page then failure == Some(IdentityConflict)
            else failure.None? || (Unsaved(failure.value) && !core.reliable)
  {
    var read := ReadSession(core.disk, id);
    if read.None? {
      return Some(SessionUnreadable);
    }
    var session := read.value;
    if !HasToken(session.entries, token) {
      return Some(NotQueued);
    }
    var i := FindToken(session.entries, token);
    if session.entries[i].page != done.page {
      return Some(IdentityConflict);
    }
    var saved := SaveEntry(core, session.entries[i], done, lowQuality, reviewId);
    if saved.None? {
      return Some(ReviewFailed);
    }
    SavedIsBatchStep(core, id, token, saved.value, done, lowQuality);
    session := session.(entries := session.entries[i := saved.value]);
    failure := PersistSession(core, session,
                              RecordSaved(id, token, done.scanId, saved.value.reviewId, saved.value.message));
    WrittenIsRead(core.disk, session);
  }

  lemma WrittenIsRead(d: Disk, session: Session)
    requires SessionReadable(session)
    ensures session.id in d.sessions && d.sessions[session.id] == SessionStored(session) ==>
              ReadSession(d, session.id) == Some(session)
  {}

  // ---- register ----------------------------------------------------------------------------------

  /** At most the one new row, and it carries the token. */
  ghost predicate AtMostOneRow(before: Scans, after: Scans, scanId: Id, token: Option<Token>) {
    || after == before
    || (scanId !in before && scanId in after && after == before[scanId := after[scanId]] && after[scanId].token == token)
  }

  ghost predicate EntrySaved(d: Disk, id: string, token: Token, scanId: Id) {
    InSession(d, id, token) && SessionEntry(d, id, token).status == Saved
    && SessionEntry(d, id, token).scanId == Some(scanId)
  }

  /** The session authorizes exactly the registration of one of its queued captures. */
  method CheckRegistration(session: Session, request: Request) returns (refusal: Option<BatchError>)
    ensures refusal.None? <==>
              && session.completedAt.None? && request.token.Some? && HasToken(session.entries, request.token.value)
              && var e := session.entries[FindToken(session.entries, request.token.value)];
                 e.status == Queued && e.page == request.page && request.notebook == Some(session.notebook)
    ensures refusal == Some(SessionCompleted) <==> session.completedAt.Some?
    ensures refusal == Some(TokenRequired) <==> session.completedAt.None? && request.token.None?
    ensures refusal == Some(IdentityConflict) ==>
              exists e :: e in session.entries && Some(e.token) == request.token && e.status == Queued
                && (e.page != request.page || request.notebook != Some(session.notebook))
    ensures refusal.None? || refusal.value in {SessionCompleted, TokenRequired, NotQueued, IdentityConflict}
  {
    if session.completedAt.Some? {
      return Some(SessionCompleted);
    }
    if request.token.None? {
      return Some(TokenRequired);
    }
    if !HasToken(session.entries, request.token.value) {
      return Some(NotQueued);
    }
    var entry := session.entries[FindToken(session.entries, request.token.value)];
    if entry.status != Queued {
      return Some(NotQueued);
    }
    if entry.page != request.page || request.notebook != Some(session.notebook) {
      return Some(IdentityConflict);
    }
    return None;
  }

  /** Some write of a registration failed, and nothing else. */
  predicate RegistrationCutShort(e: BatchError) {
    Unsaved(e) || (e.CoreFailed? && (LostWrite(e.cause) || e.cause == AssetFailed || e.cause == TransactionFailed))
  }

  /** What the registration of a capture in a batch needs beside working writes: the open session has it queued, for
      this page and the session's notebook, nothing was registered for it, its record fits, and the page and the
      photo are as any registration needs them. A record that says Registering is reconciled first. */
  ghost predicate Authorized(d: Disk, id: string, request: Request) {
    && ReadSession(d, id).Some? && ReadSession(d, id).value.completedAt.None? && Listable(d)
    && request.token.Some? && !HasRow(d.scans, request.token.value)
    && request.notebook == Some(ReadSession(d, id).value.notebook)
    && HasToken(ReadSession(d, id).value.entries, request.token.value)
    && SessionEntry(d, id, request.token.value).status == Queued
    && SessionEntry(d, id, request.token.value).page == request.page
    && request.token.value in d.recoveries && RecordFits(request, ReadRecord(d, request.token.value).value)
    && Acceptable(request.(approved := true, token := None), d)
  }

  predicate RecordFits(request: Request, r: Record) {
    && (r.phase == PreviewReady || r.phase == Phase.Registering)
    && r.stagingPath == request.path && r.page == request.page && request.notebook == Some(r.notebook)
    && r.layout == request.layout && r.policy == request.policy
  }

  lemma SettledRecordFits(d: Disk, ready: Disk, request: Request, token: Token, now: int)
    requires RecordIsSettled(d, ready, token, now) && !HasRow(d.scans, token)
    ensures RecordReady(request, ready, token) <==> RecordFits(request, ReadRecord(d, token).value)
  {}

  lemma AcceptableByRecord(request: Request, d: Disk, ready: Disk, token: Token)
    requires ready == d.(recoveries := ready.recoveries, sessions := ready.sessions) && request.token == Some(token)
    ensures Acceptable(request, ready) <==>
            Acceptable(request.(token := None), d) && RecordReady(request, ready, token)
  {}

  lemma SameTokenFound(before: seq<Entry>, after: seq<Entry>, token: Token)
    requires |after| == |before| && forall i :: 0 <= i < |before| ==> after[i].token == before[i].token
    ensures HasToken(after, token) <==> HasToken(before, token)
    ensures HasToken(before, token) ==> FindToken(after, token) == FindToken(before, token)
  {
    if HasToken(before, token) {
      var i := FindToken(before, token);
      assert after[i].token == token;
    }
    if HasToken(after, token) {
      var i := FindToken(after, token);
      assert before[i].token == token;
    }
  }

  lemma SettledTokens(before: Session, after: Session, d: Disk)
    requires EntriesSettled(before, after, d)
    ensures forall i :: 0 <= i < |before.entries| ==> after.entries[i].token == before.entries[i].token
  {
    forall i | 0 <= i < |before.entries|
      ensures after.entries[i].token == before.entries[i].token
    {
      assert EntrySettled(before.entries[i], after.entries[i], d);
    }
  }

  /** The reconciled session refuses what was not authorized before. */
  lemma RefusedIsUnauthorized(d: Disk, id: string, request: Request, session: Session)
    requires ReadSession(d, id).Some? && session == ReadSession(d, id).value.(entries := session.entries)
    requires EntriesSettled(ReadSession(d, id).value, session, d)
    requires !(session.completedAt.None? && request.token.Some? && HasToken(session.entries, request.token.value)
               && var e := session.entries[FindToken(session.entries, request.token.value)];
                  e.status == Queued && e.page == request.page && request.notebook == Some(session.notebook))
    ensures !Authorized(d, id, request)
  {
    var before := ReadSession(d, id).value;
    if request.token.Some? && HasToken(before.entries, request.token.value) {
      SettledTokens(before, session, d);
      SameTokenFound(before.entries, session.entries, request.token.value);
      var i := FindToken(before.entries, request.token.value);
      assert EntrySettled(before.entries[i], session.entries[i], d);
    }
  }

  /** Once the session authorizes it, the rest is up to the registration itself. */
  lemma AuthorizedIsAcceptable(d: Disk, ready: Disk, id: string, request: Request, session: Session, now: int)
    requires ReadSession(d, id).Some? && session == ReadSession(d, id).value.(entries := session.entries)
    requires EntriesSettled(ReadSession(d, id).value, session, d) && Listable(d)
    requires ready == d.(recoveries := ready.recoveries, sessions := ready.sessions)
    requires ready.recoveries.Keys == d.recoveries.Keys
    requires AllRecordsSettled(d, ready, now)
    requires session.completedAt.None? && request.token.Some? && HasToken(session.entries, request.token.value)
    requires var e := session.entries[FindToken(session.entries, request.token.value)];
             e.status == Queued && e.page == request.page && request.notebook == Some(session.notebook)
    ensures Authorized(d, id, request) <==> Acceptable(request.(approved := true), ready)
  {
    var before, token := ReadSession(d, id).value, request.token.value;
    SettledTokens(before, session, d);
    SameTokenFound(before.entries, session.entries, token);
    var i := FindToken(before.entries, token);
    assert EntrySettled(before.entries[i], session.entries[i], d);
    assert token in d.recoveries && !HasRow(d.scans, token);
    SettledRecordFits(d, ready, request.(approved := true), token, now);
    AcceptableByRecord(request.(approved := true), d, ready, token);
  }

  /** Registers a queued capture of the session. Success means the entry is Saved with the one new row,
      and the capture had no row before. A failure after the row is in leaves the entry Queued. The
      quality calibration is provisional, so every new scan still needs review. */
  method RegisterBatchScan(core: Core, id: string, request: Request, scanId: Id, assets: seq<Id>, reviewId: Id, now: int)
    returns (result: Result<Registered, BatchError>)
    requires core.Ready() && now > 0 && ScanIdFresh(core.disk, scanId) && FreshAssets(core.disk, assets)
    modifies core
    ensures core.Ready() && old(core.trace) <= core.trace
    ensures AtMostOneRow(old(core.disk).scans, core.disk.scans, scanId, request.token)
    ensures core.disk.scans != old(core.disk).scans ==>
              request.token.Some? && !HasRow(old(core.disk).scans, request.token.value)
    ensures result.Ok? ==>
              && request.token.Some? && scanId in core.disk.scans && scanId !in old(core.disk).scans
              && Registers(request.(approved := true), scanId, assets, old(core.disk), core.disk, result.value)
              && EntrySaved(core.disk, id, request.token.value, scanId)
    ensures result.Ok? ==> Authorized(old(core.disk), id, request)
    ensures core.reliable ==> (result.Ok? <==> Authorized(old(core.disk), id, request))
    ensures result.Err? && Authorized(old(core.disk), id, request) ==> RegistrationCutShort(result.error)
    ensures result == Err(SessionUnreadable) <==> ReadSession(old(core.disk), id).None?
    ensures result == Err(RecordsUnreadable) <==>
              ReadSession(old(core.disk), id).Some? && !Listable(old(core.disk))
  {
    var reconciled := ReconcileBatchScanSession(core, id, now);
    if reconciled.Err? {
      return Err(reconciled.error);
    }
    var session := reconciled.value;
    var refusal := CheckRegistration(session, request);
    if refusal.Some? {
      RefusedIsUnauthorized(old(core.disk), id, request, session);
      return Err(refusal.value);
    }
    var token := request.token.value;
    ghost var ready := core.disk;
    AuthorizedIsAcceptable(old(core.disk), ready, id, request, session, now);
    result := RegisterQueued(core, id, token, request.(approved := true), scanId, assets, reviewId, now,
                             Authorized(old(core.disk), id, request));
    if result.Ok? {
      ReconciledBefore(request.(approved := true), scanId, assets, old(core.disk), ready, core.disk, result.value);
    }
  }

  lemma ExplainedIsCutShort(request: Request, d: Disk, e: CoreError, reliable: bool)
    requires Explained(request, d, e, reliable)
    ensures !Acceptable(request, d) || RegistrationCutShort(CoreFailed(e))
  {}

  /** The registration of a capture that has a token, as far as its batch is concerned. */
  method RegisterToken(core: Core, token: Token, request: Request, scanId: Id, assets: seq<Id>, now: int,
                       ghost acceptable: bool)
    returns (result: Result<Registered, BatchError>)
    requires acceptable <==> Acceptable(request, core.disk)
    requires core.Ready() && now > 0 && ScanIdFresh(core.disk, scanId) && FreshAssets(core.disk, assets)
    requires request.token == Some(token)
    modifies core
    ensures core.Ready() && old(core.trace) <= core.trace && core.disk.sessions == old(core.disk).sessions
    ensures result.Ok? ==> acceptable && !HasRow(old(core.disk).scans, token)
    ensures result.Ok? ==> Registers(request, scanId, assets, old(core.disk), core.disk, result.value)
    ensures result.Err? ==> core.disk.scans == old(core.disk).scans
    ensures result.Err? ==> !acceptable || RegistrationCutShort(result.error)
    ensures result.Err? ==> result.error.CoreFailed?
    ensures core.reliable ==> (result.Ok? <==> acceptable)
  {
    var registered := core.RegisterScan(request, scanId, assets, now);
    if registered.Err? {
      ExplainedIsCutShort(request, old(core.disk), registered.error, core.reliable);
      return Err(CoreFailed(registered.error));
    }
    return Ok(registered.value);
  }

  /** The scan is in; its entry is saved, or the failure is reported and the scan stays. */
  method SaveRegistered(core: Core, id: string, token: Token, registered: Registered, reviewId: Id)
    returns (result: Result<Registered, BatchError>)
    requires core.Ready() && RowFor(core.disk.scans, registered.scanId, registered.page, token)
    requires InSession(core.disk, id, token) && SessionEntry(core.disk, id, token).page == registered.page
    modifies core
    ensures core.Ready() && old(core.trace) <= core.trace
    ensures core.disk == old(core.disk).(sessions := core.disk.sessions)
    ensures result.Ok? ==> result.value == registered && EntrySaved(core.disk, id, token, registered.scanId)
    ensures result.Err? ==> Unsaved(result.error) && !core.reliable
    ensures result.Err? ==> result.error != SessionUnreadable && result.error != RecordsUnreadable
  {
    var failure := RecordBatchScanSaved(core, id, token, registered, true, reviewId);
    if failure.Some? {
      return Err(failure.value);
    }
    SavedIsFound(ReadSession(old(core.disk), id).value, ReadSession(core.disk, id).value, token, registered, true);
    return Ok(registered);
  }

  ghost predicate RegistersOf(request: Request, scanId: Id, assets: seq<Id>, before: Disk, after: Disk,
                              result: Result<Registered, BatchError>) {
    result.Ok? ==> Registers(request, scanId, assets, before, after, result.value)
  }

  /** The registration itself, and then the session file. */
  method RegisterQueued(core: Core, id: string, token: Token, request: Request, scanId: Id, assets: seq<Id>,
                        reviewId: Id, now: int, ghost acceptable: bool)
    returns (result: Result<Registered, BatchError>)
    requires acceptable <==> Acceptable(request, core.disk)
    requires core.Ready() && now > 0 && ScanIdFresh(core.disk, scanId) && FreshAssets(core.disk, assets)
    requires request.token == Some(token) && InSession(core.disk, id, token)
    requires SessionEntry(core.disk, id, token).page == request.page
    modifies core
    ensures core.Ready() && old(core.trace) <= core.trace
    ensures result.Ok? ==> acceptable
    ensures core.reliable ==> (result.Ok? <==> acceptable)
    ensures result.Err? ==> !acceptable || RegistrationCutShort(result.error)
    ensures result.Err? ==> result.error != SessionUnreadable && result.error != RecordsUnreadable
    ensures AtMostOneRow(old(core.disk).scans, core.disk.scans, scanId, request.token)
    ensures core.disk.scans != old(core.disk).scans ==> !HasRow(old(core.disk).scans, token)
    ensures RegistersOf(request, scanId, assets, old(core.disk), core.disk, result)
    ensures result.Ok? ==> EntrySaved(core.disk, id, token, scanId)
  {
    result := RegisterToken(core, token, request, scanId, assets, now, acceptable);
    if result.Err? {
      return;
    }
    ghost var done := core.disk;
    RegisteredRow(old(core.disk), done, id, token, request, scanId, assets, result.value);
    ghost var registered := result;
    result := SaveRegistered(core, id, token, result.value, reviewId);
    RegistersStill(request, scanId, assets, old(core.disk), done, core.disk, registered.value);
  }

  lemma RegisteredRow(before: Disk, done: Disk, id: string, token: Token, request: Request, scanId: Id, assets: seq<Id>,
                      registered: Registered)
    requires Registers(request, scanId, assets, before, done, registered) && request.token == Some(token)
    requires done.sessions == before.sessions && InSession(before, id, token)
    ensures registered.scanId == scanId && registered.page == request.page
    ensures RowFor(done.scans, scanId, request.page, token)
    ensures InSession(done, id, token) && SessionEntry(done, id, token) == SessionEntry(before, id, token)
  {}

  lemma RegistersStill(request: Request, scanId: Id, assets: seq<Id>, before: Disk, done: Disk, after: Disk,
                       report: Registered)
    requires Registers(request, scanId, assets, before, done, report) && scanId !in before.scans
    requires after == done.(sessions := after.sessions)
    ensures Registers(request, scanId, assets, before, after, report)
    ensures AtMostOneRow(before.scans, after.scans, scanId, request.token)
  {}

  lemma ReconciledBefore(request: Request, scanId: Id, assets: seq<Id>, before: Disk, ready: Disk, after: Disk,
                         report: Registered)
    requires ready == before.(recoveries := ready.recoveries, sessions := ready.sessions)
    requires Registers(request, scanId, assets, ready, after, report)
    ensures Registers(request, scanId, assets, before, after, report) && scanId in after.scans
  {}

  lemma SavedIsFound(before: Session, after: Session, token: Token, done: Registered, lowQuality: bool)
    requires SavedIn(before, after, token, done, lowQuality) && DistinctTokens(before.entries)
    ensures HasToken(after.entries, token)
    ensures var e := after.entries[FindToken(after.entries, token)];
            e.status == Saved && e.scanId == Some(done.scanId)
  {
    var i := FindToken(before.entries, token);
    assert after.entries[i].token == token;
  }

  // ---- report ------------------------------------------------------------------------------------

  predicate MessageAllowed(message: string) {
    !Blank(message) && Utf8Length(message) <= MAX_MESSAGE_BYTES
  }

  /** A queued capture that could not be registered is set aside with a message and a review. */
  ghost predicate ReviewedIn(before: Session, after: Session, token: Token, message: string) {
    && HasToken(before.entries, token)
    && var i := FindToken(before.entries, token);
       var e := before.entries[i];
       && e.status != Saved && |after.entries| == |before.entries| && after.entries[i].reviewId.Some?
       && (e.reviewId.Some? ==> after.entries[i].reviewId == e.reviewId)
       && after.entries[i] == e.(status := NeedsReview, reviewId := after.entries[i].reviewId, message := Some(message))
       && after == before.(entries := before.entries[i := after.entries[i]])
  }

  method ReportBatchScanReview(core: Core, id: string, token: Token, message: string, reviewId: Id)
    returns (result: Result<Session, BatchError>)
    requires core.Ready()
    modifies core
    ensures core.Ready() && old(core.trace) <= core.trace
    ensures result.Ok? ==>
              && MessageAllowed(message)
              && ReadSession(old(core.disk), id).Some? && ReadSession(core.disk, id) == Some(result.value)
              && ReviewedIn(ReadSession(old(core.disk), id).value, result.value, token, message)
              && core.disk == WithSession(old(core.disk), result.value)
    ensures result.Err? && result.error != PersistUnsynced ==> core.disk == old(core.disk)
    ensures if !MessageAllowed(message) then result == Err(MessageInvalid)
            else if ReadSession(old(core.disk), id).None? then result == Err(SessionUnreadable)
            else if !HasToken(ReadSession(old(core.disk), id).value.entries, token) then result == Err(NotQueued)
            else if SessionEntry(old(core.disk), id, token).status == Saved then result == Err(AlreadySaved)
            else result.Ok? || (Unsaved(result.error) && !core.reliable)
    ensures result == Err(AlreadySaved) ==> core.disk == old(core.disk)
  {
    if Trimmed(message) == "" || Utf8Length(message) > MAX_MESSAGE_BYTES {
      return Err(MessageInvalid);
    }
    var read := ReadSession(core.disk, id);
    if read.None? {
      return Err(SessionUnreadable);
    }
    var session := read.value;
    if !HasToken(session.entries, token) {
      return Err(NotQueued);
    }
    var i := FindToken(session.entries, token);
    var entry := session.entries[i];
    if entry.status == Saved {
      return Err(AlreadySaved);
    }
    if entry.reviewId.None? {
      var created := core.Attempt();
      if !created {
        return Err(ReviewFailed);
      }
      entry := entry.(reviewId := Some(reviewId));
    }
    entry := entry.(status := NeedsReview, message := Some(message));
    session := session.(entries := session.entries[i := entry]);
    EditedIsReadable(read.value, i, entry);
    var failure := PersistSession(core, session, ReportReview(id, token, entry.reviewId.value, message));
    WrittenIsRead(core.disk, session);
    return if failure.None? then Ok(session) else Err(failure.value);
  }

  // ---- complete ----------------------------------------------------------------------------------

  ghost predicate SavedFor(session: Session, t: Token) {
    exists i :: 0 <= i < |session.entries| && session.entries[i].token == t && session.entries[i].status == Saved
  }

  /** A recovery record is gone only if the session file on disk says completed, and Saved for it. */
  ghost predicate RemovalsRecorded(before: Disk, after: Disk, id: string) {
    forall t :: t in before.recoveries && t !in after.recoveries ==>
      && id in after.sessions && after.sessions[id].SessionStored?
      && after.sessions[id].session.completedAt.Some? && SavedFor(after.sessions[id].session, t)
  }

  /** The records of the first `n` entries are gone wherever the entry is Saved. */
  ghost predicate Acknowledged(d: Disk, session: Session, n: nat) {
    forall i :: 0 <= i < n && i < |session.entries| && session.entries[i].scanId.Some? ==>
      session.entries[i].token !in d.recoveries
  }

  /** The record says Committed to the scan, or says Registering and the scan is its row. */
  ghost predicate CommittedTo(d: Disk, token: Token, scanId: Id) {
    && ReadRecord(d, token).Some?
    && var r := ReadRecord(d, token).value;
       || (r.phase == Committed && r.scanId == Some(scanId))
       || (r.phase == Phase.Registering && HasRow(d.scans, token)
           && forall s :: s in d.scans && d.scans[s].token == Some(token) ==> s == scanId)
  }

  /** What is answered to an entry saved with a scan: a record of another scan is refused. */
  ghost predicate EntryAcknowledged(d: Disk, token: Token, scanId: Id, failure: Option<BatchError>, reliable: bool) {
    if !Listable(d) then failure == Some(RecordsUnreadable)
    else if token !in d.recoveries then failure.None?
    else if CommittedTo(d, token, scanId) then failure.None? || (WriteLost(failure.value) && !reliable)
    else failure == Some(NotCommitted) || (failure.Some? && WriteLost(failure.value) && !reliable)
  }

  /** Drops one saved entry's recovery record, which has to be committed to the entry's scan. */
  method AcknowledgeEntry(core: Core, token: Token, scanId: Id, now: int) returns (failure: Option<BatchError>)
    requires core.Ready() && now > 0
    modifies core
    ensures core.Ready() && old(core.trace) <= core.trace
    ensures core.disk == old(core.disk).(recoveries := core.disk.recoveries)
    ensures core.disk.recoveries.Keys <= old(core.disk).recoveries.Keys
    ensures core.disk.recoveries - {token} == old(core.disk).recoveries - {token}
    ensures failure.None? ==> token !in core.disk.recoveries
    ensures token in old(core.disk).recoveries && token !in core.disk.recoveries ==>
              CommittedTo(old(core.disk), token, scanId)
    ensures EntryAcknowledged(old(core.disk), token, scanId, failure, core.reliable)
  {
    var listed := core.ListScannerRecoveries();
    if listed.None? {
      return Some(RecordsUnreadable);
    }
    if token !in listed.value {
      return None;
    }
    var record := listed.value[token];
    if record.phase == Phase.Registering {
      var reconciled := core.ReconcileScannerRecovery(token, now);
      assert core.disk.recoveries - {token} == old(core.disk).recoveries - {token};
      if reconciled.Err? {
        return Some(CoreFailed(reconciled.error));
      }
      record := reconciled.value;
    }
    if record.phase != Committed || record.scanId != Some(scanId) {
      return Some(NotCommitted);
    }
    var refused := core.AcknowledgeCommittedScannerRecovery(token, scanId);
    return if refused.None? then None else Some(CoreFailed(refused.value));
  }

  lemma OnlyOneGone(before: Recoveries, after: Recoveries, token: Token)
    requires after - {token} == before - {token}
    ensures before.Keys <= after.Keys + {token}
  {
    forall t | t in before && t != token
      ensures t in after
    {
      assert t in before - {token};
    }
  }

  /** In every session file a Saved entry names the row of its token. */
  ghost predicate SavedEntriesTrue(session: Session, scans: Scans) {
    forall i :: 0 <= i < |session.entries| ==>
      && (session.entries[i].status == Saved <==> session.entries[i].scanId.Some?)
      && (session.entries[i].scanId.Some? ==>
            RowFor(scans, session.entries[i].scanId.value, session.entries[i].page, session.entries[i].token))
  }

  /** So a record that is still there can only be committed to that row, or be about to be. */
  lemma SavedIsCommitted(d: Disk, token: Token, page: Id, s: Id)
    requires TablesSafe(d) && RowFor(d.scans, s, page, token) && ReadRecord(d, token).Some?
    ensures CommittedTo(d, token, s)
  {
    assert PhaseIsTrue(d.recoveries[token], token, d.scans);
    assert HasRow(d.scans, token);
    forall r | r in d.scans && d.scans[r].token == Some(token)
      ensures r == s
    {
      assert SameToken(d.scans, r, s);
    }
  }

  lemma StillListable(before: Disk, after: Disk)
    requires Listable(before) && after == before.(recoveries := after.recoveries)
    requires after.recoveries.Keys <= before.recoveries.Keys
    requires forall t :: t in after.recoveries ==> after.recoveries[t] == before.recoveries[t]
    ensures Listable(after)
  {
    SubsetSize(after.recoveries.Keys, before.recoveries.Keys);
    assert |after.recoveries.Keys| == |after.recoveries| && |before.recoveries.Keys| == |before.recoveries|;
    forall t | t in after.recoveries
      ensures ReadRecord(after, t).Some?
    {
      assert ReadRecord(after, t) == ReadRecord(before, t);
    }
  }

  lemma SubsetSize<T>(a: set<T>, b: set<T>)
    requires a <= b
    ensures |a| <= |b|
  {
    assert a + (b - a) == b;
  }

  lemma OneGoneIsListable(before: Disk, after: Disk, token: Token)
    requires Listable(before) && after == before.(recoveries := after.recoveries)
    requires after.recoveries - {token} == before.recoveries - {token} && token !in after.recoveries
    ensures Listable(after)
  {
    forall t | t in after.recoveries
      ensures t in before.recoveries && after.recoveries[t] == before.recoveries[t]
    {
      assert t in after.recoveries - {token};
    }
    StillListable(before, after);
  }

  /** Its record goes, if it is still there, and no other. The mismatch error cannot happen. */
  method AcknowledgeSavedEntry(core: Core, entry: Entry, now: int) returns (failure: Option<BatchError>)
    requires core.Ready() && now > 0 && Listable(core.disk) && entry.scanId.Some?
    requires RowFor(core.disk.scans, entry.scanId.value, entry.page, entry.token)
    modifies core
    ensures core.Ready() && old(core.trace) <= core.trace
    ensures core.disk == old(core.disk).(recoveries := core.disk.recoveries)
    ensures core.disk.recoveries.Keys <= old(core.disk).recoveries.Keys
    ensures old(core.disk).recoveries.Keys <= core.disk.recoveries.Keys + {entry.token}
    ensures failure.None? ==> entry.token !in core.disk.recoveries && Listable(core.disk)
    ensures failure.None? || (WriteLost(failure.value) && !core.reliable)
  {
    core.ValidIsSafe();
    if entry.token in core.disk.recoveries {
      SavedIsCommitted(core.disk, entry.token, entry.page, entry.scanId.value);
    }
    failure := AcknowledgeEntry(core, entry.token, entry.scanId.value, now);
    OnlyOneGone(old(core.disk).recoveries, core.disk.recoveries, entry.token);
    if failure.None? {
      OneGoneIsListable(old(core.disk), core.disk, entry.token);
    }
  }

  ghost predicate OnlySavedGone(start: Disk, d: Disk, session: Session) {
    && d.recoveries.Keys <= start.recoveries.Keys
    && forall t :: t in start.recoveries && t !in d.recoveries ==> SavedFor(session, t)
  }

  lemma OneSavedGone(start: Disk, before: Disk, after: Disk, session: Session, i: nat)
    requires i < |session.entries| && session.entries[i].status == Saved && OnlySavedGone(start, before, session)
    requires after.recoveries.Keys <= before.recoveries.Keys
    requires before.recoveries.Keys <= after.recoveries.Keys + {session.entries[i].token}
    ensures OnlySavedGone(start, after, session)
  {
    assert SavedFor(session, session.entries[i].token);
  }

  lemma OneMoreAcknowledged(before: Disk, after: Disk, session: Session, i: nat)
    requires i < |session.entries| && Acknowledged(before, session, i)
    requires after.recoveries.Keys <= before.recoveries.Keys
    requires session.entries[i].scanId.Some? ==> session.entries[i].token !in after.recoveries
    ensures Acknowledged(after, session, i + 1)
  {}

  /** The records of the saved entries go one by one. */
  method AcknowledgeEntries(core: Core, session: Session, now: int) returns (failure: Option<BatchError>)
    requires core.Ready() && now > 0 && SavedEntriesTrue(session, core.disk.scans) && Listable(core.disk)
    modifies core
    ensures core.Ready() && old(core.trace) <= core.trace
    ensures core.disk == old(core.disk).(recoveries := core.disk.recoveries)
    ensures core.disk.recoveries.Keys <= old(core.disk).recoveries.Keys
    ensures forall t :: t in old(core.disk).recoveries && t !in core.disk.recoveries ==> SavedFor(session, t)
    ensures failure.None? ==> Acknowledged(core.disk, session, |session.entries|)
    ensures failure.None? || (WriteLost(failure.value) && !core.reliable)
  {
    for i := 0 to |session.entries|
      invariant core.Ready() && old(core.trace) <= core.trace
      invariant core.disk == old(core.disk).(recoveries := core.disk.recoveries)
      invariant OnlySavedGone(old(core.disk), core.disk, session)
      invariant Acknowledged(core.disk, session, i) && Listable(core.disk)
    {
      var entry := session.entries[i];
      ghost var before := core.disk;
      if entry.scanId.Some? {
        failure := AcknowledgeSavedEntry(core, entry, now);
        OneSavedGone(old(core.disk), before, core.disk, session, i);
        if failure.Some? {
          return;
        }
      }
      OneMoreAcknowledged(before, core.disk, session, i);
    }
    return None;
  }

  /** A capture of the session that still waits to be registered: queued, its record there, no row for it. */
  ghost predicate StillWaiting(d: Disk, id: string) {
    && ReadSession(d, id).Some?
    && var entries := ReadSession(d, id).value.entries;
       exists i :: 0 <= i < |entries| && entries[i].status == Queued && entries[i].token in d.recoveries
                   && !HasRow(d.scans, entries[i].token)
  }

  lemma WaitingIsQueued(d: Disk, id: string, session: Session)
    requires ReadSession(d, id).Some? && EntriesSettled(ReadSession(d, id).value, session, d)
    ensures SomeQueued(session.entries) <==> StillWaiting(d, id)
  {
    var before := ReadSession(d, id).value.entries;
    forall i | 0 <= i < |before|
      ensures session.entries[i].status == Queued <==>
              before[i].status == Queued && before[i].token in d.recoveries && !HasRow(d.scans, before[i].token)
    {
      assert EntrySettled(before[i], session.entries[i], d);
    }
  }

  /** Completion is on disk before the first recovery record goes, and whatever happens a record goes
      only once its entry is Saved in that file. Only a capture that still waits to be registered refuses it. */
  method CompleteBatchScanSession(core: Core, id: string, now: int, closing: int)
    returns (result: Result<Session, BatchError>)
    requires core.Ready() && now > 0 && closing > 0
    modifies core
    ensures core.Ready() && old(core.trace) <= core.trace
    ensures core.disk == old(core.disk).(recoveries := core.disk.recoveries, sessions := core.disk.sessions)
    ensures RemovalsRecorded(old(core.disk), core.disk, id)
    ensures result.Ok? ==>
              && id in core.disk.sessions && core.disk.sessions[id] == SessionStored(result.value)
              && result.value.completedAt.Some? && !SomeQueued(result.value.entries)
              && Acknowledged(core.disk, result.value, |result.value.entries|)
    ensures result.Ok? ==>
              && ReadSession(old(core.disk), id).Some?
              && var before := ReadSession(old(core.disk), id).value;
                 && EntriesSettled(before, result.value, old(core.disk))
                 && result.value == before.(entries := result.value.entries, completedAt := result.value.completedAt)
                 && result.value.completedAt == (if before.completedAt.Some? then before.completedAt else Some(closing))
    ensures if ReadSession(old(core.disk), id).None? then result == Err(SessionUnreadable)
            else if !Listable(old(core.disk)) then result == Err(RecordsUnreadable)
            else if core.reliable then if StillWaiting(old(core.disk), id) then result == Err(PendingCaptures)
                                       else result.Ok?
            else result.Ok? || result == Err(PendingCaptures) || WriteLost(result.error) || Unpersisted(result.error)
    ensures result == Err(PendingCaptures) ==>
              && StillWaiting(old(core.disk), id) && NothingRegistering(core.disk)
              && ReadSession(core.disk, id).Some? && SomeQueued(ReadSession(core.disk, id).value.entries)
    ensures result.Ok? ==> !StillWaiting(old(core.disk), id)
  {
    result := ReconcileBatchScanSession(core, id, now);
    if result.Err? {
      return;
    }
    var session := result.value;
    WaitingIsQueued(old(core.disk), id, session);
    if exists i :: 0 <= i < |session.entries| && session.entries[i].status == Queued {
      return Err(PendingCaptures);
    }
    ghost var before := ReadSession(old(core.disk), id).value;
    result := CloseSession(core, session, now, closing);
    if result.Ok? {
      ClosedIsSettled(before, session, result.value, old(core.disk));
    }
  }

  lemma ClosedIsSettled(before: Session, reconciled: Session, closed: Session, d: Disk)
    requires EntriesSettled(before, reconciled, d) && closed.entries == reconciled.entries
    ensures EntriesSettled(before, closed, d)
  {
    forall i | 0 <= i < |before.entries|
      ensures EntrySettled(before.entries[i], closed.entries[i], d)
    {
      assert EntrySettled(before.entries[i], reconciled.entries[i], d);
    }
  }

  lemma StoredSavesTrue(core: Core, session: Session)
    requires core.Ready() && ReadSession(core.disk, session.id) == Some(session)
    ensures SavedEntriesTrue(session, core.disk.scans)
  {
    core.ValidIsSafe();
    StoredIsTrue(core.disk, session.id);
    forall i | 0 <= i < |session.entries|
      ensures session.entries[i].status == Saved <==> session.entries[i].scanId.Some?
      ensures session.entries[i].scanId.Some? ==>
                RowFor(core.disk.scans, session.entries[i].scanId.value, session.entries[i].page,
                       session.entries[i].token)
    {
      assert EntryIsTrue(session.entries[i], core.disk.scans, core.disk.recoveries);
    }
  }

  lemma StillListed(before: Disk, after: Disk)
    requires Listable(before) && after == before.(sessions := after.sessions)
    ensures Listable(after)
  {
    assert forall t :: ReadRecord(after, t) == ReadRecord(before, t);
  }

  method CloseSession(core: Core, session: Session, now: int, closing: int) returns (result: Result<Session, BatchError>)
    requires core.Ready() && now > 0 && closing > 0 && Listable(core.disk)
    requires ReadSession(core.disk, session.id) == Some(session) && !SomeQueued(session.entries)
    modifies core
    ensures core.Ready() && old(core.trace) <= core.trace
    ensures core.disk == old(core.disk).(recoveries := core.disk.recoveries, sessions := core.disk.sessions)
    ensures RemovalsRecorded(old(core.disk), core.disk, session.id)
    ensures result.Ok? ==>
              && result.value == session.(completedAt := if session.completedAt.Some? then session.completedAt
                                                         else Some(closing))
              && session.id in core.disk.sessions && core.disk.sessions[session.id] == SessionStored(result.value)
              && Acknowledged(core.disk, result.value, |result.value.entries|)
    ensures result.Err? ==> (WriteLost(result.error) || Unpersisted(result.error)) && !core.reliable
  {
    StoredSavesTrue(core, session);
    var closed := session;
    if session.completedAt.None? {
      closed := session.(completedAt := Some(closing));
      var failure := PersistSession(core, closed, CompleteSession(session.id, closing));
      if failure.Some? {
        return Err(failure.value);
      }
      StillListed(old(core.disk), core.disk);
    }
    var failure := AcknowledgeEntries(core, closed, now);
    return if failure.None? then Ok(closed) else Err(failure.value);
  }

  /** Only a completed summary may be put away. */
  method AcknowledgeBatchScanSession(core: Core, id: string) returns (failure: Option<BatchError>)
    requires core.Ready()
    modifies core
    ensures core.Ready() && old(core.trace) <= core.trace
    ensures failure.None? || failure == Some(PersistUnsynced) ==>
              && ReadSession(old(core.disk), id).Some? && ReadSession(old(core.disk), id).value.completedAt.Some?
              && core.disk == old(core.disk).(sessions := old(core.disk).sessions - {id})
    ensures failure.Some? && failure != Some(PersistUnsynced) ==> core.disk == old(core.disk)
    ensures if ReadSession(old(core.disk), id).None? then failure == Some(SessionUnreadable)
            else if ReadSession(old(core.disk), id).value.completedAt.None? then failure == Some(SessionStillActive)
            else failure.None? || (Unpersisted(failure.value) && !core.reliable)
  {
    var read := ReadSession(core.disk, id);
    if read.None? {
      return Some(SessionUnreadable);
    }
    if read.value.completedAt.None? {
      return Some(SessionStillActive);
    }
    var removed := core.Attempt();
    if !removed {
      return Some(PersistFailed);
    }
    ghost var before := core.Now();
    core.disk := core.disk.(sessions := core.disk.sessions - {id});
    core.Batched(before, RemoveSession(id));
    var synced := core.Attempt();
    return if synced then None else Some(PersistUnsynced);
  }
}
