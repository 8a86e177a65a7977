/**
 * The recovery record and the batch session as JSON value trees, and the parsers that believe one only
 * when every field is there and the record's own rules hold. JSON text itself is not modelled; a field
 * name is a constructor of `Key`.
 */
module RecordCodec {
  import opened Prelude
  import opened IdCodec
  import opened QrCodes
  import opened ScanRecords
  import opened BatchSession
  import opened Registration

  datatype Key =
    | SchemaVersionKey | TokenKey | StagingPathKey | PageKey | NotebookKey | CapturedAtKey | LayoutKey
    | PolicyKey | PhaseKey | ScanKey | UpdatedAtKey
    | SessionKey | StartedAtKey | CompletedAtKey | EntriesKey | StatusKey | DuplicateKey | ReviewKey
    | MessageKey
    | OtherKey(name: string)

  datatype Json =
    | Null
    | Bool(value: bool)
    | Number(number: int)
    | Text(text: string)
    | Array(items: seq<Json>)
    | Object(fields: map<Key, Json>)

  const SCHEMA_VERSION := 1
  const I64_MIN := -0x8000_0000_0000_0000
  const I64_MAX := 0x7fff_ffff_ffff_ffff
  const U32_MAX := 0xffff_ffff

  predicate FitsI64(n: int) {
    I64_MIN <= n <= I64_MAX
  }

  // ---- fields ------------------------------------------------------------------------------------

  function Get(v: Json, key: Key): Json {
    if v.Object? && key in v.fields then v.fields[key] else Null
  }

  function RequiredText(v: Json, key: Key): Option<string> {
    var f := Get(v, key);
    if f.Text? && f.text != "" then Some(f.text) else None
  }

  function RequiredI64(v: Json, key: Key): Option<int> {
    var f := Get(v, key);
    if f.Number? && FitsI64(f.number) then Some(f.number) else None
  }

  function RequiredU32(v: Json, key: Key): Option<nat> {
    var f := Get(v, key);
    if f.Number? && 0 <= f.number <= U32_MAX then Some(f.number) else None
  }

  function RequiredId(v: Json, key: Key): Option<Id> {
    match RequiredText(v, key)
    case Some(text) => ParseId(text)
    case None => None
  }

  /** Absent or not a text: no identifier. A text that is no identifier: the record is refused. */
  function OptionalId(v: Json, key: Key): Result<Option<Id>, ()> {
    var f := Get(v, key);
    if !f.Text? then Ok(None)
    else
      match ParseId(f.text)
      case Some(id) => Ok(Some(id))
      case None => Err(())
  }

  function OptionalText(v: Json, key: Key): Option<string> {
    var f := Get(v, key);
    if f.Text? then Some(f.text) else None
  }

  function OptionalI64(v: Json, key: Key): Option<int> {
    RequiredI64(v, key)
  }

  function Flag(v: Json, key: Key): bool {
    var f := Get(v, key);
    f.Bool? && f.value
  }

  function IdJson(id: Id): Json {
    Text(TextOf(id))
  }

  function OptionalIdJson(id: Option<Id>): Json {
    if id.Some? then IdJson(id.value) else Null
  }

  lemma IdJsonReads(v: Json, key: Key, id: Id)
    requires Get(v, key) == IdJson(id)
    ensures RequiredId(v, key) == Some(id) && OptionalId(v, key) == Ok(Some(id))
  {
    IdField(TextOf(id), id);
    TextOfIsCanonical(id);
  }

  lemma OptionalIdJsonReads(v: Json, key: Key, id: Option<Id>)
    requires Get(v, key) == OptionalIdJson(id)
    ensures OptionalId(v, key) == Ok(id)
  {
    if id.Some? {
      IdJsonReads(v, key, id.value);
    }
  }

  // ---- the recovery record -----------------------------------------------------------------------

  function PhaseText(phase: Phase): string {
    match phase
    case Captured => "captured"
    case PreviewReady => "preview_ready"
    case Registering => "registering"
    case Committed => "committed"
  }

  function ParsePhase(text: string): Option<Phase> {
    if text == "captured" then Some(Captured)
    else if text == "preview_ready" then Some(PreviewReady)
    else if text == "registering" then Some(Phase.Registering)
    else if text == "committed" then Some(Committed)
    else None
  }

  lemma PhaseReads(phase: Phase)
    ensures ParsePhase(PhaseText(phase)) == Some(phase) && PhaseText(phase) != ""
    ensures PhaseText(phase) == if phase == Captured then "captured" else if phase == PreviewReady then "preview_ready"
                                else if phase == Phase.Registering then "registering" else "committed"
  {}

  function EncodeRecord(r: Record): Json {
    Object(map[
      SchemaVersionKey := Number(SCHEMA_VERSION),
      TokenKey := Text(r.token),
      StagingPathKey := Text(r.stagingPath),
      PageKey := IdJson(r.page),
      NotebookKey := IdJson(r.notebook),
      CapturedAtKey := Number(r.capturedAt),
      LayoutKey := Text(r.layout),
      PolicyKey := Number(r.policy),
      PhaseKey := Text(PhaseText(r.phase)),
      ScanKey := OptionalIdJson(r.scanId),
      UpdatedAtKey := Number(r.updatedAt)
    ])
  }

  function BuildRecord(v: Json, token: string, path: string, page: Id, notebook: Id, phase: Phase, scanId: Option<Id>)
    : Option<Record>
  {
    var capturedAt, updatedAt := RequiredI64(v, CapturedAtKey), RequiredI64(v, UpdatedAtKey);
    var layout, policy := RequiredText(v, LayoutKey), RequiredU32(v, PolicyKey);
    if capturedAt.None? || updatedAt.None? || layout.None? || policy.None? || !ValidLayout(layout.value) then None
    else
      var r := Record(token, path, page, notebook, capturedAt.value, layout.value, policy.value, phase, scanId,
                      updatedAt.value);
      if WellShaped(r) then Some(r) else None
  }

  /** The parser's own checks; the staging file a live record must have is checked beside it. */
  function ParseRecord(v: Json): Option<Record> {
    var token, path := RequiredText(v, TokenKey), RequiredText(v, StagingPathKey);
    var page, notebook := RequiredId(v, PageKey), RequiredId(v, NotebookKey);
    var phaseText, scanId := RequiredText(v, PhaseKey), OptionalId(v, ScanKey);
    if Get(v, SchemaVersionKey) != Number(SCHEMA_VERSION) then None
    else if token.None? || path.None? || page.None? || notebook.None? || phaseText.None? || scanId.Err? then None
    else if ParsePhase(phaseText.value).None? then None
    else BuildRecord(v, token.value, path.value, page.value, notebook.value, ParsePhase(phaseText.value).value,
                     scanId.value)
  }

  /** The widths of the record's numbers. */
  predicate RecordFits(r: Record) {
    FitsI64(r.capturedAt) && FitsI64(r.updatedAt) && r.policy <= U32_MAX
  }

  /** A record parses back to itself exactly when it is well shaped and names a path and a layout;
      otherwise it is refused. */
  lemma RecordRoundTrip(r: Record)
    requires RecordFits(r)
    ensures ParseRecord(EncodeRecord(r)) ==
            if WellShaped(r) && r.stagingPath != "" && ValidLayout(r.layout) then Some(r) else None
  {
    var v := EncodeRecord(r);
    IdJsonReads(v, PageKey, r.page);
    IdJsonReads(v, NotebookKey, r.notebook);
    OptionalIdJsonReads(v, ScanKey, r.scanId);
    PhaseReads(r.phase);
    RecordFieldsRead(r);
  }

  lemma RecordFieldsRead(r: Record)
    requires RecordFits(r)
    ensures var v := EncodeRecord(r);
            && Get(v, SchemaVersionKey) == Number(SCHEMA_VERSION)
            && RequiredText(v, TokenKey) == (if r.token != "" then Some(r.token) else None)
            && RequiredText(v, StagingPathKey) == (if r.stagingPath != "" then Some(r.stagingPath) else None)
            && RequiredText(v, PhaseKey) == Some(PhaseText(r.phase))
            && RequiredText(v, LayoutKey) == (if r.layout != "" then Some(r.layout) else None)
            && RequiredI64(v, CapturedAtKey) == Some(r.capturedAt)
            && RequiredI64(v, UpdatedAtKey) == Some(r.updatedAt)
            && RequiredU32(v, PolicyKey) == Some(r.policy)
  {
    PhaseReads(r.phase);
  }

  /** Whatever the bytes, a record that parses is well shaped. */
  lemma ParsedRecordIsWellShaped(v: Json)
    requires ParseRecord(v).Some?
    ensures WellShaped(ParseRecord(v).value) && RecordFits(ParseRecord(v).value)
    ensures ParseRecord(EncodeRecord(ParseRecord(v).value)) == ParseRecord(v)
  {
    RecordRoundTrip(ParseRecord(v).value);
  }

  // ---- the batch session -------------------------------------------------------------------------

  function StatusText(status: EntryStatus): string {
    match status
    case Queued => "queued"
    case Saved => "saved"
    case NeedsReview => "needs_review"
  }

  function ParseStatus(text: string): Option<EntryStatus> {
    if text == "queued" then Some(Queued)
    else if text == "saved" then Some(Saved)
    else if text == "needs_review" then Some(NeedsReview)
    else None
  }

  lemma StatusReads(status: EntryStatus)
    ensures ParseStatus(StatusText(status)) == Some(status) && StatusText(status) != ""
    ensures StatusText(status) == if status == Queued then "queued" else if status == Saved then "saved"
                                  else "needs_review"
  {}

  function EncodeEntry(e: Entry): Json {
    Object(map[
      TokenKey := Text(e.token),
      PageKey := IdJson(e.page),
      CapturedAtKey := Number(e.capturedAt),
      StatusKey := Text(StatusText(e.status)),
      ScanKey := OptionalIdJson(e.scanId),
      DuplicateKey := Bool(e.duplicate),
      ReviewKey := OptionalIdJson(e.reviewId),
      MessageKey := if e.message.Some? then Text(e.message.value) else Null
    ])
  }

  function EncodeSession(s: Session): Json {
    Object(map[
      SchemaVersionKey := Number(SCHEMA_VERSION),
      SessionKey := Text(s.id),
      NotebookKey := IdJson(s.notebook),
      StartedAtKey := Number(s.startedAt),
      CompletedAtKey := if s.completedAt.Some? then Number(s.completedAt.value) else Null,
      EntriesKey := Array(seq(|s.entries|, i requires 0 <= i < |s.entries| => EncodeEntry(s.entries[i])))
    ])
  }

  function ParseEntry(v: Json): Option<Entry> {
    var token, page := RequiredText(v, TokenKey), RequiredId(v, PageKey);
    var capturedAt, statusText := RequiredI64(v, CapturedAtKey), RequiredText(v, StatusKey);
    var scanId, reviewId := OptionalId(v, ScanKey), OptionalId(v, ReviewKey);
    if token.None? || !ValidToken(token.value) || page.None? || capturedAt.None? || statusText.None? then None
    else
      var status := ParseStatus(statusText.value);
      if status.None? || scanId.Err? || reviewId.Err? then None
      else if (status.value == Saved) != scanId.value.Some? then None
      else Some(Entry(token.value, page.value, capturedAt.value, status.value, scanId.value, Flag(v, DuplicateKey),
                      reviewId.value, OptionalText(v, MessageKey)))
  }

  /** The entries in order, or nothing if one is refused or repeats a token. */
  function ParseEntries(items: seq<Json>): Option<seq<Entry>> {
    if items == [] then Some([])
    else
      var n := |items| - 1;
      var init, last := ParseEntries(items[..n]), ParseEntry(items[n]);
      if init.None? || last.None? || HasToken(init.value, last.value.token) then None
      else Some(init.value + [last.value])
  }

  function ParsedSession(v: Json): Option<Session> {
    var id, notebook := RequiredText(v, SessionKey), RequiredId(v, NotebookKey);
    var startedAt, completedAt := RequiredI64(v, StartedAtKey), OptionalI64(v, CompletedAtKey);
    if Get(v, SchemaVersionKey) != Number(SCHEMA_VERSION) then None
    else if id.None? || !ValidToken(id.value) || notebook.None? || startedAt.None? || startedAt.value <= 0 then None
    else if completedAt.Some? && completedAt.value < startedAt.value then None
    else if !Get(v, EntriesKey).Array? || |Get(v, EntriesKey).items| > MAX_ENTRIES then None
    else
      match ParseEntries(Get(v, EntriesKey).items)
      case None => None
      case Some(entries) => Some(Session(id.value, notebook.value, startedAt.value, completedAt, entries))
  }

  lemma {:induction false} PrefixRefused(items: seq<Json>, k: nat)
    requires k <= |items| && ParseEntries(items[..k]).None?
    ensures ParseEntries(items).None?
    decreases |items| - k
  {
    if k == |items| {
      assert items[..k] == items;
    } else {
      assert items[..k + 1][..k] == items[..k];
      PrefixRefused(items, k + 1);
    }
  }

  /** The loop over the entries: the tokens seen so far are remembered in a set. */
  method ParseItems(items: seq<Json>) returns (result: Option<seq<Entry>>)
    ensures result == ParseEntries(items)
  {
    var tokens: set<Token>, entries: seq<Entry> := {}, [];
    for i := 0 to |items|
      invariant ParseEntries(items[..i]) == Some(entries)
      invariant forall t :: t in tokens <==> HasToken(entries, t)
    {
      assert items[..i + 1][..i] == items[..i];
      var entry := ParseEntry(items[i]);
      if entry.None? || entry.value.token in tokens {
        PrefixRefused(items, i + 1);
        return None;
      }
      TokenAppended(entries, entry.value);
      tokens := tokens + {entry.value.token};
      entries := entries + [entry.value];
    }
    assert items[..|items|] == items;
    return Some(entries);
  }

  method ParseSession(v: Json) returns (result: Option<Session>)
    ensures result == ParsedSession(v)
  {
    if Get(v, SchemaVersionKey) != Number(SCHEMA_VERSION) {
      return None;
    }
    var id := RequiredText(v, SessionKey);
    var notebook := RequiredId(v, NotebookKey);
    var startedAt := RequiredI64(v, StartedAtKey);
    if id.None? || !ValidToken(id.value) || notebook.None? || startedAt.None? || startedAt.value <= 0 {
      return None;
    }
    var completedAt := OptionalI64(v, CompletedAtKey);
    if completedAt.Some? && completedAt.value < startedAt.value {
      return None;
    }
    var raw := Get(v, EntriesKey);
    if !raw.Array? || |raw.items| > MAX_ENTRIES {
      return None;
    }
    var entries := ParseItems(raw.items);
    if entries.None? {
      return None;
    }
    return Some(Session(id.value, notebook.value, startedAt.value, completedAt, entries.value));
  }

  lemma TokenAppended(entries: seq<Entry>, e: Entry)
    ensures forall t :: HasToken(entries + [e], t) <==> HasToken(entries, t) || t == e.token
  {
    forall t
      ensures HasToken(entries + [e], t) <==> HasToken(entries, t) || t == e.token
    {
      if HasToken(entries, t) {
        var i :| 0 <= i < |entries| && entries[i].token == t;
        assert (entries + [e])[i].token == t;
      }
      if t == e.token {
        assert (entries + [e])[|entries|].token == t;
      }
    }
  }

  // ---- the session round trip --------------------------------------------------------------------

  predicate EntryReadable(e: Entry) {
    ValidToken(e.token) && (e.status == Saved <==> e.scanId.Some?)
  }

  /** The widths of the session's times. */
  predicate SessionFits(s: Session) {
    && FitsI64(s.startedAt) && (s.completedAt.Some? ==> FitsI64(s.completedAt.value))
    && forall i :: 0 <= i < |s.entries| ==> FitsI64(s.entries[i].capturedAt)
  }

  lemma EntryRoundTrip(e: Entry)
    requires FitsI64(e.capturedAt)
    ensures ParseEntry(EncodeEntry(e)) == if EntryReadable(e) then Some(e) else None
  {
    var v := EncodeEntry(e);
    IdJsonReads(v, PageKey, e.page);
    OptionalIdJsonReads(v, ScanKey, e.scanId);
    OptionalIdJsonReads(v, ReviewKey, e.reviewId);
    StatusReads(e.status);
    EntryFieldsRead(e);
  }

  lemma EntryFieldsRead(e: Entry)
    requires FitsI64(e.capturedAt)
    ensures var v := EncodeEntry(e);
            && RequiredText(v, TokenKey) == (if e.token != "" then Some(e.token) else None)
            && RequiredText(v, StatusKey) == Some(StatusText(e.status))
            && RequiredI64(v, CapturedAtKey) == Some(e.capturedAt)
            && Flag(v, DuplicateKey) == e.duplicate
            && OptionalText(v, MessageKey) == e.message
  {
    StatusReads(e.status);
  }

  function EncodeEntries(entries: seq<Entry>): (items: seq<Json>)
    ensures |items| == |entries| && forall i :: 0 <= i < |entries| ==> items[i] == EncodeEntry(entries[i])
  {
    seq(|entries|, i requires 0 <= i < |entries| => EncodeEntry(entries[i]))
  }

  predicate EntriesReadable(entries: seq<Entry>) {
    && (forall i :: 0 <= i < |entries| ==> EntryReadable(entries[i]))
    && forall i, j :: 0 <= i < j < |entries| ==> entries[i].token != entries[j].token
  }

  lemma ReadableOneMore(entries: seq<Entry>, n: nat)
    requires n + 1 == |entries|
    ensures EntriesReadable(entries) <==>
            && EntriesReadable(entries[..n]) && EntryReadable(entries[n])
            && !HasToken(entries[..n], entries[n].token)
  {
    if EntriesReadable(entries[..n]) && EntryReadable(entries[n]) && !HasToken(entries[..n], entries[n].token) {
      forall i | 0 <= i < |entries|
        ensures EntryReadable(entries[i])
      {
        assert i < n ==> entries[i] == entries[..n][i];
      }
      forall i, j | 0 <= i < j < |entries|
        ensures entries[i].token != entries[j].token
      {
        assert entries[i] == entries[..n][i];
        assert j < n ==> entries[j] == entries[..n][j];
      }
    }
  }

  lemma {:induction false} EntriesRoundTrip(entries: seq<Entry>)
    requires forall i :: 0 <= i < |entries| ==> FitsI64(entries[i].capturedAt)
    ensures ParseEntries(EncodeEntries(entries)) == if EntriesReadable(entries) then Some(entries) else None
  {
    if entries != [] {
      var n := |entries| - 1;
      EntriesRoundTrip(entries[..n]);
      assert EncodeEntries(entries)[..n] == EncodeEntries(entries[..n]);
      EntryRoundTrip(entries[n]);
      ReadableOneMore(entries, n);
      assert entries[..n] + [entries[n]] == entries;
    }
  }

  /** A session parses back to itself exactly when the reader's rules hold of it; otherwise it is
      refused. */
  lemma SessionRoundTrip(s: Session)
    requires SessionFits(s)
    ensures ParsedSession(EncodeSession(s)) == if SessionReadable(s) then Some(s) else None
  {
    var v := EncodeSession(s);
    IdJsonReads(v, NotebookKey, s.notebook);
    assert Get(v, EntriesKey).items == EncodeEntries(s.entries);
    EntriesRoundTrip(s.entries);
    SessionReadableByEntries(s);
    SessionFieldsRead(s);
  }

  lemma SessionReadableByEntries(s: Session)
    ensures SessionReadable(s) <==>
            && ValidToken(s.id) && s.startedAt > 0 && (s.completedAt.Some? ==> s.completedAt.value >= s.startedAt)
            && |s.entries| <= MAX_ENTRIES && EntriesReadable(s.entries)
  {
    if EntriesReadable(s.entries) {
      forall i | 0 <= i < |s.entries|
        ensures ValidToken(s.entries[i].token) && (s.entries[i].status == Saved <==> s.entries[i].scanId.Some?)
      {
        assert EntryReadable(s.entries[i]);
      }
    }
  }

  lemma SessionFieldsRead(s: Session)
    requires SessionFits(s)
    ensures var v := EncodeSession(s);
            && Get(v, SchemaVersionKey) == Number(SCHEMA_VERSION)
            && RequiredText(v, SessionKey) == (if s.id != "" then Some(s.id) else None)
            && RequiredI64(v, StartedAtKey) == Some(s.startedAt)
            && OptionalI64(v, CompletedAtKey) == s.completedAt
            && Get(v, EntriesKey).Array? && |Get(v, EntriesKey).items| == |s.entries|
  {}

  /** Whatever the bytes, a session that parses obeys the reader's rules. */
  lemma {:induction false} ParsedEntriesAreReadable(items: seq<Json>)
    requires ParseEntries(items).Some?
    ensures EntriesReadable(ParseEntries(items).value) && |ParseEntries(items).value| == |items|
  {
    if items != [] {
      var n := |items| - 1;
      ParsedEntriesAreReadable(items[..n]);
      var entries := ParseEntries(items).value;
      assert entries[..n] == ParseEntries(items[..n]).value;
      ReadableOneMore(entries, n);
    }
  }

  lemma ParsedSessionIsReadable(v: Json)
    requires ParsedSession(v).Some?
    ensures SessionReadable(ParsedSession(v).value)
  {
    ParsedEntriesAreReadable(Get(v, EntriesKey).items);
    SessionReadableByEntries(ParsedSession(v).value);
  }
}
