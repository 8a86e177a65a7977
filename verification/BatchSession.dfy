/**
 * A batch scan session: the list of captures queued for one notebook, and the edits the batch
 * scanner makes to it. Every edit is a function from session to session; the core's methods apply
 * it to the session they read and persist the result.
 */
module BatchSession {
  import opened Prelude
  import opened IdCodec
  import opened ScanRecords

  const MAX_ENTRIES := 128
  const RECOVERED_MESSAGE :=
    "Saved scan recovered after interruption; review metadata may still need reconciliation."
  const LOST_RECORD_MESSAGE :=
    "The batch capture lost its scanner recovery record; no registration was retried."
  const DUPLICATE_MESSAGE := "This page identity already appears in the current batch."
  const SAVED_MESSAGE := "Saved. OCR remains queued until the OCR milestone is available."
  const REVIEW_MESSAGE := "Saved; review is required before treating this scan as resolved."

  datatype EntryStatus = Queued | Saved | NeedsReview

  datatype Entry = Entry(
    token: Token,
    page: Id,
    capturedAt: int,
    status: EntryStatus,
    scanId: Option<Id>,
    duplicate: bool,
    reviewId: Option<Id>,
    message: Option<string>
  )

  datatype Session = Session(
    id: string,
    notebook: Id,
    startedAt: int,
    completedAt: Option<int>,
    entries: seq<Entry>
  )

  // ---- what holds of every session the core writes -------------------------------------------

  ghost predicate DistinctTokens(entries: seq<Entry>) {
    forall i, j :: 0 <= i < j < |entries| ==> entries[i].token != entries[j].token
  }

  ghost predicate SavedIffScan(entries: seq<Entry>) {
    forall i :: 0 <= i < |entries| ==> (entries[i].status == Saved <==> entries[i].scanId.Some?)
  }

  predicate SomeQueued(entries: seq<Entry>) {
    exists i :: 0 <= i < |entries| && entries[i].status == Queued
  }

  predicate HasPage(entries: seq<Entry>, page: Id) {
    exists i :: 0 <= i < |entries| && entries[i].page == page
  }

  /** The flag marks exactly the entries whose page an earlier entry already has. */
  ghost predicate DuplicatesFlagged(entries: seq<Entry>) {
    forall i {:trigger entries[..i]} :: 0 <= i < |entries| ==>
      (entries[i].duplicate <==> HasPage(entries[..i], entries[i].page))
  }

  ghost predicate SessionOk(s: Session) {
    && |s.entries| <= MAX_ENTRIES
    && DistinctTokens(s.entries)
    && SavedIffScan(s.entries)
    && DuplicatesFlagged(s.entries)
    && (s.completedAt.Some? ==> !SomeQueued(s.entries))
  }

  // ---- looking entries up --------------------------------------------------------------------

  predicate HasToken(entries: seq<Entry>, token: Token) {
    exists i :: 0 <= i < |entries| && entries[i].token == token
  }

  /** The position of the first entry with the token. */
  function FindToken(entries: seq<Entry>, token: Token): (i: nat)
    requires HasToken(entries, token)
    ensures i < |entries| && entries[i].token == token
    ensures forall j :: 0 <= j < i ==> entries[j].token != token
  {
    if entries[0].token == token then 0
    else
      assert HasToken(entries[1..], token) by {
        var k :| 0 <= k < |entries| && entries[k].token == token;
        assert entries[1..][k - 1].token == token;
      }
      1 + FindToken(entries[1..], token)
  }

  // ---- the edits -----------------------------------------------------------------------------

  function QueuedEntry(entries: seq<Entry>, r: Record): Entry {
    var duplicate := HasPage(entries, r.page);
    Entry(r.token, r.page, r.capturedAt, Queued, None, duplicate, None,
          if duplicate then Some(DUPLICATE_MESSAGE) else None)
  }

  function WithCapture(s: Session, r: Record): Session {
    s.(entries := s.entries + [QueuedEntry(s.entries, r)])
  }

  function SavedEntry(e: Entry, scanId: Id, reviewId: Option<Id>, message: Option<string>): Entry {
    e.(status := Saved, scanId := Some(scanId), reviewId := reviewId, message := message)
  }

  function ReviewedEntry(e: Entry, reviewId: Id, message: string): Entry {
    e.(status := NeedsReview, reviewId := Some(reviewId), message := Some(message))
  }

  function WithEntry(s: Session, i: nat, e: Entry): Session
    requires i < |s.entries|
  {
    s.(entries := s.entries[i := e])
  }

  /** A queued entry after recovery has been consulted; any other entry is left alone. */
  function ReconciledEntry(e: Entry, records: map<Token, Record>): Entry {
    if e.status != Queued then e
    else if e.token !in records then e.(status := NeedsReview, message := Some(LOST_RECORD_MESSAGE))
    else if records[e.token].phase == Committed then
      e.(status := Saved, scanId := records[e.token].scanId, message := Some(RECOVERED_MESSAGE))
    else e
  }

  function ReconciledEntries(entries: seq<Entry>, records: map<Token, Record>): (r: seq<Entry>)
    ensures |r| == |entries|
  {
    seq(|entries|, i requires 0 <= i < |entries| => ReconciledEntry(entries[i], records))
  }

  function ReconciledSession(s: Session, records: map<Token, Record>): Session {
    s.(entries := ReconciledEntries(s.entries, records))
  }

  // ---- every edit keeps the session rules ----------------------------------------------------

  ghost predicate RecordsShaped(records: map<Token, Record>) {
    forall t :: t in records ==> WellShaped(records[t])
  }

  lemma PrefixPages(a: seq<Entry>, b: seq<Entry>, page: Id)
    requires |a| == |b|
    requires forall i :: 0 <= i < |a| ==> a[i].page == b[i].page
    ensures HasPage(a, page) <==> HasPage(b, page)
  {
    if HasPage(a, page) {
      var i :| 0 <= i < |a| && a[i].page == page;
      assert b[i].page == page;
    }
    if HasPage(b, page) {
      var i :| 0 <= i < |b| && b[i].page == page;
      assert a[i].page == page;
    }
  }

  /** Rewriting entries without touching tokens, pages or flags keeps tokens and flags right. */
  lemma RewriteKeepsIdentity(a: seq<Entry>, b: seq<Entry>)
    requires |a| == |b|
    requires forall i :: 0 <= i < |a| ==>
               a[i].token == b[i].token && a[i].page == b[i].page && a[i].duplicate == b[i].duplicate
    ensures DistinctTokens(a) ==> DistinctTokens(b)
    ensures DuplicatesFlagged(a) ==> DuplicatesFlagged(b)
  {
    forall i | 0 <= i < |a|
      ensures HasPage(a[..i], a[i].page) <==> HasPage(b[..i], b[i].page)
    {
      PrefixPages(a[..i], b[..i], a[i].page);
    }
  }

  lemma CaptureKeepsSession(s: Session, r: Record)
    requires SessionOk(s) && s.completedAt.None?
    requires |s.entries| < MAX_ENTRIES && !HasToken(s.entries, r.token)
    ensures SessionOk(WithCapture(s, r))
  {
    var after := WithCapture(s, r).entries;
    assert after[..|s.entries|] == s.entries;
    forall i | 0 <= i < |s.entries|
      ensures after[..i] == s.entries[..i]
    {}
  }

  lemma EntryKeepsSession(s: Session, i: nat, e: Entry)
    requires SessionOk(s) && i < |s.entries|
    requires e.token == s.entries[i].token && e.page == s.entries[i].page
    requires e.duplicate == s.entries[i].duplicate && e.status != Queued
    requires e.status == Saved <==> e.scanId.Some?
    ensures SessionOk(WithEntry(s, i, e))
  {
    RewriteKeepsIdentity(s.entries, WithEntry(s, i, e).entries);
  }

  lemma ReconcileKeepsSession(s: Session, records: map<Token, Record>)
    requires SessionOk(s) && RecordsShaped(records)
    ensures SessionOk(ReconciledSession(s, records))
  {
    RewriteKeepsIdentity(s.entries, ReconciledEntries(s.entries, records));
  }

  // ---- what the flags count ------------------------------------------------------------------

  function Pages(entries: seq<Entry>): set<Id> {
    set i | 0 <= i < |entries| :: entries[i].page
  }

  function UnflaggedCount(entries: seq<Entry>): nat {
    if entries == [] then 0
    else UnflaggedCount(entries[..|entries| - 1]) + (if entries[|entries| - 1].duplicate then 0 else 1)
  }

  /** The unflagged entries count the distinct pages of the batch. */
  lemma {:induction false} UnflaggedCountsPages(entries: seq<Entry>)
    requires DuplicatesFlagged(entries)
    ensures UnflaggedCount(entries) == |Pages(entries)|
  {
    if entries != [] {
      var n := |entries| - 1;
      var init := entries[..n];
      forall i | 0 <= i < n
        ensures init[..i] == entries[..i]
      {}
      UnflaggedCountsPages(init);
      assert Pages(entries) == Pages(init) + {entries[n].page} by {
        forall p | p in Pages(entries)
          ensures p in Pages(init) + {entries[n].page}
        {
          var i :| 0 <= i < |entries| && entries[i].page == p;
          if i < n { assert init[i].page == p; }
        }
        forall p | p in Pages(init)
          ensures p in Pages(entries)
        {
          var i :| 0 <= i < |init| && init[i].page == p;
          assert entries[i].page == p;
        }
        assert entries[n].page in Pages(entries);
      }
      assert HasPage(init, entries[n].page) <==> entries[n].page in Pages(init) by {
        if HasPage(init, entries[n].page) {
          var i :| 0 <= i < |init| && init[i].page == entries[n].page;
        }
      }
    }
  }
}
