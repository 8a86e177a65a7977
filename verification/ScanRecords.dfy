/** The scanner recovery record and the rules a stored record has to meet before it is believed. */
module ScanRecords {
  import opened Prelude
  import opened IdCodec

  type Path = string
  type Token = string

  const MAX_TOKEN_BYTES := 64

  datatype Phase = Captured | PreviewReady | Registering | Committed

  datatype Record = Record(
    token: Token,
    stagingPath: Path,
    page: Id,
    notebook: Id,
    capturedAt: int,
    layout: string,
    policy: nat,
    phase: Phase,
    scanId: Option<Id>,
    updatedAt: int
  )

  predicate TokenLetter(c: char) {
    '0' <= c <= '9' || 'A' <= c <= 'Z' || 'a' <= c <= 'z' || c == '-' || c == '_'
  }

  predicate ValidToken(token: Token) {
    && 0 < |token| <= MAX_TOKEN_BYTES
    && forall i :: 0 <= i < |token| ==> TokenLetter(token[i])
  }

  /** The checks `parse_scanner_recovery` makes on the record's own fields. */
  predicate WellShaped(r: Record) {
    && ValidToken(r.token)
    && r.capturedAt > 0
    && r.policy > 0
    && r.updatedAt > 0
    && (r.phase == Committed <==> r.scanId.Some?)
  }

  /** A record that may still be discarded: nothing has been registered for it. */
  predicate Discardable(r: Record) {
    r.phase == Captured || r.phase == PreviewReady
  }

  function Advanced(r: Record, next: Phase, scanId: Option<Id>, now: int): Record {
    r.(phase := next, scanId := scanId, updatedAt := now)
  }
}
