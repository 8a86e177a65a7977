/**
 * Page codes and their version 1 payload text: colon-separated fields closed by a checksum. The
 * checksum function is a parameter; everything here holds whatever it computes.
 */
module QrCodes {
  import opened Prelude
  import opened Numerals
  import opened IdCodec

  type Layout = string
  type Checksum = string -> nat

  const MAX_NUMERIC_FIELD := 999_999
  const MAX_PAYLOAD_LENGTH := 128
  const MAX_LAYOUT_LENGTH := 20
  const CHECKSUM_LENGTH := 7

  datatype PageCode =
    | NotebookSetup(setupDesign: Id)
    | NotebookPageCode(design: Id, number: nat, layout: Layout)
    | SmartPageCode(smartPage: Id, layout: Layout, visible: Option<nat>, pageSet: Option<Id>)

  datatype ParseError =
    | TooLong
    | InvalidCharacter
    | InvalidMagic
    | UnsupportedVersion
    | UnknownType
    | WrongFieldCount
    | InvalidId
    | InvalidNumber
    | InvalidLayout
    | UnknownLayout
    | ChecksumMismatch

  // ---- splitting and joining -------------------------------------------------------------------

  function Join(parts: seq<string>): string
    requires parts != []
  {
    if |parts| == 1 then parts[0] else parts[0] + ":" + Join(parts[1..])
  }

  function Split(s: string): (parts: seq<string>)
    ensures parts != []
  {
    if s == "" then [""]
    else if s[0] == ':' then [""] + Split(s[1..])
    else
      var rest := Split(s[1..]);
      [[s[0]] + rest[0]] + rest[1..]
  }

  predicate ColonFree(s: string) {
    forall i :: 0 <= i < |s| ==> s[i] != ':'
  }

  lemma {:induction false} SplitHead(field: string, rest: string)
    requires ColonFree(field)
    ensures Split(field + ":" + rest) == [field] + Split(rest)
  {
    if field == "" {
      assert ("" + ":" + rest)[1..] == rest;
    } else {
      SplitHead(field[1..], rest);
      var whole := field + ":" + rest;
      assert whole[1..] == field[1..] + ":" + rest;
      assert [field[0]] + field[1..] == field;
    }
  }

  lemma {:induction false} SplitSingle(field: string)
    requires ColonFree(field)
    ensures Split(field) == [field]
  {
    if field != "" {
      SplitSingle(field[1..]);
      assert [field[0]] + field[1..] == field;
    }
  }

  lemma {:induction false} SplitJoin(parts: seq<string>)
    requires parts != [] && forall i :: 0 <= i < |parts| ==> ColonFree(parts[i])
    ensures Split(Join(parts)) == parts
  {
    if |parts| == 1 {
      SplitSingle(parts[0]);
    } else {
      SplitHead(parts[0], Join(parts[1..]));
      SplitJoin(parts[1..]);
    }
  }

  lemma {:induction false} JoinSplit(s: string)
    ensures Join(Split(s)) == s
  {
    if s != "" {
      JoinSplit(s[1..]);
      var rest := Split(s[1..]);
      if s[0] == ':' {
        assert ([""] + rest)[1..] == rest;
      } else {
        var parts := Split(s);
        assert parts == [[s[0]] + rest[0]] + rest[1..];
        if |rest| == 1 {
          assert [s[0]] + s[1..] == s;
        } else {
          assert parts[1..] == rest[1..];
          assert [s[0]] + (rest[0] + ":" + Join(rest[1..])) == [s[0]] + rest[0] + ":" + Join(rest[1..]);
        }
      }
    }
  }

  /** Dropping the last field leaves the checksummed text without its final colon. */
  lemma {:induction false} JoinLast(parts: seq<string>, last: string)
    requires parts != []
    ensures Join(parts + [last]) == Join(parts) + ":" + last
  {
    if |parts| > 1 {
      JoinLast(parts[1..], last);
      assert (parts + [last])[1..] == parts[1..] + [last];
    } else {
      assert (parts + [last])[1..] == [last];
    }
  }

  // ---- fields ----------------------------------------------------------------------------------

  predicate DigitChar(c: char) {
    '0' <= c <= '9'
  }

  function DigitOf(c: char): (d: nat)
    requires DigitChar(c)
    ensures d < 10
  {
    (c - '0') as nat
  }

  function CharOf(d: nat): (c: char)
    requires d < 10
    ensures DigitChar(c) && DigitOf(c) == d && c == "0123456789"[d]
  {
    (d as char) + '0'
  }

  function Decimal(n: nat): (s: string)
    ensures |s| > 0 && forall i :: 0 <= i < |s| ==> DigitChar(s[i])
  {
    if n < 10 then [CharOf(n)] else Decimal(n / 10) + [CharOf(n % 10)]
  }

  function DecimalValue(s: string): nat
    requires forall i :: 0 <= i < |s| ==> DigitChar(s[i])
  {
    if s == "" then 0 else DecimalValue(s[..|s| - 1]) * 10 + DigitOf(s[|s| - 1])
  }

  lemma CharOfDigit(c: char)
    requires DigitChar(c)
    ensures CharOf(DigitOf(c)) == c
  {}

  lemma SplitDecimal(high: nat, digit: nat)
    requires digit < 10
    ensures (high * 10 + digit) / 10 == high && (high * 10 + digit) % 10 == digit
  {}

  function ParseNumber(s: string): Option<nat> {
    if s == "" || (exists i :: 0 <= i < |s| && !DigitChar(s[i])) then None
    else if |s| > 1 && s[0] == '0' then None
    else if DecimalValue(s) > MAX_NUMERIC_FIELD then None
    else Some(DecimalValue(s))
  }

  lemma {:induction false} DecimalReads(n: nat)
    ensures DecimalValue(Decimal(n)) == n
    ensures |Decimal(n)| > 1 ==> Decimal(n)[0] != '0'
    ensures Decimal(n)[0] == '0' <==> n == 0
    ensures n < 10 <==> |Decimal(n)| == 1
  {
    if n >= 10 {
      DecimalReads(n / 10);
      assert Decimal(n)[..|Decimal(n)| - 1] == Decimal(n / 10);
    }
  }

  lemma {:induction false} DecimalIsCanonical(s: string)
    requires s != "" && forall i :: 0 <= i < |s| ==> DigitChar(s[i])
    requires |s| > 1 ==> s[0] != '0'
    ensures Decimal(DecimalValue(s)) == s
    ensures DecimalValue(s) == 0 ==> s == "0"
  {
    var c := s[|s| - 1];
    CharOfDigit(c);
    if |s| > 1 {
      var init := s[..|s| - 1];
      DecimalIsCanonical(init);
      SplitDecimal(DecimalValue(init), DigitOf(c));
      assert init + [c] == s;
    } else {
      assert s[..0] == "" && s == [c];
    }
  }

  /** A field reads as a number exactly when it is that number's text, and the number is in range. */
  lemma NumberField(s: string, n: nat)
    ensures ParseNumber(s) == Some(n) <==> n <= MAX_NUMERIC_FIELD && s == Decimal(n)
  {
    DecimalReads(n);
    if ParseNumber(s) == Some(n) {
      DecimalIsCanonical(s);
    }
  }

  function ParseId(s: string): Option<Id> {
    match Decoding(s)
    case Ok(bytes) =>
      if |bytes| == BYTE_LENGTH && FromBigEndian(bytes) < ID_LIMIT then Some(FromBigEndian(bytes)) else None
    case Err(_) => None
  }

  lemma IdField(s: string, id: Id)
    ensures ParseId(s) == Some(id) <==> s == TextOf(id)
  {
    DecodingOfText(id);
    ValueRoundTrip(id);
    EncodeUndoesDecode(s);
  }

  predicate LayoutChar(c: char) {
    'A' <= c <= 'Z' || DigitChar(c) || c == '-'
  }

  predicate ValidLayout(s: Layout) {
    0 < |s| <= MAX_LAYOUT_LENGTH && forall i :: 0 <= i < |s| ==> LayoutChar(s[i])
  }

  function ParseLayout(s: string, known: Layout -> bool): Result<Layout, ParseError> {
    if !ValidLayout(s) then Err(InvalidLayout) else if !known(s) then Err(UnknownLayout) else Ok(s)
  }

  function NumberOrDash(n: Option<nat>): string {
    if n.Some? then Decimal(n.value) else "-"
  }

  function IdOrDash(id: Option<Id>): string {
    if id.Some? then TextOf(id.value) else "-"
  }

  // ---- the payload -----------------------------------------------------------------------------

  function Fields(code: PageCode): (fields: seq<string>)
    ensures fields != []
  {
    match code
    case NotebookSetup(design) => ["A2D", "1", "S", TextOf(design)]
    case NotebookPageCode(design, number, layout) => ["A2D", "1", "B", TextOf(design), Decimal(number), layout]
    case SmartPageCode(smartPage, layout, visible, pageSet) =>
      ["A2D", "1", "M", TextOf(smartPage), layout, NumberOrDash(visible), IdOrDash(pageSet)]
  }

  function ChecksumText(checksum: Checksum, text: string): (s: string)
    ensures |s| == CHECKSUM_LENGTH
  {
    Spell(DigitsOf(32, CHECKSUM_LENGTH, checksum(text)))
  }

  predicate NumbersFit(code: PageCode) {
    match code
    case NotebookSetup(_) => true
    case NotebookPageCode(_, number, _) => number <= MAX_NUMERIC_FIELD
    case SmartPageCode(_, _, visible, _) => visible.Some? ==> visible.value <= MAX_NUMERIC_FIELD
  }

  function Encode(checksum: Checksum, code: PageCode): Option<string> {
    if !NumbersFit(code) then None
    else
      var text := Join(Fields(code)) + ":";
      Some(text + ChecksumText(checksum, text))
  }

  predicate PayloadChar(c: char) {
    LayoutChar(c) || c == ':'
  }

  function ParseFields(parts: seq<string>, known: Layout -> bool): Result<PageCode, ParseError> {
    if parts == [] || parts[0] != "A2D" then Err(InvalidMagic)
    else if |parts| < 2 then Err(WrongFieldCount)
    else if parts[1] != "1" then Err(UnsupportedVersion)
    else if |parts| < 3 then Err(WrongFieldCount)
    else if parts[2] == "S" then
      if |parts| != 5 then Err(WrongFieldCount) else ParseSetup(parts[3])
    else if parts[2] == "B" then
      if |parts| != 7 then Err(WrongFieldCount) else ParseNotebookPage(parts[3], parts[4], parts[5], known)
    else if parts[2] == "M" then
      if |parts| != 8 then Err(WrongFieldCount)
      else ParseSmartPage(parts[3], parts[4], parts[5], parts[6], known)
    else Err(UnknownType)
  }

  function ParseSetup(design: string): Result<PageCode, ParseError> {
    match ParseId(design)
    case Some(id) => Ok(NotebookSetup(id))
    case None => Err(InvalidId)
  }

  function ParseNotebookPage(design: string, number: string, layout: string, known: Layout -> bool)
    : Result<PageCode, ParseError>
  {
    if ParseId(design).None? then Err(InvalidId)
    else if ParseNumber(number).None? then Err(InvalidNumber)
    else
      match ParseLayout(layout, known)
      case Ok(l) => Ok(NotebookPageCode(ParseId(design).value, ParseNumber(number).value, l))
      case Err(e) => Err(e)
  }

  function ParseSmartPage(smartPage: string, layout: string, visible: string, pageSet: string,
                          known: Layout -> bool)
    : Result<PageCode, ParseError>
  {
    if ParseId(smartPage).None? then Err(InvalidId)
    else if ParseLayout(layout, known).Err? then Err(ParseLayout(layout, known).error)
    else if visible != "-" && ParseNumber(visible).None? then Err(InvalidNumber)
    else if pageSet != "-" && ParseId(pageSet).None? then Err(InvalidId)
    else Ok(SmartPageCode(ParseId(smartPage).value, layout,
                          if visible == "-" then None else ParseNumber(visible),
                          if pageSet == "-" then None else ParseId(pageSet)))
  }

  function Parse(checksum: Checksum, known: Layout -> bool, payload: string): Result<PageCode, ParseError> {
    if |payload| > MAX_PAYLOAD_LENGTH then Err(TooLong)
    else if exists i :: 0 <= i < |payload| && !PayloadChar(payload[i]) then Err(InvalidCharacter)
    else
      var parts := Split(payload);
      match ParseFields(parts, known)
      case Err(e) => Err(e)
      case Ok(code) =>
        if |parts| < 2 then Err(WrongFieldCount)
        else if parts[|parts| - 1] != ChecksumText(checksum, Join(parts[..|parts| - 1]) + ":") then
          Err(ChecksumMismatch)
        else Ok(code)
  }

  // ---- parsing fields inverts writing them -----------------------------------------------------

  predicate LayoutAccepted(code: PageCode, known: Layout -> bool) {
    match code
    case NotebookSetup(_) => true
    case NotebookPageCode(_, _, layout) => ValidLayout(layout) && known(layout)
    case SmartPageCode(_, layout, _, _) => ValidLayout(layout) && known(layout)
  }

  /** No id or number is written as a dash. */
  lemma DashIsNoValue(n: nat, id: Id)
    ensures Decimal(n) != "-" && TextOf(id) != "-"
  {
    assert DigitChar(Decimal(n)[0]);
    assert |TextOf(id)| == TEXT_LENGTH;
  }

  lemma SetupField(design: string, code: PageCode)
    ensures ParseSetup(design) == Ok(code) <==> code.NotebookSetup? && design == TextOf(code.setupDesign)
  {
    if ParseSetup(design) == Ok(code) {
      IdField(design, code.setupDesign);
    }
    if code.NotebookSetup? {
      IdField(design, code.setupDesign);
    }
  }

  lemma NotebookPageFields(design: string, number: string, layout: string, known: Layout -> bool, code: PageCode)
    ensures ParseNotebookPage(design, number, layout, known) == Ok(code) <==>
            && code.NotebookPageCode? && NumbersFit(code) && LayoutAccepted(code, known)
            && design == TextOf(code.design) && number == Decimal(code.number) && layout == code.layout
  {
    if code.NotebookPageCode? {
      IdField(design, code.design);
      NumberField(number, code.number);
    }
  }

  lemma SmartPageFields(smartPage: string, layout: string, visible: string, pageSet: string,
                        known: Layout -> bool, code: PageCode)
    ensures ParseSmartPage(smartPage, layout, visible, pageSet, known) == Ok(code) <==>
            && code.SmartPageCode? && NumbersFit(code) && LayoutAccepted(code, known)
            && smartPage == TextOf(code.smartPage) && layout == code.layout
            && visible == NumberOrDash(code.visible) && pageSet == IdOrDash(code.pageSet)
  {
    if code.SmartPageCode? {
      IdField(smartPage, code.smartPage);
      OptionalNumberField(visible, code.visible);
      OptionalIdField(pageSet, code.pageSet);
    }
  }

  lemma OptionalNumberField(s: string, n: Option<nat>)
    ensures n.Some? && n.value > MAX_NUMERIC_FIELD ==> s == "-" || ParseNumber(s) != n
    ensures n.None? || n.value <= MAX_NUMERIC_FIELD ==>
              (s == NumberOrDash(n) <==> (if s == "-" then n.None? else ParseNumber(s).Some? && ParseNumber(s) == n))
  {
    if n.Some? {
      NumberField(s, n.value);
      DashIsNoValue(n.value, 0);
    }
  }

  lemma OptionalIdField(s: string, id: Option<Id>)
    ensures s == IdOrDash(id) <==> (if s == "-" then id.None? else ParseId(s).Some? && ParseId(s) == id)
  {
    if id.Some? {
      IdField(s, id.value);
      DashIsNoValue(0, id.value);
    }
  }

  /** A field list parses to a code exactly when it is that code's fields and a checksum field. */
  lemma FieldsParse(parts: seq<string>, known: Layout -> bool, code: PageCode)
    requires parts != []
    ensures ParseFields(parts, known) == Ok(code) <==>
            && NumbersFit(code) && LayoutAccepted(code, known)
            && parts[..|parts| - 1] == Fields(code)
  {
    var body := parts[..|parts| - 1];
    if |parts| == 5 && parts[0] == "A2D" && parts[1] == "1" && parts[2] == "S" {
      SetupField(parts[3], code);
      assert body == ["A2D", "1", "S", parts[3]];
    } else if |parts| == 7 && parts[0] == "A2D" && parts[1] == "1" && parts[2] == "B" {
      NotebookPageFields(parts[3], parts[4], parts[5], known, code);
      assert body == ["A2D", "1", "B", parts[3], parts[4], parts[5]];
    } else if |parts| == 8 && parts[0] == "A2D" && parts[1] == "1" && parts[2] == "M" {
      SmartPageFields(parts[3], parts[4], parts[5], parts[6], known, code);
      assert body == ["A2D", "1", "M", parts[3], parts[4], parts[5], parts[6]];
    } else {
      NotThreeShapes(parts, code);
    }
  }

  lemma NotThreeShapes(parts: seq<string>, code: PageCode)
    requires parts != []
    requires !(|parts| == 5 && parts[0] == "A2D" && parts[1] == "1" && parts[2] == "S")
    requires !(|parts| == 7 && parts[0] == "A2D" && parts[1] == "1" && parts[2] == "B")
    requires !(|parts| == 8 && parts[0] == "A2D" && parts[1] == "1" && parts[2] == "M")
    ensures parts[..|parts| - 1] != Fields(code)
  {}

  // ---- every field is short and plain ----------------------------------------------------------

  predicate PlainField(s: string, limit: nat) {
    |s| <= limit && forall i :: 0 <= i < |s| ==> LayoutChar(s[i])
  }

  lemma AlphabetIsPlain(c: char)
    requires c in ALPHABET
    ensures LayoutChar(c)
  {}

  lemma IdFieldIsPlain(id: Id)
    ensures PlainField(TextOf(id), TEXT_LENGTH)
  {
    TextOfIsCanonical(id);
    var text := TextOf(id);
    forall i | 0 <= i < |text|
      ensures LayoutChar(text[i])
    {
      assert text[i] in ALPHABET;
      AlphabetIsPlain(text[i]);
    }
  }

  lemma {:induction false} NumberFieldIsShort(n: nat, width: nat)
    requires width > 0 && n < Power(10, width)
    ensures |Decimal(n)| <= width
  {
    if n >= 10 {
      assert Power(10, 1) == 10;
      NumberFieldIsShort(n / 10, width - 1);
    }
  }

  lemma NumberFieldIsPlain(n: nat)
    requires n <= MAX_NUMERIC_FIELD
    ensures PlainField(Decimal(n), 6)
  {
    assert Power(10, 2) == 100 && Power(10, 4) == 10_000 && Power(10, 6) == 1_000_000;
    NumberFieldIsShort(n, 6);
  }

  lemma ChecksumIsPlain(checksum: Checksum, text: string)
    ensures PlainField(ChecksumText(checksum, text), CHECKSUM_LENGTH)
  {
    var digits := DigitsOf(32, CHECKSUM_LENGTH, checksum(text));
    forall i | 0 <= i < CHECKSUM_LENGTH
      ensures LayoutChar(ChecksumText(checksum, text)[i])
    {
      AlphabetIsPlain(ALPHABET[digits[i]]);
    }
  }

  function FieldLimit(k: nat): nat {
    if k == 3 || k == 6 then 26 else if k < 3 then 3 else if k == 7 then 7 else 20
  }

  lemma FieldsArePlain(code: PageCode, known: Layout -> bool)
    requires NumbersFit(code) && LayoutAccepted(code, known)
    ensures forall k :: 0 <= k < |Fields(code)| ==> PlainField(Fields(code)[k], FieldLimit(k))
  {
    match code
    case NotebookSetup(design) => IdFieldIsPlain(design);
    case NotebookPageCode(design, number, layout) =>
      IdFieldIsPlain(design);
      NumberFieldIsPlain(number);
    case SmartPageCode(smartPage, layout, visible, pageSet) =>
      IdFieldIsPlain(smartPage);
      if visible.Some? {
        NumberFieldIsPlain(visible.value);
      }
      if pageSet.Some? {
        IdFieldIsPlain(pageSet.value);
      }
  }

  function TotalLength(parts: seq<string>): nat {
    if parts == [] then 0 else |parts[0]| + 1 + TotalLength(parts[1..])
  }

  lemma {:induction false} JoinIsPlain(parts: seq<string>)
    requires parts != [] && forall k :: 0 <= k < |parts| ==> PlainField(parts[k], |parts[k]|)
    ensures |Join(parts)| + 1 == TotalLength(parts)
    ensures forall i :: 0 <= i < |Join(parts)| ==> PayloadChar(Join(parts)[i])
  {
    if |parts| > 1 {
      JoinIsPlain(parts[1..]);
      var head := parts[0] + ":";
      forall i | 0 <= i < |Join(parts)|
        ensures PayloadChar(Join(parts)[i])
      {
        if i < |parts[0]| {
          assert LayoutChar(parts[0][i]);
        } else if i > |parts[0]| {
          assert Join(parts)[i] == Join(parts[1..])[i - |parts[0]| - 1];
        }
      }
    }
  }

  /** The longest the fields from `k` on can be, with a colon after each. */
  function Budget(k: nat): nat
    decreases 8 - k
  {
    if k >= 8 then 0 else FieldLimit(k) + 1 + Budget(k + 1)
  }

  lemma {:induction false} TotalWithinBudget(parts: seq<string>, k: nat)
    requires k <= |parts| <= 8
    requires forall i :: 0 <= i < |parts| ==> |parts[i]| <= FieldLimit(i)
    ensures TotalLength(parts[k..]) <= Budget(k)
    decreases |parts| - k
  {
    if k < |parts| {
      TotalWithinBudget(parts, k + 1);
      assert parts[k..][1..] == parts[k + 1..];
    }
  }

  lemma BudgetFits()
    ensures Budget(0) <= MAX_PAYLOAD_LENGTH
  {
    assert Budget(4) == 77;
  }

  // ---- the theorem -----------------------------------------------------------------------------

  lemma EncodedParts(checksum: Checksum, code: PageCode, payload: string)
    requires Encode(checksum, code) == Some(payload)
    ensures var crc := ChecksumText(checksum, Join(Fields(code)) + ":");
            payload == Join(Fields(code) + [crc])
  {
    JoinLast(Fields(code), ChecksumText(checksum, Join(Fields(code)) + ":"));
  }

  lemma PartsArePlain(checksum: Checksum, known: Layout -> bool, code: PageCode)
    requires LayoutAccepted(code, known) && Encode(checksum, code).Some?
    ensures var parts := Fields(code) + [ChecksumText(checksum, Join(Fields(code)) + ":")];
            forall k :: 0 <= k < |parts| ==>
              PlainField(parts[k], |parts[k]|) && |parts[k]| <= FieldLimit(k) && ColonFree(parts[k])
  {
    var parts := Fields(code) + [ChecksumText(checksum, Join(Fields(code)) + ":")];
    FieldsArePlain(code, known);
    ChecksumIsPlain(checksum, Join(Fields(code)) + ":");
    forall k | 0 <= k < |parts|
      ensures PlainField(parts[k], |parts[k]|) && |parts[k]| <= FieldLimit(k) && ColonFree(parts[k])
    {
      assert k < |Fields(code)| ==> PlainField(Fields(code)[k], FieldLimit(k));
    }
  }

  /** A known code's text is short, plain, and splits into its fields and the checksum. */
  lemma EncodedIsWellFormed(checksum: Checksum, known: Layout -> bool, code: PageCode, payload: string)
    requires Encode(checksum, code) == Some(payload) && LayoutAccepted(code, known)
    ensures |payload| <= MAX_PAYLOAD_LENGTH
    ensures forall i :: 0 <= i < |payload| ==> PayloadChar(payload[i])
    ensures Split(payload) == Fields(code) + [ChecksumText(checksum, Join(Fields(code)) + ":")]
  {
    var parts := Fields(code) + [ChecksumText(checksum, Join(Fields(code)) + ":")];
    EncodedParts(checksum, code, payload);
    PartsArePlain(checksum, known, code);
    JoinIsPlain(parts);
    TotalWithinBudget(parts, 0);
    BudgetFits();
    assert parts[0..] == parts;
    SplitJoin(parts);
  }

  /** A payload is accepted exactly when it is the canonical text of a code with a known layout, and
      then it is read as that code. */
  lemma PayloadsAreCanonical(checksum: Checksum, known: Layout -> bool, payload: string, code: PageCode)
    ensures Parse(checksum, known, payload) == Ok(code) <==>
            Encode(checksum, code) == Some(payload) && LayoutAccepted(code, known)
  {
    var parts := Split(payload);
    FieldsParse(parts, known, code);
    if Encode(checksum, code) == Some(payload) && LayoutAccepted(code, known) {
      EncodedIsWellFormed(checksum, known, code, payload);
      assert parts[..|parts| - 1] == Fields(code);
    }
    if Parse(checksum, known, payload) == Ok(code) {
      var init := parts[..|parts| - 1];
      JoinSplit(payload);
      JoinLast(init, parts[|parts| - 1]);
      assert parts == init + [parts[|parts| - 1]];
    }
  }

  /** Whatever is read as a page code names a known layout of one to twenty capital letters, digits and dashes. */
  lemma LayoutsAreBounded(checksum: Checksum, known: Layout -> bool, payload: string)
    requires Parse(checksum, known, payload).Ok? && !Parse(checksum, known, payload).value.NotebookSetup?
    ensures var layout := Parse(checksum, known, payload).value.layout;
            && 1 <= |layout| <= 20 && known(layout)
            && forall i :: 0 <= i < |layout| ==>
                 'A' <= layout[i] <= 'Z' || '0' <= layout[i] <= '9' || layout[i] == '-'
  {
    PayloadsAreCanonical(checksum, known, payload, Parse(checksum, known, payload).value);
  }

  // ---- the text itself -------------------------------------------------------------------------

  /** What a payload says before its checksum. */
  function Spelled(code: PageCode): string {
    match code
    case NotebookSetup(design) => "A2D:1:S:" + TextOf(design) + ":"
    case NotebookPageCode(design, number, layout) =>
      "A2D:1:B:" + TextOf(design) + ":" + Decimal(number) + ":" + layout + ":"
    case SmartPageCode(smartPage, layout, visible, pageSet) =>
      "A2D:1:M:" + TextOf(smartPage) + ":" + layout
      + ":" + (if visible.Some? then Decimal(visible.value) else "-")
      + ":" + (if pageSet.Some? then TextOf(pageSet.value) else "-") + ":"
  }

  lemma JoinHead(first: string, rest: seq<string>)
    requires rest != []
    ensures Join([first] + rest) == first + ":" + Join(rest)
  {
    assert ([first] + rest)[1..] == rest;
  }

  lemma Regroup(a: string, b: string, c: string)
    ensures a + ":" + (b + ":" + c) == a + ":" + b + ":" + c
  {}

  lemma JoinedTwo(a: string, b: string, rest: seq<string>)
    requires rest != []
    ensures Join([a, b] + rest) == a + ":" + b + ":" + Join(rest)
  {
    assert [a, b] + rest == [a] + ([b] + rest);
    JoinHead(a, [b] + rest);
    JoinHead(b, rest);
    Regroup(a, b, Join(rest));
  }

  lemma JoinedThree(a: string, b: string, c: string, rest: seq<string>)
    requires rest != []
    ensures Join([a, b, c] + rest) == a + ":" + b + ":" + c + ":" + Join(rest)
  {
    assert [a, b, c] + rest == [a, b] + ([c] + rest);
    JoinedTwo(a, b, [c] + rest);
    JoinHead(c, rest);
    Regroup(a + ":" + b, c, Join(rest));
  }

  lemma JoinedFields(a: string, b: string, c: string, d: string)
    ensures Join([a]) == a && Join([a, b, c]) == a + ":" + b + ":" + c
    ensures Join([a, b, c, d]) == a + ":" + b + ":" + c + ":" + d
  {
    assert [a, b, c] == [a, b] + [c] && [a, b, c, d] == [a, b, c] + [d];
    JoinedTwo(a, b, [c]);
    JoinedThree(a, b, c, [d]);
  }

  lemma SpelledIsJoined(code: PageCode)
    ensures Join(Fields(code)) + ":" == Spelled(code)
  {
    var rest := Fields(code)[3..];
    assert Fields(code) == ["A2D", "1", Fields(code)[2]] + rest;
    JoinedThree("A2D", "1", Fields(code)[2], rest);
    match code
    case NotebookSetup(design) =>
      JoinedFields(TextOf(design), "", "", "");
      assert "A2D" + ":" + "1" + ":" + "S" + ":" == "A2D:1:S:";
    case NotebookPageCode(design, number, layout) =>
      JoinedFields(TextOf(design), Decimal(number), layout, "");
      assert "A2D" + ":" + "1" + ":" + "B" + ":" == "A2D:1:B:";
      Appended("A2D:1:B:", TextOf(design), Decimal(number), layout);
    case SmartPageCode(smartPage, layout, visible, pageSet) =>
      JoinedFields(TextOf(smartPage), layout, NumberOrDash(visible), IdOrDash(pageSet));
      assert "A2D" + ":" + "1" + ":" + "M" + ":" == "A2D:1:M:";
      AppendedFour("A2D:1:M:", TextOf(smartPage), layout, NumberOrDash(visible), IdOrDash(pageSet));
  }

  lemma Appended(prefix: string, a: string, b: string, c: string)
    ensures prefix + (a + ":" + b + ":" + c) + ":" == prefix + a + ":" + b + ":" + c + ":"
  {}

  lemma AppendedFour(prefix: string, a: string, b: string, c: string, d: string)
    ensures prefix + (a + ":" + b + ":" + c + ":" + d) + ":" == prefix + a + ":" + b + ":" + c + ":" + d + ":"
  {}

  /** The payload, letter by letter: the prefix for the kind of code, its fields in order, and the checksum of all of
      that. Only a number above 999999 has none. */
  lemma PayloadText(checksum: Checksum, code: PageCode)
    ensures Encode(checksum, code) ==
            if (code.NotebookPageCode? && code.number > 999_999)
               || (code.SmartPageCode? && code.visible.Some? && code.visible.value > 999_999) then None
            else Some(Spelled(code) + ChecksumText(checksum, Spelled(code)))
  {
    SpelledIsJoined(code);
  }

  // ---- what a refusal means --------------------------------------------------------------------

  predicate NoId(s: string) {
    forall id: Id :: s != TextOf(id)
  }

  predicate NoNumber(s: string) {
    forall n: nat :: n <= 999_999 ==> s != Decimal(n)
  }

  /** The field that says the layout. */
  function LayoutField(parts: seq<string>): string {
    if |parts| == 7 then parts[5] else if |parts| == 8 then parts[4] else ""
  }

  /** What is wrong with a payload that is refused. */
  ghost predicate Wrong(checksum: Checksum, known: Layout -> bool, payload: string, parts: seq<string>, e: ParseError)
    requires parts != []
  {
    match e
    case TooLong => |payload| > 128
    case InvalidCharacter =>
      exists i :: 0 <= i < |payload|
        && !('A' <= payload[i] <= 'Z' || '0' <= payload[i] <= '9' || payload[i] == '-' || payload[i] == ':')
    case InvalidMagic => parts[0] != "A2D"
    case UnsupportedVersion => |parts| > 1 && parts[1] != "1"
    case UnknownType => |parts| > 2 && parts[2] != "S" && parts[2] != "B" && parts[2] != "M"
    case WrongFieldCount =>
      |parts| < 3 || |parts| != (if parts[2] == "S" then 5 else if parts[2] == "B" then 7 else 8)
    case InvalidId => |parts| > 3 && (NoId(parts[3]) || (|parts| == 8 && parts[6] != "-" && NoId(parts[6])))
    case InvalidNumber =>
      (|parts| == 7 && NoNumber(parts[4])) || (|parts| == 8 && parts[5] != "-" && NoNumber(parts[5]))
    case InvalidLayout =>
      var layout := LayoutField(parts);
      |layout| == 0 || |layout| > 20 || exists i :: 0 <= i < |layout| && !LayoutChar(layout[i])
    case UnknownLayout => !known(LayoutField(parts))
    case ChecksumMismatch =>
      && |parts| > 1 && ParseFields(parts, known).Ok?
      && parts[|parts| - 1] != ChecksumText(checksum, Join(parts[..|parts| - 1]) + ":")
  }

  lemma NoIdField(s: string)
    requires ParseId(s).None?
    ensures NoId(s)
  {
    forall id: Id
      ensures s != TextOf(id)
    {
      IdField(s, id);
    }
  }

  lemma NoNumberField(s: string)
    requires ParseNumber(s).None?
    ensures NoNumber(s)
  {
    forall n: nat | n <= 999_999
      ensures s != Decimal(n)
    {
      NumberField(s, n);
    }
  }

  /** Every refusal tells what is wrong with the payload. */
  lemma RefusalsAreRight(checksum: Checksum, known: Layout -> bool, payload: string)
    ensures Parse(checksum, known, payload).Err? ==>
              Wrong(checksum, known, payload, Split(payload), Parse(checksum, known, payload).error)
  {
    var parts := Split(payload);
    if Parse(checksum, known, payload).Err? && ParseFields(parts, known).Err? {
      FieldRefusalsAreRight(checksum, known, payload, parts);
    }
  }

  lemma FieldRefusalsAreRight(checksum: Checksum, known: Layout -> bool, payload: string, parts: seq<string>)
    requires parts != [] && ParseFields(parts, known).Err?
    ensures Wrong(checksum, known, payload, parts, ParseFields(parts, known).error)
  {
    if |parts| > 3 && ParseId(parts[3]).None? {
      NoIdField(parts[3]);
    }
    if |parts| == 7 && ParseNumber(parts[4]).None? {
      NoNumberField(parts[4]);
    }
    if |parts| == 8 && ParseNumber(parts[5]).None? {
      NoNumberField(parts[5]);
    }
    if |parts| == 8 && ParseId(parts[6]).None? {
      NoIdField(parts[6]);
    }
  }
}
