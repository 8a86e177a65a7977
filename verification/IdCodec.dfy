/**
 * The canonical text of a 128-bit identifier: 26 Crockford Base32 digits, most significant first.
 * Text is modelled as its bytes, one `char` per byte, so a non-ASCII byte is a char above 127.
 */
module IdCodec {
  import opened Prelude
  import opened Numerals

  const ALPHABET: string := "0123456789ABCDEFGHJKMNPQRSTVWXYZ"
  const TEXT_LENGTH := 26
  const BYTE_LENGTH := 16
  const ID_LIMIT := 0x1_0000_0000_0000_0000_0000_0000_0000_0000

  /** An identifier by its 128-bit value. */
  type Id = v: nat | v < ID_LIMIT

  datatype IdDecodeError = InvalidLength(actual: nat) | InvalidAlphabet | NonCanonical

  function DecodeDigit(c: char): Option<nat> {
    if '0' <= c <= '9' then Some((c - '0') as nat)
    else if 'A' <= c <= 'H' then Some((c - 'A') as nat + 10)
    else if c == 'J' || c == 'K' then Some((c - 'A') as nat + 9)
    else if c == 'M' || c == 'N' then Some((c - 'A') as nat + 8)
    else if 'P' <= c <= 'T' then Some((c - 'A') as nat + 7)
    else if 'V' <= c <= 'Z' then Some((c - 'A') as nat + 6)
    else None
  }

  function ByteDigits(bytes: Bytes): (digits: seq<nat>)
    ensures |digits| == |bytes| && InBase(256, digits)
  {
    seq(|bytes|, i requires 0 <= i < |bytes| => bytes[i] as nat)
  }

  /** `u128::from_be_bytes`. */
  function FromBigEndian(bytes: Bytes): nat {
    ValueOf(256, ByteDigits(bytes))
  }

  /** `u128::to_be_bytes`. */
  function ToBigEndian(value: nat): (bytes: Bytes)
    ensures |bytes| == BYTE_LENGTH
  {
    var digits := DigitsOf(256, BYTE_LENGTH, value);
    seq(BYTE_LENGTH, i requires 0 <= i < BYTE_LENGTH => digits[i] as byte)
  }

  /** The text of a digit string, one alphabet letter a digit. */
  function Spell(digits: seq<nat>): (text: string)
    requires InBase(32, digits)
    ensures |text| == |digits|
  {
    seq(|digits|, i requires 0 <= i < |digits| => ALPHABET[digits[i]])
  }

  function TextOf(id: nat): string {
    Spell(DigitsOf(32, TEXT_LENGTH, id))
  }

  /** What makes a text the canonical text of some identifier. */
  predicate Canonical(text: string) {
    && |text| == TEXT_LENGTH
    && (forall i :: 0 <= i < |text| ==> text[i] in ALPHABET)
    && text[0] in ALPHABET[..8]
  }

  // ---- the alphabet -------------------------------------------------------------------------

  lemma DigitOfLetter(d: nat)
    requires d < 32
    ensures DecodeDigit(ALPHABET[d]) == Some(d)
  {}

  lemma LetterOfDigit(c: char)
    ensures DecodeDigit(c).Some? <==> c in ALPHABET
    ensures DecodeDigit(c).Some? ==> DecodeDigit(c).value < 32 && ALPHABET[DecodeDigit(c).value] == c
    ensures c in ALPHABET[..8] <==> DecodeDigit(c).Some? && DecodeDigit(c).value <= 7
  {
    if DecodeDigit(c).Some? {
      var d := DecodeDigit(c).value;
      assert ALPHABET[d] == c;
      if d <= 7 {
        assert ALPHABET[..8][d] == c;
      }
    }
    if c in ALPHABET[..8] {
      var d :| 0 <= d < 8 && ALPHABET[..8][d] == c;
      assert ALPHABET[d] == c;
      DigitOfLetter(d);
    }
    if c in ALPHABET {
      var d :| 0 <= d < 32 && ALPHABET[d] == c;
      DigitOfLetter(d);
    }
  }

  /** The alphabet lists its letters in byte order, so digit order is letter order. */
  lemma LettersAscend(a: nat, b: nat)
    requires a < 32 && b < 32
    ensures a < b <==> ALPHABET[a] < ALPHABET[b]
  {}

  // ---- powers -------------------------------------------------------------------------------

  lemma PowerOfPower(n: nat)
    ensures Power(32, n) == Power(2, 5 * n)
  {
    if n > 0 {
      PowerOfPower(n - 1);
      var m := 5 * (n - 1);
      assert Power(2, m + 5) == Power(2, m + 4) * 2 == Power(2, m + 3) * 4 == Power(2, m + 2) * 8
          == Power(2, m + 1) * 16 == Power(2, m) * 32;
    }
  }

  lemma PowersOfTwo()
    ensures Power(2, 128) == ID_LIMIT
  {
    assert Power(2, 8) == 256;
    PowerAdd(2, 8, 8);
    PowerAdd(2, 16, 16);
    PowerAdd(2, 32, 32);
    PowerAdd(2, 64, 64);
  }

  lemma PowersOfByte()
    ensures Power(256, 16) == ID_LIMIT
  {
    assert Power(256, 4) == 0x1_0000_0000;
    PowerAdd(256, 4, 4);
    PowerAdd(256, 8, 8);
  }

  lemma Limits()
    ensures Power(256, 16) == ID_LIMIT
    ensures Power(2, 128) == ID_LIMIT
    ensures 8 * Power(32, 25) == ID_LIMIT
    ensures ID_LIMIT < Power(32, 26)
  {
    PowersOfTwo();
    PowersOfByte();
    PowerOfPower(25);
    PowerAdd(2, 125, 3);
    assert Power(2, 3) == 8;
    PowerAdd(32, 25, 1);
    assert Power(32, 1) == 32;
  }

  // ---- what decoding means ------------------------------------------------------------------

  predicate IsDigit(c: char) {
    DecodeDigit(c).Some?
  }

  function DigitAt(c: char): (d: nat)
    requires IsDigit(c)
    ensures d < 32
  {
    DecodeDigit(c).value
  }

  predicate AllDigits(text: string) {
    forall i :: 0 <= i < |text| ==> IsDigit(text[i])
  }

  function DigitsOfText(text: string): (digits: seq<nat>)
    requires AllDigits(text)
    ensures |digits| == |text| && InBase(32, digits)
  {
    seq(|text|, i requires 0 <= i < |text| => DigitAt(text[i]))
  }

  function IdOf(text: string): nat
    requires AllDigits(text)
  {
    ValueOf(32, DigitsOfText(text))
  }

  /** The verdict on every text, in the order the checks are made. */
  function Decoding(text: string): Result<Bytes, IdDecodeError> {
    if |text| != TEXT_LENGTH then Err(InvalidLength(|text|))
    else if !AllDigits(text) then Err(InvalidAlphabet)
    else if DigitAt(text[0]) > 7 then Err(NonCanonical)
    else Ok(ToBigEndian(IdOf(text)))
  }

  /** `value >> bits`. */
  function ShiftRight(value: nat, bits: nat): nat {
    PowerPositive(2, bits);
    value / Power(2, bits)
  }

  // ---- the two operations -------------------------------------------------------------------

  /** The first `k` letters of the identifier's text. */
  function Letters(value: nat, k: nat): string
    requires k <= TEXT_LENGTH
  {
    Spell(DigitsOf(32, TEXT_LENGTH, value)[..k])
  }

  lemma FirstLetter(value: nat)
    requires value < ID_LIMIT
    ensures Letters(value, 1) == [ALPHABET[ShiftRight(value, 125) % 8]]
  {
    TopDigit(value);
  }

  lemma NextLetter(value: nat, group: nat)
    requires value < ID_LIMIT && group < 25
    ensures Letters(value, group + 2) == Letters(value, group + 1) + [ALPHABET[ShiftRight(value, 120 - 5 * group) % 32]]
  {
    LowerDigit(value, group + 1);
  }

  lemma AllLetters(value: nat)
    ensures Letters(value, TEXT_LENGTH) == TextOf(value)
  {
    var digits := DigitsOf(32, TEXT_LENGTH, value);
    assert digits[..TEXT_LENGTH] == digits;
  }

  /** Five bits of the value, as a letter. */
  method LetterOfGroup(value: nat, group: nat) returns (letter: char)
    requires value < ID_LIMIT && group < 25
    ensures Letters(value, group + 2) == Letters(value, group + 1) + [letter]
  {
    var shift := 120 - 5 * group;
    var digit := ShiftRight(value, shift) % 32;
    NextLetter(value, group);
    letter := ALPHABET[digit];
  }

  method Encode128(bytes: Bytes) returns (out: string)
    requires |bytes| == BYTE_LENGTH
    ensures out == TextOf(FromBigEndian(bytes))
  {
    var value := FromBigEndian(bytes);
    FitsInId(bytes);
    FirstLetter(value);
    var first := ShiftRight(value, 125) % 8;
    out := [ALPHABET[first]];
    for group := 0 to 25
      invariant out == Letters(value, group + 1)
    {
      var letter := LetterOfGroup(value, group);
      out := out + [letter];
    }
    AllLetters(value);
  }

  method Decode128(text: string) returns (result: Result<Bytes, IdDecodeError>)
    ensures result == Decoding(text)
  {
    if |text| != TEXT_LENGTH {
      return Err(InvalidLength(|text|));
    }
    var digits := new nat[TEXT_LENGTH];
    for index := 0 to TEXT_LENGTH
      invariant forall i :: 0 <= i < index ==> IsDigit(text[i]) && DigitAt(text[i]) == digits[i]
    {
      match DecodeDigit(text[index])
      case None => return Err(InvalidAlphabet);
      case Some(digit) => digits[index] := digit;
    }
    if digits[0] > 7 {
      return Err(NonCanonical);
    }
    ghost var spelled := DigitsOfText(text);
    assert digits[..] == spelled;
    var decoded := digits[0];
    assert spelled[..1] == [spelled[0]];
    for index := 1 to TEXT_LENGTH
      invariant digits[..] == spelled
      invariant decoded == ValueOf(32, spelled[..index])
    {
      AccumulatorFits(spelled, index);
      decoded := decoded * 32 % ID_LIMIT + digits[index];
      assert spelled[..index + 1][..index] == spelled[..index];
    }
    assert spelled[..TEXT_LENGTH] == spelled;
    return Ok(ToBigEndian(decoded));
  }

  lemma FitsInId(bytes: Bytes)
    requires |bytes| == BYTE_LENGTH
    ensures FromBigEndian(bytes) < ID_LIMIT
  {
    ValueBound(256, ByteDigits(bytes));
    Limits();
  }

  lemma QuotientBelow(value: nat, p: nat, limit: nat)
    requires p > 0 && value < limit * p
    ensures value / p < limit
  {
    var q := value / p;
    assert q * p <= value;
    if limit <= q {
      MulMonotone(limit, q, p);
    }
  }

  /** Only three bits are left for the first digit. */
  lemma TopDigit(value: nat)
    requires value < ID_LIMIT
    ensures DigitsOf(32, TEXT_LENGTH, value)[0] == ShiftRight(value, 125) % 8 <= 7
  {
    TopThreeBits(value);
    PowerOfPower(25);
    DigitByShift(32, TEXT_LENGTH, value, 0);
    SmallRemainder(ShiftRight(value, 125));
  }

  lemma SmallRemainder(q: nat)
    requires q < 8
    ensures q % 32 == q && q % 8 == q
  {}

  lemma TopThreeBits(value: nat)
    requires value < ID_LIMIT
    ensures ShiftRight(value, 125) < 8
  {
    Limits();
    PowerOfPower(25);
    PowerPositive(2, 125);
    QuotientBelow(value, Power(2, 125), 8);
  }

  lemma LowerDigit(value: nat, k: nat)
    requires 1 <= k < TEXT_LENGTH
    ensures DigitsOf(32, TEXT_LENGTH, value)[k] == ShiftRight(value, 125 - 5 * k) % 32
  {
    DigitByShift(32, TEXT_LENGTH, value, k);
    PowerOfPower(25 - k);
  }

  /** Shifting the accumulator never pushes a bit out of the 128. */
  lemma AccumulatorFits(digits: seq<nat>, index: nat)
    requires |digits| == TEXT_LENGTH && InBase(32, digits) && digits[0] <= 7
    requires 1 <= index < TEXT_LENGTH
    ensures ValueOf(32, digits[..index]) * 32 < ID_LIMIT
    ensures ValueOf(32, digits[..index + 1]) < ID_LIMIT
  {
    TopDigitBounds(digits, index);
    TopDigitBounds(digits, index + 1);
    PowerGrows(index);
    Limits();
    assert Power(32, index) == Power(32, index - 1) * 32;
  }

  lemma {:induction false} TopDigitBounds(digits: seq<nat>, index: nat)
    requires InBase(32, digits) && 1 <= index <= |digits| && digits[0] <= 7
    ensures ValueOf(32, digits[..index]) < 8 * Power(32, index - 1)
  {
    if index == 1 {
      assert digits[..1] == [digits[0]];
      assert ValueOf(32, [digits[0]]) == ValueOf(32, []) * 32 + digits[0];
    } else {
      TopDigitBounds(digits, index - 1);
      assert digits[..index][..index - 1] == digits[..index - 1];
    }
  }

  lemma PowerGrows(n: nat)
    requires n <= 25
    ensures Power(32, n) <= Power(32, 25)
    decreases 25 - n
  {
    if n < 25 {
      PowerGrows(n + 1);
      assert Power(32, n + 1) == Power(32, n) * 32;
    }
  }

  // ---- the codec is a bijection that keeps the order -----------------------------------------

  /** The canonical texts, restated by digits. */
  lemma CanonicalByDigits(text: string)
    ensures Canonical(text) <==> |text| == TEXT_LENGTH && AllDigits(text) && DigitAt(text[0]) <= 7
  {
    forall i | 0 <= i < |text|
      ensures IsDigit(text[i]) <==> text[i] in ALPHABET
    {
      LetterOfDigit(text[i]);
    }
    if |text| > 0 {
      LetterOfDigit(text[0]);
    }
  }

  lemma TextOfIsCanonical(id: Id)
    ensures Canonical(TextOf(id))
    ensures AllDigits(TextOf(id))
    ensures DigitsOfText(TextOf(id)) == DigitsOf(32, TEXT_LENGTH, id)
    ensures IdOf(TextOf(id)) == id
  {
    var digits := DigitsOf(32, TEXT_LENGTH, id);
    var text := TextOf(id);
    TopDigit(id);
    forall i | 0 <= i < |text|
      ensures IsDigit(text[i]) && DigitAt(text[i]) == digits[i]
    {
      DigitOfLetter(digits[i]);
    }
    assert DigitsOfText(text) == digits;
    CanonicalByDigits(text);
    Limits();
    ValueOfDigitsOf(32, TEXT_LENGTH, id);
  }

  lemma IdOfIsAnId(text: string)
    requires |text| == TEXT_LENGTH && AllDigits(text) && DigitAt(text[0]) <= 7
    ensures IdOf(text) < ID_LIMIT
    ensures TextOf(IdOf(text)) == text
  {
    var digits := DigitsOfText(text);
    AccumulatorFits(digits, 25);
    assert digits[..26] == digits;
    DigitsOfValueOf(32, digits);
    forall i | 0 <= i < |text|
      ensures ALPHABET[digits[i]] == text[i]
    {
      LetterOfDigit(text[i]);
      assert digits[i] == DigitAt(text[i]);
    }
    assert Spell(digits) == text;
  }

  /** Each further byte is one more significant place below the others. */
  lemma BigEndianStep(bytes: Bytes)
    ensures FromBigEndian([]) == 0
    ensures bytes != [] ==>
              FromBigEndian(bytes) == 256 * FromBigEndian(bytes[..|bytes| - 1]) + bytes[|bytes| - 1] as nat
  {
    if bytes != [] {
      assert ByteDigits(bytes)[..|bytes| - 1] == ByteDigits(bytes[..|bytes| - 1]);
    }
  }

  lemma BigEndianRoundTrip(bytes: Bytes)
    requires |bytes| == BYTE_LENGTH
    ensures ToBigEndian(FromBigEndian(bytes)) == bytes
  {
    DigitsOfValueOf(256, ByteDigits(bytes));
  }

  lemma ValueRoundTrip(id: Id)
    ensures FromBigEndian(ToBigEndian(id)) == id
  {
    Limits();
    ValueOfDigitsOf(256, BYTE_LENGTH, id);
    assert ByteDigits(ToBigEndian(id)) == DigitsOf(256, BYTE_LENGTH, id);
  }

  /** Every one of the 2^128 values survives a trip through its text. */
  lemma DecodeUndoesEncode(bytes: Bytes)
    requires |bytes| == BYTE_LENGTH
    ensures Decoding(TextOf(FromBigEndian(bytes))) == Ok(bytes)
  {
    FitsInId(bytes);
    DecodingOfText(FromBigEndian(bytes));
    BigEndianRoundTrip(bytes);
  }

  lemma DecodingOfText(id: Id)
    ensures Decoding(TextOf(id)) == Ok(ToBigEndian(id))
  {
    TextOfIsCanonical(id);
    CanonicalByDigits(TextOf(id));
  }

  /** Exactly the canonical texts are accepted, and each is the text of what it decodes to. */
  lemma EncodeUndoesDecode(text: string)
    ensures Decoding(text).Ok? <==> Canonical(text)
    ensures Decoding(text).Ok? ==>
              && |Decoding(text).value| == BYTE_LENGTH
              && TextOf(FromBigEndian(Decoding(text).value)) == text
  {
    CanonicalByDigits(text);
    if Decoding(text).Ok? {
      IdOfIsAnId(text);
      ValueRoundTrip(IdOf(text));
    }
  }

  /** Byte order of two texts of one length. */
  ghost predicate TextLess(a: string, b: string)
    requires |a| == |b|
  {
    exists k :: 0 <= k < |a| && a[..k] == b[..k] && a[k] < b[k]
  }

  /** Sorting texts sorts the identifiers. */
  lemma TextOrderIsNumericOrder(a: Id, b: Id)
    ensures |TextOf(a)| == |TextOf(b)| == TEXT_LENGTH
    ensures TextLess(TextOf(a), TextOf(b)) <==> a < b
    ensures TextOf(a) == TextOf(b) <==> a == b
  {
    var da, db := DigitsOf(32, TEXT_LENGTH, a), DigitsOf(32, TEXT_LENGTH, b);
    var ta, tb := TextOf(a), TextOf(b);
    OrderIsLexicographic(32, da, db);
    TextOfIsCanonical(a);
    TextOfIsCanonical(b);
    forall k | 0 <= k < TEXT_LENGTH
      ensures ta[k] < tb[k] <==> da[k] < db[k]
    {
      LettersAscend(da[k], db[k]);
    }
    forall k | 0 <= k <= TEXT_LENGTH
      ensures ta[..k] == tb[..k] <==> da[..k] == db[..k]
    {
      SpellPrefix(da, db, k);
    }
    if LexLess(da, db) {
      var k :| 0 <= k < |da| && da[..k] == db[..k] && da[k] < db[k];
      assert ta[..k] == tb[..k] && ta[k] < tb[k];
    }
    if TextLess(ta, tb) {
      var k :| 0 <= k < |ta| && ta[..k] == tb[..k] && ta[k] < tb[k];
      assert da[..k] == db[..k] && da[k] < db[k];
    }
  }

  lemma SpellPrefix(a: seq<nat>, b: seq<nat>, k: nat)
    requires |a| == |b| && InBase(32, a) && InBase(32, b) && k <= |a|
    ensures Spell(a)[..k] == Spell(b)[..k] <==> a[..k] == b[..k]
  {
    if Spell(a)[..k] == Spell(b)[..k] {
      forall i | 0 <= i < k
        ensures a[i] == b[i]
      {
        assert Spell(a)[..k][i] == ALPHABET[a[i]] && Spell(b)[..k][i] == ALPHABET[b[i]];
        DigitOfLetter(a[i]);
        DigitOfLetter(b[i]);
      }
    }
    if a[..k] == b[..k] {
      forall i | 0 <= i < k
        ensures Spell(a)[i] == Spell(b)[i]
      {
        assert a[..k][i] == b[..k][i];
      }
    }
  }

  ghost predicate BytesLess(a: Bytes, b: Bytes)
    requires |a| == |b|
  {
    exists k :: 0 <= k < |a| && a[..k] == b[..k] && a[k] < b[k]
  }

  lemma BytePrefix(a: Bytes, b: Bytes, k: nat)
    requires |a| == |b| && k <= |a|
    ensures ByteDigits(a)[..k] == ByteDigits(b)[..k] <==> a[..k] == b[..k]
  {
    if ByteDigits(a)[..k] == ByteDigits(b)[..k] {
      forall i | 0 <= i < k
        ensures a[i] == b[i]
      {
        assert ByteDigits(a)[..k][i] == a[i] as nat && ByteDigits(b)[..k][i] == b[i] as nat;
      }
    }
    if a[..k] == b[..k] {
      forall i | 0 <= i < k
        ensures ByteDigits(a)[i] == ByteDigits(b)[i]
      {
        assert a[..k][i] == b[..k][i];
      }
    }
  }

  /** Sorting texts sorts the sixteen bytes, from the first: with the round trips this leaves one possible text for
      every identifier. */
  lemma TextOrderIsByteOrder(a: Bytes, b: Bytes)
    requires |a| == |b| == BYTE_LENGTH
    ensures |TextOf(FromBigEndian(a))| == |TextOf(FromBigEndian(b))| == TEXT_LENGTH
    ensures TextLess(TextOf(FromBigEndian(a)), TextOf(FromBigEndian(b))) <==> BytesLess(a, b)
  {
    FitsInId(a);
    FitsInId(b);
    TextOrderIsNumericOrder(FromBigEndian(a), FromBigEndian(b));
    var da, db := ByteDigits(a), ByteDigits(b);
    OrderIsLexicographic(256, da, db);
    forall k | 0 <= k <= BYTE_LENGTH
      ensures da[..k] == db[..k] <==> a[..k] == b[..k]
    {
      BytePrefix(a, b, k);
    }
    if LexLess(da, db) {
      var k :| 0 <= k < |da| && da[..k] == db[..k] && da[k] < db[k];
      assert a[..k] == b[..k] && a[k] < b[k];
    }
    if BytesLess(a, b) {
      var k :| 0 <= k < |a| && a[..k] == b[..k] && a[k] < b[k];
      assert da[..k] == db[..k] && da[k] < db[k];
    }
  }
}
