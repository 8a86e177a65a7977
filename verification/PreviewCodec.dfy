/**
 * The preview result on the wire: the writer that appends fields to a byte buffer, and the
 * recursive-descent reader at the other end. A floating-point number is its eight bytes, a string its
 * UTF-8 bytes. Encodings take the bytes that follow as an argument, so reading is peeling them off.
 */
module PreviewCodec {
  import opened Prelude
  import opened Numerals

  const CODEC_VERSION := 1
  const MAGIC: Bytes := [0x41, 0x32, 0x44, 0x50]
  const U32_LIMIT := 0x1_0000_0000
  const U64_LIMIT := 0x1_0000_0000_0000_0000
  const INT_MAX := 0x7fff_ffff
  const MATRIX_SIZE := 9
  const HEADROOM := 2_048

  type U32 = n: nat | n < U32_LIMIT
  type U64 = n: nat | n < U64_LIMIT
  type Double = b: Bytes | |b| == 8 witness [0, 0, 0, 0, 0, 0, 0, 0]

  datatype Point = Point(x: Double, y: Double)

  datatype Marker = Marker(
    role: Bytes,
    family: Bytes,
    id: U32,
    hammingErrors: U32,
    margin: Double,
    center: Point,
    corners: seq<Point>
  )

  datatype Quality = Quality(
    focusVariance: Option<Double>,
    focusSamples: Option<U64>,
    meanLuminance: Double,
    deviation: Double,
    darkFraction: Double,
    highlightFraction: Double,
    maxTileHighlight: Double,
    populatedTiles: U32
  )

  datatype Analysis = Analysis(
    width: U32,
    height: U32,
    sourceRotation: U32,
    orientation: U32,
    markers: seq<Marker>,
    unexpectedTags: seq<U32>,
    quality: Quality
  )

  datatype Rgb = Rgb(width: U32, height: U32, bytes: Bytes)

  datatype Preview = Preview(
    pipelineVersion: U32,
    matrix: seq<Double>,
    analysis: Analysis,
    corrected: Rgb,
    thumbnail: Rgb
  )

  // ---- numbers on the wire ---------------------------------------------------------------------

  function BigEndian(width: nat, value: nat): (b: Bytes)
    ensures |b| == width
  {
    var digits := DigitsOf(256, width, value);
    seq(width, i requires 0 <= i < width => digits[i] as byte)
  }

  function Digits(b: Bytes): (digits: seq<nat>)
    ensures |digits| == |b| && InBase(256, digits)
  {
    seq(|b|, i requires 0 <= i < |b| => b[i] as nat)
  }

  function NumberOf(b: Bytes): nat {
    ValueOf(256, Digits(b))
  }

  lemma WidthLimits()
    ensures Power(256, 4) == U32_LIMIT && Power(256, 8) == U64_LIMIT
  {
    assert Power(256, 2) == 0x1_0000;
    assert Power(256, 4) == U32_LIMIT;
    PowerAdd(256, 4, 4);
  }

  lemma NumberRoundTrip(width: nat, value: nat)
    requires value < Power(256, width)
    ensures NumberOf(BigEndian(width, value)) == value
  {
    ValueOfDigitsOf(256, width, value);
    assert Digits(BigEndian(width, value)) == DigitsOf(256, width, value);
  }

  /** The first byte is the most significant: each further one is a place below. */
  lemma NumberStep(b: Bytes)
    ensures NumberOf([]) == 0
    ensures b != [] ==> NumberOf(b) == 256 * NumberOf(b[..|b| - 1]) + b[|b| - 1] as nat
  {
    if b != [] {
      assert Digits(b)[..|b| - 1] == Digits(b[..|b| - 1]);
    }
  }

  lemma NumberBound(b: Bytes)
    ensures NumberOf(b) < Power(256, |b|)
  {
    ValueBound(256, Digits(b));
  }

  function U32Bytes(v: U32): (b: Bytes)
    ensures |b| == 4
  {
    BigEndian(4, v)
  }

  function U64Bytes(v: U64): (b: Bytes)
    ensures |b| == 8
  {
    BigEndian(8, v)
  }

  // ---- what is written, followed by `t` --------------------------------------------------------

  function EncBytes(s: Bytes, t: Bytes): Bytes
    requires |s| < U32_LIMIT
  {
    U32Bytes(|s|) + (s + t)
  }

  function EncPoint(p: Point, t: Bytes): Bytes {
    p.x + (p.y + t)
  }

  function EncPoints(ps: seq<Point>, t: Bytes): Bytes {
    if ps == [] then t else EncPoint(ps[0], EncPoints(ps[1..], t))
  }

  predicate MarkerFits(m: Marker) {
    |m.role| < U32_LIMIT && |m.family| < U32_LIMIT && |m.corners| < U32_LIMIT
  }

  function EncMarker(m: Marker, t: Bytes): Bytes
    requires MarkerFits(m)
  {
    EncBytes(m.role, EncBytes(m.family, U32Bytes(m.id) + (U32Bytes(m.hammingErrors) + (m.margin +
      EncPoint(m.center, U32Bytes(|m.corners|) + EncPoints(m.corners, t))))))
  }

  predicate MarkersFit(ms: seq<Marker>) {
    forall i :: 0 <= i < |ms| ==> MarkerFits(ms[i])
  }

  function EncMarkers(ms: seq<Marker>, t: Bytes): Bytes
    requires MarkersFit(ms)
  {
    if ms == [] then t else EncMarker(ms[0], EncMarkers(ms[1..], t))
  }

  function EncTags(tags: seq<U32>, t: Bytes): Bytes {
    if tags == [] then t else U32Bytes(tags[0]) + EncTags(tags[1..], t)
  }

  function EncDoubles(ds: seq<Double>, t: Bytes): Bytes {
    if ds == [] then t else ds[0] + EncDoubles(ds[1..], t)
  }

  function EncOptionalDouble(d: Option<Double>, t: Bytes): Bytes {
    match d
    case Some(v) => [1] + (v + t)
    case None => [0] + t
  }

  function EncOptionalU64(v: Option<U64>, t: Bytes): Bytes {
    match v
    case Some(n) => [1] + (U64Bytes(n) + t)
    case None => [0] + t
  }

  function EncQuality(q: Quality, t: Bytes): Bytes {
    EncOptionalDouble(q.focusVariance, EncOptionalU64(q.focusSamples,
      q.meanLuminance + (q.deviation + (q.darkFraction + (q.highlightFraction + (q.maxTileHighlight +
        (U32Bytes(q.populatedTiles) + t)))))))
  }

  predicate AnalysisFits(a: Analysis) {
    |a.markers| < U32_LIMIT && MarkersFit(a.markers) && |a.unexpectedTags| < U32_LIMIT
  }

  function EncAnalysis(a: Analysis, t: Bytes): Bytes
    requires AnalysisFits(a)
  {
    U32Bytes(a.width) + (U32Bytes(a.height) + (U32Bytes(a.sourceRotation) + (U32Bytes(a.orientation) +
      (U32Bytes(|a.markers|) + EncMarkers(a.markers, U32Bytes(|a.unexpectedTags|) +
        EncTags(a.unexpectedTags, EncQuality(a.quality, t)))))))
  }

  function EncRgb(r: Rgb, t: Bytes): Bytes
    requires |r.bytes| < U32_LIMIT
  {
    U32Bytes(r.width) + (U32Bytes(r.height) + EncBytes(r.bytes, t))
  }

  /** What the writer can encode: every length fits in 32 bits. */
  predicate Encodable(p: Preview) {
    && |p.matrix| == MATRIX_SIZE
    && AnalysisFits(p.analysis)
    && |p.corrected.bytes| < U32_LIMIT && |p.thumbnail.bytes| < U32_LIMIT
  }

  function Encoding(p: Preview): Bytes
    requires Encodable(p)
  {
    MAGIC + (U32Bytes(CODEC_VERSION) + (U32Bytes(p.pipelineVersion) + (U32Bytes(|p.matrix|) +
      EncDoubles(p.matrix, EncAnalysis(p.analysis, EncRgb(p.corrected, EncRgb(p.thumbnail, [])))))))
  }

  // ---- where the fields are ----------------------------------------------------------------------

  /** What follows a field starts where it ends. */
  lemma Behind(field: Bytes, t: Bytes, from: nat, to: nat)
    requires from <= to <= |t|
    ensures (field + t)[..|field|] == field
    ensures (field + t)[|field| + from..|field| + to] == t[from..to]
  {}

  lemma {:induction false} DoubleAt(ds: seq<Double>, t: Bytes, i: nat)
    requires i < |ds|
    ensures |EncDoubles(ds, t)| == 8 * |ds| + |t| && EncDoubles(ds, t)[8 * i..8 * i + 8] == ds[i]
  {
    if i > 0 {
      DoubleAt(ds[1..], t, i - 1);
      Behind(ds[0], EncDoubles(ds[1..], t), 8 * (i - 1), 8 * (i - 1) + 8);
    } else {
      DoublesLength(ds, t);
    }
  }

  lemma {:induction false} DoublesLength(ds: seq<Double>, t: Bytes)
    ensures |EncDoubles(ds, t)| == 8 * |ds| + |t| && EncDoubles(ds, t)[8 * |ds|..] == t
  {
    if ds != [] {
      DoublesLength(ds[1..], t);
      var rest := EncDoubles(ds[1..], t);
      Behind(ds[0], rest, 8 * |ds[1..]|, |rest|);
      assert EncDoubles(ds, t)[8 + 8 * |ds[1..]|..8 + |rest|] == rest[8 * |ds[1..]|..];
    }
  }

  lemma FourWords(a: U32, b: U32, c: U32, d: U32, t: Bytes)
    ensures var w := U32Bytes(a) + (U32Bytes(b) + (U32Bytes(c) + (U32Bytes(d) + t)));
            && |w| == 16 + |t| && w[..4] == U32Bytes(a) && w[4..8] == U32Bytes(b) && w[8..12] == U32Bytes(c)
            && w[12..16] == U32Bytes(d) && w[16..] == t
  {}

  /** The first hundred bytes: the magic letters, the version, the pipeline, nine doubles and then the analysis, which
      starts with its two dimensions and the two rotations. */
  lemma HeaderLayout(p: Preview)
    requires Encodable(p)
    ensures var e := Encoding(p);
            && |e| >= 104 && e[..4] == [0x41, 0x32, 0x44, 0x50] && e[4..8] == U32Bytes(1)
            && e[8..12] == U32Bytes(p.pipelineVersion) && e[12..16] == U32Bytes(9)
            && (forall i :: 0 <= i < 9 ==> e[16 + 8 * i..24 + 8 * i] == p.matrix[i])
            && e[88..92] == U32Bytes(p.analysis.width) && e[92..96] == U32Bytes(p.analysis.height)
            && e[96..100] == U32Bytes(p.analysis.sourceRotation) && e[100..104] == U32Bytes(p.analysis.orientation)
  {
    var images := EncRgb(p.corrected, EncRgb(p.thumbnail, []));
    var analysis := EncAnalysis(p.analysis, images);
    DoublesLength(p.matrix, analysis);
    AnalysisHead(p.analysis, images);
    HeadFirst(p.pipelineVersion, EncDoubles(p.matrix, analysis));
    DoublesInside(Encoding(p), p.matrix, analysis);
    AfterDoubles(Encoding(p), analysis);
  }

  lemma HeadFirst(version: U32, t: Bytes)
    ensures var e := MAGIC + (U32Bytes(CODEC_VERSION) + (U32Bytes(version) + (U32Bytes(MATRIX_SIZE) + t)));
            && |e| == 16 + |t| && e[..4] == MAGIC && e[4..8] == U32Bytes(1) && e[8..12] == U32Bytes(version)
            && e[12..16] == U32Bytes(9) && e[16..] == t
  {}

  lemma DoublesInside(e: Bytes, ds: seq<Double>, t: Bytes)
    requires |e| >= 16 && e[16..] == EncDoubles(ds, t) && |ds| == 9
    ensures |e| == 88 + |t| && e[88..] == t
    ensures forall i :: 0 <= i < 9 ==> e[16 + 8 * i..24 + 8 * i] == ds[i]
  {
    DoublesLength(ds, t);
    assert e[16..][72..] == e[88..];
    forall i | 0 <= i < 9
      ensures e[16 + 8 * i..24 + 8 * i] == ds[i]
    {
      DoubleAt(ds, t, i);
      assert e[16..][8 * i..8 * i + 8] == e[16 + 8 * i..24 + 8 * i];
    }
  }

  lemma AnalysisHead(a: Analysis, t: Bytes)
    requires AnalysisFits(a)
    ensures var e := EncAnalysis(a, t);
            && |e| >= 16 && e[..4] == U32Bytes(a.width) && e[4..8] == U32Bytes(a.height)
            && e[8..12] == U32Bytes(a.sourceRotation) && e[12..16] == U32Bytes(a.orientation)
  {
    FourWords(a.width, a.height, a.sourceRotation, a.orientation,
              U32Bytes(|a.markers|) + EncMarkers(a.markers, U32Bytes(|a.unexpectedTags|) +
                EncTags(a.unexpectedTags, EncQuality(a.quality, t))));
  }

  lemma AfterDoubles(e: Bytes, t: Bytes)
    requires |e| >= 88 && e[88..] == t && |t| >= 16
    ensures e[88..92] == t[..4] && e[92..96] == t[4..8] && e[96..100] == t[8..12] && e[100..104] == t[12..16]
  {
    assert forall i, j :: 0 <= i <= j <= |t| ==> e[88..][i..j] == t[i..j];
  }

  // ---- the writer --------------------------------------------------------------------------------

  lemma Regroup(a: Bytes, b: Bytes, t: Bytes)
    ensures (a + b) + t == a + (b + t)
  {}

  class BinaryWriter {
    var bytes: Bytes

    constructor (magic: Bytes)
      ensures bytes == magic + U32Bytes(CODEC_VERSION)
    {
      bytes := magic + U32Bytes(CODEC_VERSION);
    }

    method Append(value: Bytes)
      modifies this
      ensures bytes == old(bytes) + value
      ensures forall t: Bytes {:trigger value + t} :: bytes + t == old(bytes) + (value + t)
    {
      bytes := bytes + value;
      forall t: Bytes
        ensures bytes + t == old(bytes) + (value + t)
      {
        Regroup(old(bytes), value, t);
      }
    }

    method U8(value: byte)
      modifies this
      ensures bytes == old(bytes) + [value]
      ensures forall t: Bytes {:trigger [value] + t} :: bytes + t == old(bytes) + ([value] + t)
    {
      Append([value]);
    }

    method U32(value: U32)
      modifies this
      ensures bytes == old(bytes) + U32Bytes(value)
      ensures forall t: Bytes {:trigger U32Bytes(value) + t} :: bytes + t == old(bytes) + (U32Bytes(value) + t)
    {
      Append(U32Bytes(value));
    }

    method U64(value: U64)
      modifies this
      ensures bytes == old(bytes) + U64Bytes(value)
      ensures forall t: Bytes {:trigger U64Bytes(value) + t} :: bytes + t == old(bytes) + (U64Bytes(value) + t)
    {
      Append(U64Bytes(value));
    }

    method F64(value: Double)
      modifies this
      ensures bytes == old(bytes) + value
      ensures forall t: Bytes {:trigger value + t} :: bytes + t == old(bytes) + (value + t)
    {
      Append(value);
    }

    /** Refuses a length that does not fit, and writes nothing then. */
    method Length(value: nat) returns (ok: bool)
      modifies this
      ensures ok <==> value < U32_LIMIT
      ensures !ok ==> bytes == old(bytes)
      ensures ok ==> bytes == old(bytes) + U32Bytes(value)
      ensures ok ==> forall t: Bytes {:trigger U32Bytes(value) + t} ::
                bytes + t == old(bytes) + (U32Bytes(value) + t)
    {
      if value >= U32_LIMIT {
        return false;
      }
      U32(value);
      return true;
    }

    method RawBytes(value: Bytes) returns (ok: bool)
      modifies this
      ensures ok <==> |value| < U32_LIMIT
      ensures ok ==> forall t: Bytes {:trigger EncBytes(value, t)} :: bytes + t == old(bytes) + EncBytes(value, t)
    {
      ok := Length(|value|);
      if ok {
        Append(value);
      }
    }

    method OptionalF64(value: Option<Double>)
      modifies this
      ensures forall t: Bytes {:trigger EncOptionalDouble(value, t)} ::
                bytes + t == old(bytes) + EncOptionalDouble(value, t)
    {
      match value
      case Some(v) =>
        U8(1);
        F64(v);
      case None => U8(0);
    }

    method OptionalU64(value: Option<U64>)
      modifies this
      ensures forall t: Bytes {:trigger EncOptionalU64(value, t)} ::
                bytes + t == old(bytes) + EncOptionalU64(value, t)
    {
      match value
      case Some(v) =>
        U8(1);
        U64(v);
      case None => U8(0);
    }
  }

  method EncodePoint(writer: BinaryWriter, p: Point)
    modifies writer
    ensures forall t: Bytes {:trigger EncPoint(p, t)} :: writer.bytes + t == old(writer.bytes) + EncPoint(p, t)
  {
    writer.F64(p.x);
    writer.F64(p.y);
  }

  method EncodeCorners(writer: BinaryWriter, corners: seq<Point>)
    modifies writer
    ensures forall t: Bytes {:trigger EncPoints(corners, t)} ::
              writer.bytes + t == old(writer.bytes) + EncPoints(corners, t)
  {
    for i := 0 to |corners|
      invariant forall t: Bytes {:trigger EncPoints(corners, t)} ::
                  writer.bytes + EncPoints(corners[i..], t) == old(writer.bytes) + EncPoints(corners, t)
    {
      EncodePoint(writer, corners[i]);
      assert corners[i..][1..] == corners[i + 1..];
    }
  }

  method EncodeMarker(writer: BinaryWriter, m: Marker) returns (ok: bool)
    modifies writer
    ensures ok <==> MarkerFits(m)
    ensures ok ==> forall t: Bytes {:trigger EncMarker(m, t)} ::
              writer.bytes + t == old(writer.bytes) + EncMarker(m, t)
  {
    ok := writer.RawBytes(m.role);
    if !ok { return; }
    ok := writer.RawBytes(m.family);
    if !ok { return; }
    writer.U32(m.id);
    writer.U32(m.hammingErrors);
    writer.F64(m.margin);
    EncodePoint(writer, m.center);
    ok := writer.Length(|m.corners|);
    if !ok { return; }
    EncodeCorners(writer, m.corners);
  }

  method EncodeMarkers(writer: BinaryWriter, markers: seq<Marker>) returns (ok: bool)
    modifies writer
    ensures ok <==> MarkersFit(markers)
    ensures ok ==> forall t: Bytes {:trigger EncMarkers(markers, t)} ::
              writer.bytes + t == old(writer.bytes) + EncMarkers(markers, t)
  {
    for i := 0 to |markers|
      invariant MarkersFit(markers[..i])
      invariant MarkersFit(markers) ==> forall t: Bytes {:trigger EncMarkers(markers, t)} ::
                  writer.bytes + EncMarkers(markers[i..], t) == old(writer.bytes) + EncMarkers(markers, t)
    {
      ok := EncodeMarker(writer, markers[i]);
      if !ok { return; }
      assert markers[i..][1..] == markers[i + 1..];
    }
    assert markers[..|markers|] == markers;
    return true;
  }

  method EncodeTags(writer: BinaryWriter, tags: seq<U32>)
    modifies writer
    ensures forall t: Bytes {:trigger EncTags(tags, t)} ::
              writer.bytes + t == old(writer.bytes) + EncTags(tags, t)
  {
    for i := 0 to |tags|
      invariant forall t: Bytes {:trigger EncTags(tags, t)} ::
                  writer.bytes + EncTags(tags[i..], t) == old(writer.bytes) + EncTags(tags, t)
    {
      writer.U32(tags[i]);
      assert tags[i..][1..] == tags[i + 1..];
    }
  }

  method EncodeUnexpectedTags(writer: BinaryWriter, tags: seq<U32>) returns (ok: bool)
    modifies writer
    ensures ok <==> |tags| < U32_LIMIT
    ensures ok ==> forall t: Bytes {:trigger EncTags(tags, t)} ::
              writer.bytes + t == old(writer.bytes) + (U32Bytes(|tags|) + EncTags(tags, t))
  {
    ok := writer.Length(|tags|);
    if !ok { return; }
    EncodeTags(writer, tags);
  }

  method EncodeQuality(writer: BinaryWriter, q: Quality)
    modifies writer
    ensures forall t: Bytes {:trigger EncQuality(q, t)} :: writer.bytes + t == old(writer.bytes) + EncQuality(q, t)
  {
    writer.OptionalF64(q.focusVariance);
    writer.OptionalU64(q.focusSamples);
    writer.F64(q.meanLuminance);
    writer.F64(q.deviation);
    writer.F64(q.darkFraction);
    writer.F64(q.highlightFraction);
    writer.F64(q.maxTileHighlight);
    writer.U32(q.populatedTiles);
  }

  method EncodeAnalysis(writer: BinaryWriter, a: Analysis) returns (ok: bool)
    modifies writer
    ensures ok <==> AnalysisFits(a)
    ensures ok ==> forall t: Bytes {:trigger EncAnalysis(a, t)} ::
              writer.bytes + t == old(writer.bytes) + EncAnalysis(a, t)
  {
    writer.U32(a.width);
    writer.U32(a.height);
    writer.U32(a.sourceRotation);
    writer.U32(a.orientation);
    ok := writer.Length(|a.markers|);
    if !ok { return; }
    ok := EncodeMarkers(writer, a.markers);
    if !ok { return; }
    ok := EncodeUnexpectedTags(writer, a.unexpectedTags);
    if !ok { return; }
    EncodeQuality(writer, a.quality);
  }

  method EncodeRgb(writer: BinaryWriter, r: Rgb) returns (ok: bool)
    modifies writer
    ensures ok <==> |r.bytes| < U32_LIMIT
    ensures ok ==> forall t: Bytes {:trigger EncRgb(r, t)} :: writer.bytes + t == old(writer.bytes) + EncRgb(r, t)
  {
    writer.U32(r.width);
    writer.U32(r.height);
    ok := writer.RawBytes(r.bytes);
  }

  method EncodeMatrix(writer: BinaryWriter, matrix: seq<Double>)
    modifies writer
    ensures forall t: Bytes {:trigger EncDoubles(matrix, t)} ::
              writer.bytes + t == old(writer.bytes) + EncDoubles(matrix, t)
  {
    for i := 0 to |matrix|
      invariant forall t: Bytes {:trigger EncDoubles(matrix, t)} ::
                  writer.bytes + EncDoubles(matrix[i..], t) == old(writer.bytes) + EncDoubles(matrix, t)
    {
      writer.F64(matrix[i]);
      assert matrix[i..][1..] == matrix[i + 1..];
    }
  }

  /** The whole result, or a refusal exactly when some length does not fit. */
  method EncodeResult(p: Preview) returns (result: Option<Bytes>)
    requires |p.matrix| == MATRIX_SIZE
    ensures result.Some? <==> Encodable(p)
    ensures result.Some? ==> result.value == Encoding(p)
  {
    var imageBytes := |p.corrected.bytes| + |p.thumbnail.bytes|;
    if imageBytes >= U64_LIMIT || imageBytes + HEADROOM >= U64_LIMIT {
      return None;
    }
    var writer := new BinaryWriter(MAGIC);
    writer.U32(p.pipelineVersion);
    var ok := writer.Length(|p.matrix|);
    EncodeMatrix(writer, p.matrix);
    ok := EncodeAnalysis(writer, p.analysis);
    if !ok { return None; }
    ok := EncodeRgb(writer, p.corrected);
    if !ok { return None; }
    ok := EncodeRgb(writer, p.thumbnail);
    if !ok { return None; }
    Regroup(MAGIC, U32Bytes(CODEC_VERSION), U32Bytes(p.pipelineVersion) + (U32Bytes(|p.matrix|) +
      EncDoubles(p.matrix, EncAnalysis(p.analysis, EncRgb(p.corrected, EncRgb(p.thumbnail, []))))));
    assert writer.bytes + [] == writer.bytes;
    return Some(writer.bytes);
  }
}
