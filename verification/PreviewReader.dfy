/**
 * Reading a preview result back. `strict` selects the limits the Android reader adds: counts and
 * dimensions within its 31-bit integers, and image bytes that match the dimensions. Without them the
 * reader recovers everything the writer can encode, so the encoding is injective.
 */
module PreviewReader {
  import opened Prelude
  import opened Numerals
  import opened PreviewCodec

  /** A value and the bytes after it, or nothing. */
  datatype Parse<+T> = Malformed | Parsed(value: T, rest: Bytes) {
    predicate IsFailure() {
      Malformed?
    }

    function PropagateFailure<U>(): Parse<U>
      requires IsFailure()
    {
      Malformed
    }

    function Extract(): (T, Bytes)
      requires !IsFailure()
    {
      (value, rest)
    }
  }

  // ---- fields ------------------------------------------------------------------------------------

  function ReadU8(b: Bytes): Parse<byte> {
    if |b| < 1 then Malformed else Parsed(b[0], b[1..])
  }

  function ReadU32(b: Bytes): Parse<U32> {
    if |b| < 4 then Malformed
    else
      NumberBound(b[..4]);
      WidthLimits();
      Parsed(NumberOf(b[..4]), b[4..])
  }

  function ReadU64(b: Bytes): Parse<U64> {
    if |b| < 8 then Malformed
    else
      NumberBound(b[..8]);
      WidthLimits();
      Parsed(NumberOf(b[..8]), b[8..])
  }

  function ReadDouble(b: Bytes): Parse<Double> {
    if |b| < 8 then Malformed else Parsed(b[..8], b[8..])
  }

  /** A 32-bit number that a strict reader keeps in a signed integer. */
  function ReadInt(strict: bool, b: Bytes): Parse<U32> {
    var n :- ReadU32(b);
    if strict && n.0 > INT_MAX then Malformed else Parsed(n.0, n.1)
  }

  function ReadBytes(strict: bool, b: Bytes): Parse<Bytes> {
    var n :- ReadInt(strict, b);
    if n.0 > |n.1| then Malformed else Parsed(n.1[..n.0], n.1[n.0..])
  }

  function ReadOptionalDouble(b: Bytes): Parse<Option<Double>> {
    var flag :- ReadU8(b);
    if flag.0 == 0 then Parsed(None, flag.1)
    else if flag.0 == 1 then
      var d :- ReadDouble(flag.1);
      Parsed(Some(d.0), d.1)
    else Malformed
  }

  function ReadOptionalU64(b: Bytes): Parse<Option<U64>> {
    var flag :- ReadU8(b);
    if flag.0 == 0 then Parsed(None, flag.1)
    else if flag.0 == 1 then
      var n :- ReadU64(flag.1);
      Parsed(Some(n.0), n.1)
    else Malformed
  }

  // ---- records -----------------------------------------------------------------------------------

  function ReadPoint(b: Bytes): Parse<Point> {
    var x :- ReadDouble(b);
    var y :- ReadDouble(x.1);
    Parsed(Point(x.0, y.0), y.1)
  }

  function ReadPoints(n: nat, b: Bytes): Parse<seq<Point>> {
    if n == 0 then Parsed([], b)
    else
      var p :- ReadPoint(b);
      var ps :- ReadPoints(n - 1, p.1);
      Parsed([p.0] + ps.0, ps.1)
  }

  function ReadMarker(strict: bool, b: Bytes): Parse<Marker> {
    var role :- ReadBytes(strict, b);
    var family :- ReadBytes(strict, role.1);
    var id :- ReadU32(family.1);
    var errors :- ReadU32(id.1);
    var margin :- ReadDouble(errors.1);
    var center :- ReadPoint(margin.1);
    var count :- ReadInt(strict, center.1);
    var corners :- ReadPoints(count.0, count.1);
    Parsed(Marker(role.0, family.0, id.0, errors.0, margin.0, center.0, corners.0), corners.1)
  }

  function ReadMarkers(strict: bool, n: nat, b: Bytes): Parse<seq<Marker>> {
    if n == 0 then Parsed([], b)
    else
      var m :- ReadMarker(strict, b);
      var ms :- ReadMarkers(strict, n - 1, m.1);
      Parsed([m.0] + ms.0, ms.1)
  }

  function ReadTags(n: nat, b: Bytes): Parse<seq<U32>> {
    if n == 0 then Parsed([], b)
    else
      var tag :- ReadU32(b);
      var tags :- ReadTags(n - 1, tag.1);
      Parsed([tag.0] + tags.0, tags.1)
  }

  function ReadDoubles(n: nat, b: Bytes): Parse<seq<Double>> {
    if n == 0 then Parsed([], b)
    else
      var d :- ReadDouble(b);
      var ds :- ReadDoubles(n - 1, d.1);
      Parsed([d.0] + ds.0, ds.1)
  }

  function ReadQuality(b: Bytes): Parse<Quality> {
    var variance :- ReadOptionalDouble(b);
    var samples :- ReadOptionalU64(variance.1);
    var mean :- ReadDouble(samples.1);
    var deviation :- ReadDouble(mean.1);
    var dark :- ReadDouble(deviation.1);
    var highlight :- ReadDouble(dark.1);
    var tile :- ReadDouble(highlight.1);
    var populated :- ReadU32(tile.1);
    Parsed(Quality(variance.0, samples.0, mean.0, deviation.0, dark.0, highlight.0, tile.0, populated.0),
           populated.1)
  }

  function ReadAnalysis(strict: bool, b: Bytes): Parse<Analysis> {
    var width :- ReadU32(b);
    var height :- ReadU32(width.1);
    var rotation :- ReadInt(strict, height.1);
    var orientation :- ReadInt(strict, rotation.1);
    var count :- ReadInt(strict, orientation.1);
    var markers :- ReadMarkers(strict, count.0, count.1);
    var tagCount :- ReadInt(strict, markers.1);
    var tags :- ReadTags(tagCount.0, tagCount.1);
    var quality :- ReadQuality(tags.1);
    Parsed(Analysis(width.0, height.0, rotation.0, orientation.0, markers.0, tags.0, quality.0), quality.1)
  }

  function ReadRgb(strict: bool, b: Bytes): Parse<Rgb> {
    var width :- ReadInt(strict, b);
    var height :- ReadInt(strict, width.1);
    if strict && (width.0 == 0 || height.0 == 0 || width.0 * height.0 * 3 > INT_MAX) then Malformed
    else
      var bytes :- ReadBytes(strict, height.1);
      if strict && |bytes.0| != width.0 * height.0 * 3 then Malformed
      else Parsed(Rgb(width.0, height.0, bytes.0), bytes.1)
  }

  function ReadHeader(b: Bytes): Parse<()> {
    if |b| < 8 || b[..4] != MAGIC then Malformed
    else
      var version :- ReadU32(b[4..]);
      if version.0 != CODEC_VERSION then Malformed else Parsed((), version.1)
  }

  /** A whole result: nothing may be left over. */
  function Decode(strict: bool, b: Bytes): Option<Preview> {
    match ReadPreview(strict, b)
    case Parsed(p, rest) => if rest == [] then Some(p) else None
    case Malformed => None
  }

  function ReadPreview(strict: bool, b: Bytes): Parse<Preview> {
    var header :- ReadHeader(b);
    var version :- ReadInt(strict, header.1);
    var count :- ReadInt(strict, version.1);
    var matrix :- ReadDoubles(count.0, count.1);
    if |matrix.0| != MATRIX_SIZE then Malformed
    else
      var analysis :- ReadAnalysis(strict, matrix.1);
      var corrected :- ReadRgb(strict, analysis.1);
      var thumbnail :- ReadRgb(strict, corrected.1);
      Parsed(Preview(version.0, matrix.0, analysis.0, corrected.0, thumbnail.0), thumbnail.1)
  }

  // ---- what a strict reader accepts --------------------------------------------------------------

  predicate IntOk(strict: bool, n: nat) {
    strict ==> n <= INT_MAX
  }

  predicate MarkerOk(strict: bool, m: Marker) {
    IntOk(strict, |m.role|) && IntOk(strict, |m.family|) && IntOk(strict, |m.corners|)
  }

  predicate MarkersOk(strict: bool, ms: seq<Marker>) {
    forall i :: 0 <= i < |ms| ==> MarkerOk(strict, ms[i])
  }

  predicate AnalysisOk(strict: bool, a: Analysis) {
    && IntOk(strict, a.sourceRotation) && IntOk(strict, a.orientation)
    && IntOk(strict, |a.markers|) && MarkersOk(strict, a.markers) && IntOk(strict, |a.unexpectedTags|)
  }

  predicate RgbOk(strict: bool, r: Rgb) {
    strict ==> r.width > 0 && r.height > 0 && |r.bytes| == r.width * r.height * 3 <= INT_MAX
  }

  predicate Presentable(strict: bool, p: Preview) {
    && IntOk(strict, p.pipelineVersion) && AnalysisOk(strict, p.analysis)
    && RgbOk(strict, p.corrected) && RgbOk(strict, p.thumbnail)
  }

  // ---- reading peels off what was written ----------------------------------------------------------

  lemma ReadsU32(v: U32, t: Bytes)
    ensures ReadU32(U32Bytes(v) + t) == Parsed(v, t)
  {
    WidthLimits();
    NumberRoundTrip(4, v);
    assert (U32Bytes(v) + t)[..4] == U32Bytes(v);
    assert (U32Bytes(v) + t)[4..] == t;
  }

  lemma ReadsU64(v: U64, t: Bytes)
    ensures ReadU64(U64Bytes(v) + t) == Parsed(v, t)
  {
    WidthLimits();
    NumberRoundTrip(8, v);
    assert (U64Bytes(v) + t)[..8] == U64Bytes(v);
    assert (U64Bytes(v) + t)[8..] == t;
  }

  lemma ReadsDouble(d: Double, t: Bytes)
    ensures ReadDouble(d + t) == Parsed(d, t)
  {
    assert (d + t)[..8] == d;
    assert (d + t)[8..] == t;
  }

  lemma ReadsInt(strict: bool, v: U32, t: Bytes)
    ensures ReadInt(strict, U32Bytes(v) + t) == if IntOk(strict, v) then Parsed(v, t) else Malformed
  {
    ReadsU32(v, t);
  }

  lemma ReadsBytes(strict: bool, s: Bytes, t: Bytes)
    requires |s| < U32_LIMIT
    ensures ReadBytes(strict, EncBytes(s, t)) == if IntOk(strict, |s|) then Parsed(s, t) else Malformed
  {
    ReadsInt(strict, |s|, s + t);
    assert (s + t)[..|s|] == s;
    assert (s + t)[|s|..] == t;
  }

  lemma ReadsFlag(flag: byte, t: Bytes)
    ensures ReadU8([flag] + t) == Parsed(flag, t)
  {
    assert ([flag] + t)[1..] == t;
  }

  lemma ReadsOptionalDouble(d: Option<Double>, t: Bytes)
    ensures ReadOptionalDouble(EncOptionalDouble(d, t)) == Parsed(d, t)
  {
    match d
    case Some(v) =>
      ReadsFlag(1, v + t);
      ReadsDouble(v, t);
    case None => ReadsFlag(0, t);
  }

  lemma ReadsOptionalU64(v: Option<U64>, t: Bytes)
    ensures ReadOptionalU64(EncOptionalU64(v, t)) == Parsed(v, t)
  {
    match v
    case Some(n) =>
      ReadsFlag(1, U64Bytes(n) + t);
      ReadsU64(n, t);
    case None => ReadsFlag(0, t);
  }

  lemma ReadsPoint(p: Point, t: Bytes)
    ensures ReadPoint(EncPoint(p, t)) == Parsed(p, t)
  {
    ReadsDouble(p.x, p.y + t);
    ReadsDouble(p.y, t);
  }

  lemma {:induction false} ReadsPoints(ps: seq<Point>, t: Bytes)
    ensures ReadPoints(|ps|, EncPoints(ps, t)) == Parsed(ps, t)
  {
    if ps != [] {
      ReadsPoint(ps[0], EncPoints(ps[1..], t));
      ReadsPoints(ps[1..], t);
      assert ps == [ps[0]] + ps[1..];
    }
  }

  lemma ReadsMarker(strict: bool, m: Marker, t: Bytes)
    requires MarkerFits(m)
    ensures ReadMarker(strict, EncMarker(m, t)) == if MarkerOk(strict, m) then Parsed(m, t) else Malformed
  {
    var corners := EncPoints(m.corners, t);
    var count := U32Bytes(|m.corners|) + corners;
    var center := EncPoint(m.center, count);
    var margin := m.margin + center;
    var errors := U32Bytes(m.hammingErrors) + margin;
    var id := U32Bytes(m.id) + errors;
    ReadsBytes(strict, m.role, EncBytes(m.family, id));
    ReadsBytes(strict, m.family, id);
    ReadsU32(m.id, errors);
    ReadsU32(m.hammingErrors, margin);
    ReadsDouble(m.margin, center);
    ReadsPoint(m.center, count);
    ReadsInt(strict, |m.corners|, corners);
    ReadsPoints(m.corners, t);
  }

  lemma FirstMarkerOk(strict: bool, ms: seq<Marker>)
    requires ms != []
    ensures MarkersOk(strict, ms) <==> MarkerOk(strict, ms[0]) && MarkersOk(strict, ms[1..])
  {
    if MarkerOk(strict, ms[0]) && MarkersOk(strict, ms[1..]) {
      forall i | 0 <= i < |ms|
        ensures MarkerOk(strict, ms[i])
      {
        assert i == 0 || ms[i] == ms[1..][i - 1];
      }
    }
  }

  lemma ReadsOneMore(strict: bool, m: Marker, ms: seq<Marker>, t: Bytes)
    requires MarkerFits(m) && MarkersFit(ms)
    requires ReadMarker(strict, EncMarker(m, EncMarkers(ms, t)))
             == if MarkerOk(strict, m) then Parsed(m, EncMarkers(ms, t)) else Malformed
    requires ReadMarkers(strict, |ms|, EncMarkers(ms, t)) == if MarkersOk(strict, ms) then Parsed(ms, t) else Malformed
    ensures ReadMarkers(strict, |ms| + 1, EncMarker(m, EncMarkers(ms, t)))
            == if MarkerOk(strict, m) && MarkersOk(strict, ms) then Parsed([m] + ms, t) else Malformed
  {}

  lemma {:induction false} ReadsMarkers(strict: bool, ms: seq<Marker>, t: Bytes)
    requires MarkersFit(ms)
    ensures ReadMarkers(strict, |ms|, EncMarkers(ms, t)) == if MarkersOk(strict, ms) then Parsed(ms, t) else Malformed
  {
    if ms != [] {
      ReadsMarker(strict, ms[0], EncMarkers(ms[1..], t));
      ReadsMarkers(strict, ms[1..], t);
      FirstMarkerOk(strict, ms);
      ReadsOneMore(strict, ms[0], ms[1..], t);
      assert ms == [ms[0]] + ms[1..];
    }
  }

  lemma {:induction false} ReadsTags(tags: seq<U32>, t: Bytes)
    ensures ReadTags(|tags|, EncTags(tags, t)) == Parsed(tags, t)
  {
    if tags != [] {
      ReadsU32(tags[0], EncTags(tags[1..], t));
      ReadsTags(tags[1..], t);
      assert tags == [tags[0]] + tags[1..];
    }
  }

  lemma {:induction false} ReadsDoubles(ds: seq<Double>, t: Bytes)
    ensures ReadDoubles(|ds|, EncDoubles(ds, t)) == Parsed(ds, t)
  {
    if ds != [] {
      ReadsDouble(ds[0], EncDoubles(ds[1..], t));
      ReadsDoubles(ds[1..], t);
      assert ds == [ds[0]] + ds[1..];
    }
  }

  lemma ReadsQuality(q: Quality, t: Bytes)
    ensures ReadQuality(EncQuality(q, t)) == Parsed(q, t)
  {
    var populated := U32Bytes(q.populatedTiles) + t;
    var tile := q.maxTileHighlight + populated;
    var highlight := q.highlightFraction + tile;
    var dark := q.darkFraction + highlight;
    var deviation := q.deviation + dark;
    var mean := q.meanLuminance + deviation;
    ReadsOptionalDouble(q.focusVariance, EncOptionalU64(q.focusSamples, mean));
    ReadsOptionalU64(q.focusSamples, mean);
    ReadsDouble(q.meanLuminance, deviation);
    ReadsDouble(q.deviation, dark);
    ReadsDouble(q.darkFraction, highlight);
    ReadsDouble(q.highlightFraction, tile);
    ReadsDouble(q.maxTileHighlight, populated);
    ReadsU32(q.populatedTiles, t);
  }

  lemma ReadsAnalysis(strict: bool, a: Analysis, t: Bytes)
    requires AnalysisFits(a)
    ensures ReadAnalysis(strict, EncAnalysis(a, t)) == if AnalysisOk(strict, a) then Parsed(a, t) else Malformed
  {
    var quality := EncQuality(a.quality, t);
    var tags := EncTags(a.unexpectedTags, quality);
    var tagCount := U32Bytes(|a.unexpectedTags|) + tags;
    var markers := EncMarkers(a.markers, tagCount);
    var count := U32Bytes(|a.markers|) + markers;
    var orientation := U32Bytes(a.orientation) + count;
    var rotation := U32Bytes(a.sourceRotation) + orientation;
    var height := U32Bytes(a.height) + rotation;
    ReadsU32(a.width, height);
    ReadsU32(a.height, rotation);
    ReadsInt(strict, a.sourceRotation, orientation);
    ReadsInt(strict, a.orientation, count);
    ReadsInt(strict, |a.markers|, markers);
    ReadsMarkers(strict, a.markers, tagCount);
    ReadsInt(strict, |a.unexpectedTags|, tags);
    ReadsTags(a.unexpectedTags, quality);
    ReadsQuality(a.quality, t);
  }

  lemma ReadsRgb(strict: bool, r: Rgb, t: Bytes)
    requires |r.bytes| < U32_LIMIT
    ensures ReadRgb(strict, EncRgb(r, t)) == if RgbOk(strict, r) then Parsed(r, t) else Malformed
  {
    var bytes := EncBytes(r.bytes, t);
    ReadsInt(strict, r.width, U32Bytes(r.height) + bytes);
    ReadsInt(strict, r.height, bytes);
    ReadsBytes(strict, r.bytes, t);
    if r.width > 0 && r.height > 0 {
      FactorsAreSmall(r.width, r.height);
    }
  }

  lemma FactorsAreSmall(w: nat, h: nat)
    requires w > 0 && h > 0
    ensures w <= w * h && h <= w * h
  {
    MulMonotone(1, h, w);
    MulMonotone(1, w, h);
  }

  lemma ReadsHeader(t: Bytes)
    ensures ReadHeader(MAGIC + (U32Bytes(CODEC_VERSION) + t)) == Parsed((), t)
  {
    var b := MAGIC + (U32Bytes(CODEC_VERSION) + t);
    assert b[..4] == MAGIC;
    assert b[4..] == U32Bytes(CODEC_VERSION) + t;
    ReadsU32(CODEC_VERSION, t);
  }

  // ---- the theorems --------------------------------------------------------------------------------

  lemma ReadsPreview(strict: bool, p: Preview)
    requires Encodable(p)
    ensures ReadPreview(strict, Encoding(p)) == if Presentable(strict, p) then Parsed(p, []) else Malformed
  {
    var thumbnail := EncRgb(p.thumbnail, []);
    var corrected := EncRgb(p.corrected, thumbnail);
    var analysis := EncAnalysis(p.analysis, corrected);
    var matrix := EncDoubles(p.matrix, analysis);
    var count := U32Bytes(|p.matrix|) + matrix;
    ReadsHeader(U32Bytes(p.pipelineVersion) + count);
    ReadsInt(strict, p.pipelineVersion, count);
    ReadsInt(strict, |p.matrix|, matrix);
    ReadsDoubles(p.matrix, analysis);
    ReadsAnalysis(strict, p.analysis, corrected);
    ReadsRgb(strict, p.corrected, thumbnail);
    ReadsRgb(strict, p.thumbnail, []);
  }

  lemma LenientAcceptsAll(p: Preview)
    ensures Presentable(false, p)
  {}

  /** Every encodable result is recovered from its bytes, with nothing left over. */
  lemma DecodeUndoesEncoding(p: Preview)
    requires Encodable(p)
    ensures Decode(false, Encoding(p)) == Some(p)
  {
    LenientAcceptsAll(p);
    ReadsPreview(false, p);
  }

  /** Two results never share an encoding. */
  lemma EncodingIsInjective(p: Preview, q: Preview)
    requires Encodable(p) && Encodable(q) && Encoding(p) == Encoding(q)
    ensures p == q
  {
    DecodeUndoesEncoding(p);
    DecodeUndoesEncoding(q);
  }

  /** The Android reader accepts exactly the results within its limits, and recovers them. */
  lemma StrictReaderAccepts(p: Preview)
    requires Encodable(p)
    ensures Decode(true, Encoding(p)) == if Presentable(true, p) then Some(p) else None
  {
    ReadsPreview(true, p);
  }
}
