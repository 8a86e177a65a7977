/**
 * For which corners the homography system has exactly one solution: when one polynomial in their coordinates,
 * the defect, is not zero. Here a defect makes the system regular; HomographyMaps has the other half.
 */
module HomographySystem {
  import opened Prelude
  import opened LinearSolver

  /** Twice the signed area of the triangle; zero exactly when the corners are on a line. */
  function Area(a: Corner, b: Corner, c: Corner): real {
    a.x * (b.y - c.y) + b.x * (c.y - a.y) + c.x * (a.y - b.y)
  }

  /** Twice the signed area of the triangle with the origin. */
  function Wedge(a: Corner, b: Corner): real {
    a.x * b.y - b.x * a.y
  }

  /** The line with coefficients `p`, `q`, `t`, at the corner. */
  function Line(p: real, q: real, t: real, a: Corner): real {
    p * a.x + q * a.y + t
  }

  function Mixed(x: real, y: real, z: real, a: real, b: real, c: real, f: real, g: real, h: real): real {
    (x * (b * c)) * f + (y * (a * c)) * g + (z * (a * b)) * h
  }

  /** The polynomial that decides: source areas, destination areas, and destination areas with the origin. */
  function Defect(d: seq<Corner>, s: seq<Corner>): real
    requires |d| == |s| == CORNERS
  {
    Mixed(Area(s[1], s[2], s[3]), Area(s[2], s[0], s[3]), Area(s[0], s[1], s[3]),
          Area(d[1], d[2], d[3]), Area(d[2], d[0], d[3]), Area(d[0], d[1], d[3]),
          Wedge(d[1], d[2]), Wedge(d[2], d[0]), Wedge(d[0], d[1]))
  }

  // ---- vectors the system sends to zero --------------------------------------------------------------

  /** What one corner's two equations say of a vector they send to zero. */
  predicate Vanishes(c: seq<real>, d: Corner, s: Corner)
    requires |c| == 8
  {
    var w := Line(c[6], c[7], 0.0, d);
    Line(c[0], c[1], c[2], d) == s.x * w && Line(c[3], c[4], c[5], d) == s.y * w
  }

  predicate VanishesAt(c: seq<real>, d: seq<Corner>, s: seq<Corner>)
    requires |c| == 8 && |d| == |s| == CORNERS
  {
    forall i :: 0 <= i < CORNERS ==> Vanishes(c, d[i], s[i])
  }

  lemma CrossTerms(u: real, x: real, y: real, g: real, h: real, left: real)
    ensures left + (-u * x) * g + (-u * y) * h == 0.0 <==> left == u * (g * x + h * y + 0.0)
  {
    assert (-u * x) * g == -(u * (g * x));
    assert (-u * y) * h == -(u * (h * y));
    assert u * (g * x + h * y + 0.0) == u * (g * x) + u * (h * y);
  }

  lemma HorizontalDot(c: seq<real>, d: Corner, s: Corner)
    requires |c| == 8
    ensures Dot(HorizontalRow(d, s), c)
            == Line(c[0], c[1], c[2], d) + (-s.x * d.x) * c[6] + (-s.x * d.y) * c[7]
  {
    DotOfEight(HorizontalRow(d, s), c);
  }

  lemma VerticalDot(c: seq<real>, d: Corner, s: Corner)
    requires |c| == 8
    ensures Dot(VerticalRow(d, s), c)
            == Line(c[3], c[4], c[5], d) + (-s.y * d.x) * c[6] + (-s.y * d.y) * c[7]
  {
    DotOfEight(VerticalRow(d, s), c);
  }

  ghost predicate Orthogonal(row: Row, c: seq<real>)
    requires |row| == |c|
  {
    Dot(row, c) == 0.0
  }

  lemma RowsVanish(c: seq<real>, d: Corner, s: Corner)
    requires |c| == 8
    ensures Vanishes(c, d, s) <==> Orthogonal(HorizontalRow(d, s), c) && Orthogonal(VerticalRow(d, s), c)
  {
    HorizontalDot(c, d, s);
    VerticalDot(c, d, s);
    CrossTerms(s.x, d.x, d.y, c[6], c[7], Line(c[0], c[1], c[2], d));
    CrossTerms(s.y, d.x, d.y, c[6], c[7], Line(c[3], c[4], c[5], d));
  }

  ghost predicate AllOrthogonal(rows: seq<Row>, c: seq<real>)
    requires forall k :: 0 <= k < |rows| ==> |rows[k]| == |c|
  {
    forall k :: 0 <= k < |rows| ==> Orthogonal(rows[k], c)
  }

  /** The system sends exactly these vectors to zero. */
  lemma SystemVanishes(c: seq<real>, d: seq<Corner>, s: seq<Corner>)
    requires |c| == 8 && |d| == |s| == CORNERS
    ensures VanishesAt(c, d, s) <==> AllOrthogonal(HomographyRows(d, s), c)
  {
    var rows := HomographyRows(d, s);
    forall i | 0 <= i < CORNERS
      ensures Vanishes(c, d[i], s[i]) <==> Orthogonal(rows[2 * i], c) && Orthogonal(rows[2 * i + 1], c)
    {
      RowsVanish(c, d[i], s[i]);
    }
    if VanishesAt(c, d, s) {
      forall k | 0 <= k < 8
        ensures Orthogonal(rows[k], c)
      {
        assert Vanishes(c, d[k / 2], s[k / 2]);
        assert k == 2 * (k / 2) || k == 2 * (k / 2) + 1;
      }
    }
  }

  /** Singular means that some nonzero vector vanishes at all four corners. */
  lemma SingularByVectors(d: seq<Corner>, s: seq<Corner>)
    requires |d| == |s| == CORNERS
    ensures Singular(HomographyRows(d, s)) <==> exists c :: |c| == 8 && !Zero(c) && VanishesAt(c, d, s)
  {
    var rows := HomographyRows(d, s);
    if Singular(rows) {
      var c :| |c| == 8 && !Zero(c) && forall i :: 0 <= i < |rows| ==> Dot(rows[i], c) == 0.0;
      assert AllOrthogonal(rows, c);
      SystemVanishes(c, d, s);
    }
    if c :| |c| == 8 && !Zero(c) && VanishesAt(c, d, s) {
      SystemVanishes(c, d, s);
      SingularByVector(rows, c);
    }
  }

  lemma SingularByVector(rows: seq<Row>, c: seq<real>)
    requires Square(rows) && |c| == |rows| && !Zero(c) && AllOrthogonal(rows, c)
    ensures Singular(rows)
  {
    forall i | 0 <= i < |rows|
      ensures Dot(rows[i], c) == 0.0
    {
      assert Orthogonal(rows[i], c);
    }
  }

  // ---- a nonzero polynomial makes the system regular --------------------------------------------------

  /** Cramer's rule for a line at four corners. */
  lemma FourCorners(p: real, q: real, t: real, a: Corner, b: Corner, c: Corner, d: Corner)
    ensures Area(b, c, d) * Line(p, q, t, a) + Area(c, a, d) * Line(p, q, t, b) + Area(a, b, d) * Line(p, q, t, c)
            == Area(a, b, c) * Line(p, q, t, d)
  {}

  lemma WedgesVanish(g: real, h: real, a: Corner, b: Corner, c: Corner)
    ensures Cancels(Wedge(b, c), Wedge(c, a), Wedge(a, b), Line(g, h, 0.0, a), Line(g, h, 0.0, b), Line(g, h, 0.0, c))
  {}

  /** The weighted source corners balance, with their coordinates and without. */
  predicate Balanced(a: real, b: real, c: real, e: real, u: real, v: real, w: real, z: real, s: seq<Corner>)
    requires |s| == CORNERS
  {
    && a * u + b * v + c * w == e * z
    && a * (s[0].x * u) + b * (s[1].x * v) + c * (s[2].x * w) == e * (s[3].x * z)
    && a * (s[0].y * u) + b * (s[1].y * v) + c * (s[2].y * w) == e * (s[3].y * z)
  }

  function Weight(c: seq<real>, d: Corner): real
    requires |c| == 8
  {
    Line(c[6], c[7], 0.0, d)
  }

  /** Cramer's rule for the three lines of a vanishing vector. */
  lemma WeightsBalance(c: seq<real>, d: seq<Corner>, s: seq<Corner>)
    requires |c| == 8 && |d| == |s| == CORNERS && VanishesAt(c, d, s)
    ensures Balanced(Area(d[1], d[2], d[3]), Area(d[2], d[0], d[3]), Area(d[0], d[1], d[3]), Area(d[0], d[1], d[2]),
                     Weight(c, d[0]), Weight(c, d[1]), Weight(c, d[2]), Weight(c, d[3]), s)
  {
    FourCorners(c[6], c[7], 0.0, d[0], d[1], d[2], d[3]);
    FourCorners(c[0], c[1], c[2], d[0], d[1], d[2], d[3]);
    FourCorners(c[3], c[4], c[5], d[0], d[1], d[2], d[3]);
    assert Vanishes(c, d[0], s[0]) && Vanishes(c, d[1], s[1]) && Vanishes(c, d[2], s[2]) && Vanishes(c, d[3], s[3]);
  }

  /** Two of four balanced corners against the line through the other two. */
  lemma PairBalance(a: real, b: real, c: real, e: real, i: Corner, j: Corner, k: Corner, l: Corner)
    requires a + b + c == e
    requires a * i.x + b * j.x + c * k.x == e * l.x
    requires a * i.y + b * j.y + c * k.y == e * l.y
    ensures a * Area(i, k, l) + b * Area(j, k, l) == 0.0
  {
    var p, q, t := k.y - l.y, l.x - k.x, k.x * l.y - l.x * k.y;
    assert Area(i, k, l) == p * i.x + q * i.y + t && Area(j, k, l) == p * j.x + q * j.y + t;
    assert p * k.x + q * k.y + t == 0.0 && p * l.x + q * l.y + t == 0.0;
    Weigh(a, b, c, e, p, i.x, j.x, k.x, l.x);
    Weigh(a, b, c, e, q, i.y, j.y, k.y, l.y);
    Weigh(a, b, c, e, t, 1.0, 1.0, 1.0, 1.0);
    Gather(a, p, i.x, q, i.y, t);
    Gather(b, p, j.x, q, j.y, t);
    Gather(c, p, k.x, q, k.y, t);
    Gather(e, p, l.x, q, l.y, t);
  }

  lemma Weigh(a: real, b: real, c: real, e: real, p: real, i: real, j: real, k: real, l: real)
    requires a * i + b * j + c * k == e * l
    ensures a * (p * i) + b * (p * j) + c * (p * k) == e * (p * l)
  {
    assert a * (p * i) == p * (a * i) && b * (p * j) == p * (b * j);
    assert c * (p * k) == p * (c * k) && e * (p * l) == p * (e * l);
    assert p * (a * i) + p * (b * j) + p * (c * k) == p * (a * i + b * j + c * k);
  }

  lemma Gather(a: real, p: real, x: real, q: real, y: real, t: real)
    ensures a * (p * x + q * y + t) == a * (p * x) + a * (q * y) + a * (t * 1.0)
  {}

  /** The weights of three corners are in the ratio of `x / a`, `y / b` and `z / c`. */
  predicate Proportional(x: real, y: real, z: real, a: real, b: real, c: real, u: real, v: real, w: real) {
    y * (a * u) == x * (b * v) && z * (a * u) == x * (c * w) && z * (b * v) == y * (c * w)
  }

  predicate Cancels(f: real, g: real, h: real, u: real, v: real, w: real) {
    f * u + g * v + h * w == 0.0
  }

  predicate Killed(m: real, u: real, v: real, w: real) {
    m * u == 0.0 && m * v == 0.0 && m * w == 0.0
  }

  /** The mixed product times a weight is a multiple of what cancels, and so zero. */
  lemma MixedKillsWeights(x: real, y: real, z: real, a: real, b: real, c: real, f: real, g: real, h: real,
                          u: real, v: real, w: real)
    requires Proportional(x, y, z, a, b, c, u, v, w) && Cancels(f, g, h, u, v, w)
    ensures Killed(Mixed(x, y, z, a, b, c, f, g, h), u, v, w)
  {
    TimesWeight(x * (b * c), y * (a * c), z * (a * b), f, g, h, u);
    TimesWeight(x * (b * c), y * (a * c), z * (a * b), f, g, h, v);
    TimesWeight(x * (b * c), y * (a * c), z * (a * b), f, g, h, w);
    assert (y * (a * c)) * u == c * (y * (a * u)) && (x * (b * c)) * v == c * (x * (b * v));
    assert (z * (a * b)) * u == b * (z * (a * u)) && (x * (b * c)) * w == b * (x * (c * w));
    assert (z * (a * b)) * v == a * (z * (b * v)) && (y * (a * c)) * w == a * (y * (c * w));
    Balance(x * (b * c), f, g, h, u, v, w);
    Balance(y * (a * c), f, g, h, u, v, w);
    Balance(z * (a * b), f, g, h, u, v, w);
  }

  lemma TimesWeight(i: real, j: real, k: real, f: real, g: real, h: real, u: real)
    ensures (i * f + j * g + k * h) * u == f * (i * u) + g * (j * u) + h * (k * u)
  {}

  lemma Balance(m: real, f: real, g: real, h: real, u: real, v: real, w: real)
    requires f * u + g * v + h * w == 0.0
    ensures f * (m * u) + g * (m * v) + h * (m * w) == 0.0
  {
    assert f * (m * u) + g * (m * v) + h * (m * w) == m * (f * u + g * v + h * w);
  }

  /** What the balance says of each pair of weights. */
  lemma BalancedIsProportional(a: real, b: real, c: real, e: real, u: real, v: real, w: real, z: real, s: seq<Corner>)
    requires |s| == CORNERS && Balanced(a, b, c, e, u, v, w, z, s)
    ensures Proportional(Area(s[1], s[2], s[3]), Area(s[2], s[0], s[3]), Area(s[0], s[1], s[3]), a, b, c, u, v, w)
  {
    Regroup(a, u, b, v, c, w, e, z, s);
    PairBalance(a * u, b * v, c * w, e * z, s[0], s[1], s[2], s[3]);
    PairBalance(a * u, c * w, b * v, e * z, s[0], s[2], s[1], s[3]);
    PairBalance(b * v, c * w, a * u, e * z, s[1], s[2], s[0], s[3]);
    Turned(s[0], s[2], s[3]);
    Turned(s[2], s[1], s[3]);
    Turned(s[1], s[0], s[3]);
    Opposite(a * u, Area(s[0], s[2], s[3]), b * v, Area(s[1], s[2], s[3]));
    Opposite(a * u, Area(s[0], s[1], s[3]), c * w, Area(s[2], s[1], s[3]));
    Opposite(b * v, Area(s[1], s[0], s[3]), c * w, Area(s[2], s[0], s[3]));
  }

  predicate DefectKills(d: seq<Corner>, s: seq<Corner>, u: real, v: real, w: real)
    requires |d| == |s| == CORNERS
  {
    Killed(Defect(d, s), u, v, w)
  }

  /** The defect kills the weights of the first three corners. */
  lemma DefectKillsWeights(c: seq<real>, d: seq<Corner>, s: seq<Corner>)
    requires |c| == 8 && |d| == |s| == CORNERS && VanishesAt(c, d, s)
    ensures DefectKills(d, s, Weight(c, d[0]), Weight(c, d[1]), Weight(c, d[2]))
  {
    WeightsBalance(c, d, s);
    BalancedIsProportional(Area(d[1], d[2], d[3]), Area(d[2], d[0], d[3]), Area(d[0], d[1], d[3]),
                           Area(d[0], d[1], d[2]),
                           Weight(c, d[0]), Weight(c, d[1]), Weight(c, d[2]), Weight(c, d[3]), s);
    WedgesVanish(c[6], c[7], d[0], d[1], d[2]);
    MixedKillsWeights(Area(s[1], s[2], s[3]), Area(s[2], s[0], s[3]), Area(s[0], s[1], s[3]),
                      Area(d[1], d[2], d[3]), Area(d[2], d[0], d[3]), Area(d[0], d[1], d[3]),
                      Wedge(d[1], d[2]), Wedge(d[2], d[0]), Wedge(d[0], d[1]),
                      Weight(c, d[0]), Weight(c, d[1]), Weight(c, d[2]));
  }

  lemma Turned(a: Corner, b: Corner, c: Corner)
    ensures Area(a, b, c) == -Area(b, a, c)
  {}

  lemma Opposite(m: real, x: real, n: real, y: real)
    requires m * x + n * y == 0.0
    ensures (-x) * m == y * n && x * m == (-y) * n && -(x * m) == y * n
  {}

  lemma Regroup(a: real, u: real, b: real, v: real, c: real, w: real, e: real, z: real, s: seq<Corner>)
    requires |s| == CORNERS
    ensures a * (s[0].x * u) == (a * u) * s[0].x && a * (s[0].y * u) == (a * u) * s[0].y
    ensures b * (s[1].x * v) == (b * v) * s[1].x && b * (s[1].y * v) == (b * v) * s[1].y
    ensures c * (s[2].x * w) == (c * w) * s[2].x && c * (s[2].y * w) == (c * w) * s[2].y
    ensures e * (s[3].x * z) == (e * z) * s[3].x && e * (s[3].y * z) == (e * z) * s[3].y
  {}

  /** A line that is not zero and goes through three corners puts them on a line. */
  lemma OnOneLine(p: real, q: real, t: real, a: Corner, b: Corner, c: Corner)
    requires Line(p, q, t, a) == 0.0 && Line(p, q, t, b) == 0.0 && Line(p, q, t, c) == 0.0
    requires p != 0.0 || q != 0.0 || t != 0.0
    ensures Area(a, b, c) == 0.0
  {
    assert Area(a, b, c) * p == Line(p, q, t, a) * (b.y - c.y) + Line(p, q, t, b) * (c.y - a.y)
                                + Line(p, q, t, c) * (a.y - b.y);
    assert Area(a, b, c) * q == Line(p, q, t, a) * (c.x - b.x) + Line(p, q, t, b) * (a.x - c.x)
                                + Line(p, q, t, c) * (b.x - a.x);
    assert Area(a, b, c) * t == Line(p, q, t, a) * Wedge(b, c) + Line(p, q, t, b) * Wedge(c, a)
                                + Line(p, q, t, c) * Wedge(a, b);
    OneFactorIsZero(Area(a, b, c), p);
    OneFactorIsZero(Area(a, b, c), q);
    OneFactorIsZero(Area(a, b, c), t);
  }

  lemma OneFactorIsZero(a: real, b: real)
    ensures a * b == 0.0 <==> a == 0.0 || b == 0.0
  {}

  lemma OriginLine(g: real, h: real, a: Corner, b: Corner)
    requires Line(g, h, 0.0, a) == 0.0 && Line(g, h, 0.0, b) == 0.0 && (g != 0.0 || h != 0.0)
    ensures Wedge(a, b) == 0.0
  {
    assert Wedge(a, b) * g == Line(g, h, 0.0, a) * b.y - Line(g, h, 0.0, b) * a.y;
    assert Wedge(a, b) * h == Line(g, h, 0.0, b) * a.x - Line(g, h, 0.0, a) * b.x;
    OneFactorIsZero(Wedge(a, b), g);
    OneFactorIsZero(Wedge(a, b), h);
  }

  lemma NoWeightLeft(m: real, u: real, v: real, w: real)
    requires m != 0.0 && Killed(m, u, v, w)
    ensures u == 0.0 && v == 0.0 && w == 0.0
  {
    OneFactorIsZero(m, u);
    OneFactorIsZero(m, v);
    OneFactorIsZero(m, w);
  }

  /** With the defect not zero only zero vanishes at the four corners. */
  lemma DefectMakesRegular(d: seq<Corner>, s: seq<Corner>, c: seq<real>)
    requires |d| == |s| == CORNERS && Defect(d, s) != 0.0 && |c| == 8 && VanishesAt(c, d, s)
    ensures Zero(c)
  {
    DefectKillsWeights(c, d, s);
    NoWeightLeft(Defect(d, s), Weight(c, d[0]), Weight(c, d[1]), Weight(c, d[2]));
    if c[6] != 0.0 || c[7] != 0.0 {
      OriginLine(c[6], c[7], d[0], d[1]);
      OriginLine(c[6], c[7], d[1], d[2]);
      OriginLine(c[6], c[7], d[2], d[0]);
    } else {
      LinesAreZero(c, d, s);
    }
  }

  lemma LinesAreZero(c: seq<real>, d: seq<Corner>, s: seq<Corner>)
    requires |d| == |s| == CORNERS && Defect(d, s) != 0.0 && |c| == 8 && VanishesAt(c, d, s)
    requires c[6] == 0.0 && c[7] == 0.0
    ensures Zero(c)
  {
    forall i | 0 <= i < CORNERS
      ensures Line(c[0], c[1], c[2], d[i]) == 0.0 && Line(c[3], c[4], c[5], d[i]) == 0.0
    {
      assert Vanishes(c, d[i], s[i]);
    }
    if c[0] != 0.0 || c[1] != 0.0 || c[2] != 0.0 {
      FlatHasNoDefect(c[0], c[1], c[2], d, s);
    }
    if c[3] != 0.0 || c[4] != 0.0 || c[5] != 0.0 {
      FlatHasNoDefect(c[3], c[4], c[5], d, s);
    }
  }

  /** Four destination corners on a line: the defect is zero. */
  lemma FlatHasNoDefect(p: real, q: real, t: real, d: seq<Corner>, s: seq<Corner>)
    requires |d| == |s| == CORNERS && (p != 0.0 || q != 0.0 || t != 0.0)
    requires forall i :: 0 <= i < CORNERS ==> Line(p, q, t, d[i]) == 0.0
    ensures Defect(d, s) == 0.0
  {
    OnOneLine(p, q, t, d[1], d[2], d[3]);
    OnOneLine(p, q, t, d[2], d[0], d[3]);
    OnOneLine(p, q, t, d[0], d[1], d[3]);
  }
}
