/**
 * When the defect is zero the homography system is singular: in every case some nonzero map of the plane,
 * with no constant in its denominator, takes each destination corner to a multiple of its source corner.
 */
module HomographyMaps {
  import opened Prelude
  import opened LinearSolver
  import opened HomographySystem

  /** A line, or the linear form that vanishes on it. */
  datatype Form = Form(p: real, q: real, t: real)

  /** Three forms: two numerators and a denominator. */
  datatype Map = Map(x: Form, y: Form, z: Form)

  function At(f: Form, a: Corner): real {
    Line(f.p, f.q, f.t, a)
  }

  function Times(k: real, f: Form): Form {
    Form(k * f.p, k * f.q, k * f.t)
  }

  function Plus(f: Form, g: Form): Form {
    Form(f.p + g.p, f.q + g.q, f.t + g.t)
  }

  lemma AtTimes(k: real, f: Form, a: Corner)
    ensures At(Times(k, f), a) == k * At(f, a)
  {}

  lemma AtPlus(f: Form, g: Form, a: Corner)
    ensures At(Plus(f, g), a) == At(f, a) + At(g, a)
  {}

  /** The line through two corners. */
  function Through(a: Corner, b: Corner): Form {
    Form(a.y - b.y, b.x - a.x, Wedge(a, b))
  }

  lemma ThroughIsArea(a: Corner, b: Corner, c: Corner)
    ensures At(Through(a, b), c) == Area(a, b, c)
  {}

  /** Everything off the line goes to the one corner. */
  function Outer(k: real, s: Corner, f: Form): Map {
    Map(Times(k * s.x, f), Times(k * s.y, f), Times(k, f))
  }

  function Sum(m: Map, n: Map): Map {
    Map(Plus(m.x, n.x), Plus(m.y, n.y), Plus(m.z, n.z))
  }

  function Scale(k: real, m: Map): Map {
    Map(Times(k, m.x), Times(k, m.y), Times(k, m.z))
  }

  /** The map takes `d` to a multiple of `s`. */
  predicate Sends(m: Map, d: Corner, s: Corner) {
    Multiple(At(m.x, d), At(m.y, d), At(m.z, d), s)
  }

  predicate Multiple(x: real, y: real, w: real, s: Corner) {
    x == s.x * w && y == s.y * w
  }

  lemma OuterSends(k: real, s': Corner, f: Form, d: Corner, s: Corner)
    requires s' == s || At(f, d) == 0.0
    ensures Sends(Outer(k, s', f), d, s) && At(Outer(k, s', f).z, d) == k * At(f, d)
  {
    OuterIsMultiple(k, s', At(f, d), s);
    OuterAt(k, s', f, d);
  }

  lemma OuterAt(k: real, s: Corner, f: Form, d: Corner)
    ensures At(Outer(k, s, f).x, d) == (k * s.x) * At(f, d)
    ensures At(Outer(k, s, f).y, d) == (k * s.y) * At(f, d)
    ensures At(Outer(k, s, f).z, d) == k * At(f, d)
  {
    AtTimes(k * s.x, f, d);
    AtTimes(k * s.y, f, d);
    AtTimes(k, f, d);
  }

  lemma OuterIsMultiple(k: real, s': Corner, a: real, s: Corner)
    requires s' == s || a == 0.0
    ensures Multiple((k * s'.x) * a, (k * s'.y) * a, k * a, s)
  {
    if s' == s {
      Reassociate(k, s.x, a);
      Reassociate(k, s.y, a);
    } else {
      TimesZero(k * s'.x);
      TimesZero(k * s'.y);
      TimesZero(k);
      TimesZero(s.x);
      TimesZero(s.y);
    }
  }

  lemma TimesZero(a: real)
    ensures a * 0.0 == 0.0
  {}

  lemma Reassociate(k: real, x: real, a: real)
    ensures (k * x) * a == x * (k * a)
  {}

  lemma SumSends(m: Map, n: Map, d: Corner, s: Corner)
    requires Sends(m, d, s) && Sends(n, d, s)
    ensures Sends(Sum(m, n), d, s) && At(Sum(m, n).z, d) == At(m.z, d) + At(n.z, d)
  {
    AtPlus(m.x, n.x, d);
    AtPlus(m.y, n.y, d);
    AtPlus(m.z, n.z, d);
    Distributes2(s.x, At(m.z, d), At(n.z, d));
    Distributes2(s.y, At(m.z, d), At(n.z, d));
  }

  lemma Distributes2(x: real, a: real, b: real)
    ensures x * (a + b) == x * a + x * b
  {}

  lemma ScaleSends(k: real, m: Map, d: Corner, s: Corner)
    requires Sends(m, d, s)
    ensures Sends(Scale(k, m), d, s) && At(Scale(k, m).z, d) == k * At(m.z, d)
  {
    AtTimes(k, m.x, d);
    AtTimes(k, m.y, d);
    AtTimes(k, m.z, d);
    Commutes(k, s.x, At(m.z, d));
    Commutes(k, s.y, At(m.z, d));
  }

  lemma Commutes(k: real, x: real, a: real)
    ensures k * (x * a) == x * (k * a)
  {}

  predicate SendsAll(m: Map, d: seq<Corner>, s: seq<Corner>)
    requires |d| == |s| == CORNERS
  {
    forall i :: 0 <= i < CORNERS ==> Sends(m, d[i], s[i])
  }

  const NOWHERE := Map(Form(0.0, 0.0, 0.0), Form(0.0, 0.0, 0.0), Form(0.0, 0.0, 0.0))

  function VectorOf(m: Map): (c: seq<real>)
    ensures |c| == 8
  {
    [m.x.p, m.x.q, m.x.t, m.y.p, m.y.q, m.y.t, m.z.p, m.z.q]
  }

  lemma SentVanishes(m: Map, d: Corner, s: Corner)
    requires m.z.t == 0.0 && Sends(m, d, s)
    ensures Vanishes(VectorOf(m), d, s)
  {
    var c := VectorOf(m);
    assert Line(c[0], c[1], c[2], d) == At(m.x, d) && Line(c[3], c[4], c[5], d) == At(m.y, d);
    assert Line(c[6], c[7], 0.0, d) == At(m.z, d);
  }

  lemma VectorIsZero(m: Map)
    requires m.z.t == 0.0 && Zero(VectorOf(m))
    ensures m == NOWHERE
  {
    var c := VectorOf(m);
    assert c[0] == 0.0 && c[1] == 0.0 && c[2] == 0.0 && c[3] == 0.0;
    assert c[4] == 0.0 && c[5] == 0.0 && c[6] == 0.0 && c[7] == 0.0;
  }

  /** Such a map makes the system singular. */
  lemma MapMakesSingular(m: Map, d: seq<Corner>, s: seq<Corner>)
    requires |d| == |s| == CORNERS && SendsAll(m, d, s) && m.z.t == 0.0 && m != NOWHERE
    ensures Singular(HomographyRows(d, s))
  {
    forall i | 0 <= i < CORNERS
      ensures Vanishes(VectorOf(m), d[i], s[i])
    {
      assert Sends(m, d[i], s[i]);
      SentVanishes(m, d[i], s[i]);
    }
    if Zero(VectorOf(m)) {
      VectorIsZero(m);
    }
    SingularByVectors(d, s);
  }

  lemma NotZeroAt(m: Map, a: Corner)
    requires At(m.z, a) != 0.0
    ensures m != NOWHERE
  {}

  lemma ConstantCancels(m: Map, n: Map)
    ensures Sum(Scale(m.z.t, n), Scale(-n.z.t, m)).z.t == 0.0
  {}

  /** Two maps together always make the system singular, if one corner tells them apart. */
  lemma TwoMapsMakeSingular(m: Map, n: Map, d: seq<Corner>, s: seq<Corner>, a: Corner)
    requires |d| == |s| == CORNERS && SendsAll(m, d, s) && SendsAll(n, d, s)
    requires At(m.z, a) == 0.0 && At(n.z, a) != 0.0 && m.z != Form(0.0, 0.0, 0.0)
    ensures Singular(HomographyRows(d, s))
  {
    if m.z.t == 0.0 {
      MapMakesSingular(m, d, s);
    } else {
      var left, right := Scale(m.z.t, n), Scale(-n.z.t, m);
      forall i | 0 <= i < CORNERS
        ensures Sends(Sum(left, right), d[i], s[i])
      {
        ScaleSends(m.z.t, n, d[i], s[i]);
        ScaleSends(-n.z.t, m, d[i], s[i]);
        SumSends(left, right, d[i], s[i]);
      }
      AtTimes(m.z.t, n.z, a);
      AtTimes(-n.z.t, m.z, a);
      AtPlus(left.z, right.z, a);
      OneFactorIsZero(m.z.t, At(n.z, a));
      TimesZero(-n.z.t);
      NotZeroAt(Sum(left, right), a);
      ConstantCancels(m, n);
      MapMakesSingular(Sum(left, right), d, s);
    }
  }

  // ---- the cases -------------------------------------------------------------------------------------

  lemma SendsEach(m: Map, d: seq<Corner>, s: seq<Corner>)
    requires |d| == |s| == CORNERS
    requires Sends(m, d[0], s[0]) && Sends(m, d[1], s[1]) && Sends(m, d[2], s[2]) && Sends(m, d[3], s[3])
    ensures SendsAll(m, d, s)
  {}

  function Triple(f: real, g: real, h: real, i: Corner, j: Corner, k: Corner, p: Form, q: Form, r: Form): Map {
    Sum(Outer(f, i, p), Sum(Outer(g, j, q), Outer(h, k, r)))
  }

  /** The map of three outer products with the areas as weights sends all four corners; its constant is the
      defect. */
  function Fan(f: real, g: real, h: real, i: Corner, j: Corner, k: Corner, a: Corner, b: Corner, c: Corner): Map {
    Triple(f, g, h, i, j, k, Through(b, c), Through(c, a), Through(a, b))
  }

  function Generator(d: seq<Corner>, s: seq<Corner>): Map
    requires |d| == |s| == CORNERS
  {
    WeightedFan(Area(s[1], s[2], s[3]), Area(s[2], s[0], s[3]), Area(s[0], s[1], s[3]),
                Area(d[1], d[2], d[3]), Area(d[2], d[0], d[3]), Area(d[0], d[1], d[3]),
                s[0], s[1], s[2], d[0], d[1], d[2])
  }

  function WeightedFan(x: real, y: real, z: real, a: real, b: real, c: real, i: Corner, j: Corner, k: Corner,
                       p: Corner, q: Corner, r: Corner): Map {
    Fan(x * (b * c), y * (a * c), z * (a * b), i, j, k, p, q, r)
  }

  lemma GeneratorConstant(d: seq<Corner>, s: seq<Corner>)
    requires |d| == |s| == CORNERS
    ensures Generator(d, s).z.t == Defect(d, s)
  {
    FanConstant(Area(s[1], s[2], s[3]), Area(s[2], s[0], s[3]), Area(s[0], s[1], s[3]),
                Area(d[1], d[2], d[3]), Area(d[2], d[0], d[3]), Area(d[0], d[1], d[3]),
                s[0], s[1], s[2], d[0], d[1], d[2]);
  }

  lemma FanConstant(x: real, y: real, z: real, a: real, b: real, c: real, i: Corner, j: Corner, k: Corner,
                    p: Corner, q: Corner, r: Corner)
    ensures WeightedFan(x, y, z, a, b, c, i, j, k, p, q, r).z.t
            == Mixed(x, y, z, a, b, c, Wedge(q, r), Wedge(r, p), Wedge(p, q))
  {
    OuterConstant(x * (b * c), i, Through(q, r));
    OuterConstant(y * (a * c), j, Through(r, p));
    OuterConstant(z * (a * b), k, Through(p, q));
  }

  lemma OuterConstant(k: real, s: Corner, f: Form)
    ensures Outer(k, s, f).z.t == k * f.t
  {}

  lemma AreaTurns(a: Corner, b: Corner, c: Corner)
    ensures Area(a, b, c) == Area(b, c, a) == Area(c, a, b)
    ensures Area(b, a, c) == Area(a, c, b) == Area(c, b, a) == -Area(a, b, c)
    ensures Area(a, a, b) == 0.0 && Area(a, b, a) == 0.0 && Area(b, a, a) == 0.0
  {}

  lemma SumAt(m: Map, n: Map, d: Corner)
    ensures At(Sum(m, n).x, d) == At(m.x, d) + At(n.x, d)
    ensures At(Sum(m, n).y, d) == At(m.y, d) + At(n.y, d)
    ensures At(Sum(m, n).z, d) == At(m.z, d) + At(n.z, d)
  {
    AtPlus(m.x, n.x, d);
    AtPlus(m.y, n.y, d);
    AtPlus(m.z, n.z, d);
  }

  // ---- some weight of the generator is not zero ------------------------------------------------------

  predicate FanSends(m: Map, f: real, g: real, h: real, i: Corner, j: Corner, k: Corner,
                     a: Corner, b: Corner, c: Corner) {
    && Sends(m, a, i) && Sends(m, b, j) && Sends(m, c, k)
    && At(m.z, a) == f * Area(a, b, c) && At(m.z, b) == g * Area(a, b, c) && At(m.z, c) == h * Area(a, b, c)
  }

  /** Three outer products over the sides of a triangle send its corners. */
  lemma FanSendsCorners(f: real, g: real, h: real, i: Corner, j: Corner, k: Corner, a: Corner, b: Corner, c: Corner)
    ensures FanSends(Fan(f, g, h, i, j, k, a, b, c), f, g, h, i, j, k, a, b, c)
  {
    OneCornerSent(f, g, h, i, j, k, a, b, c);
    OneCornerSent(g, h, f, j, k, i, b, c, a);
    OneCornerSent(h, f, g, k, i, j, c, a, b);
    AreaTurns(a, b, c);
    SumTurns(Outer(f, i, Through(b, c)), Outer(g, j, Through(c, a)), Outer(h, k, Through(a, b)));
    SumTurns(Outer(g, j, Through(c, a)), Outer(h, k, Through(a, b)), Outer(f, i, Through(b, c)));
  }

  lemma SumTurns(l: Map, m: Map, n: Map)
    ensures Sum(l, Sum(m, n)) == Sum(m, Sum(n, l))
  {}

  lemma OneCornerSent(f: real, g: real, h: real, i: Corner, j: Corner, k: Corner, a: Corner, b: Corner, c: Corner)
    ensures Sends(Fan(f, g, h, i, j, k, a, b, c), a, i)
    ensures At(Fan(f, g, h, i, j, k, a, b, c).z, a) == f * Area(a, b, c)
  {
    AreaTurns(a, b, c);
    AreaTurns(c, a, a);
    AreaTurns(a, b, a);
    ThroughIsArea(b, c, a);
    ThroughIsArea(c, a, a);
    ThroughIsArea(a, b, a);
    OuterSends(f, i, Through(b, c), a, i);
    OuterSends(g, j, Through(c, a), a, i);
    OuterSends(h, k, Through(a, b), a, i);
    SumSends(Outer(g, j, Through(c, a)), Outer(h, k, Through(a, b)), a, i);
    SumSends(Outer(f, i, Through(b, c)), Sum(Outer(g, j, Through(c, a)), Outer(h, k, Through(a, b))), a, i);
    TimesZero(g);
    TimesZero(h);
  }

  lemma ScaledSum(m: real, x: real, y: real, z: real, i: real, j: real, k: real, l: real, e: real)
    requires x * i + y * j + z * k == e * l
    ensures (m * x) * i + ((m * y) * j + (m * z) * k) == l * (m * e)
  {
    assert (m * x) * i + ((m * y) * j + (m * z) * k) == m * (x * i + y * j + z * k);
  }

  /** Barycentric coordinates. */
  predicate Balances(x: real, y: real, z: real, e: real, a: Corner, b: Corner, c: Corner, f: Corner) {
    && x * a.x + y * b.x + z * c.x == e * f.x
    && x * a.y + y * b.y + z * c.y == e * f.y
    && x + y + z == e
  }

  lemma CornersBalance(a: Corner, b: Corner, c: Corner, e: Corner)
    ensures Balances(Area(b, c, e), Area(c, a, e), Area(a, b, e), Area(a, b, c), a, b, c, e)
  {}

  /** The values of the three forms at the corner. */
  predicate Takes(w: Map, d: Corner, x: real, y: real, z: real) {
    At(w.x, d) == x && At(w.y, d) == y && At(w.z, d) == z
  }

  lemma OuterTakes(k: real, s: Corner, f: Form, d: Corner, a: real)
    requires At(f, d) == a
    ensures Takes(Outer(k, s, f), d, (k * s.x) * a, (k * s.y) * a, k * a)
  {
    OuterAt(k, s, f, d);
  }

  lemma SumTakes(m: Map, n: Map, d: Corner, x: real, y: real, z: real, u: real, v: real, w: real)
    requires Takes(m, d, x, y, z) && Takes(n, d, u, v, w)
    ensures Takes(Sum(m, n), d, x + u, y + v, z + w)
  {
    SumAt(m, n, d);
  }

  lemma TakenIsSent(w: Map, d: Corner, s: Corner, x: real, y: real, z: real)
    requires Takes(w, d, x, y, z) && Multiple(x, y, z, s)
    ensures Sends(w, d, s) && At(w.z, d) == z
  {}

  predicate TripleTaken(m: Map, f: real, g: real, h: real, i: Corner, j: Corner, k: Corner, d: Corner,
                        a: real, b: real, c: real) {
    Takes(m, d, (f * i.x) * a + ((g * j.x) * b + (h * k.x) * c), (f * i.y) * a + ((g * j.y) * b + (h * k.y) * c),
          f * a + (g * b + h * c))
  }

  lemma TripleTakes(f: real, g: real, h: real, i: Corner, j: Corner, k: Corner, p: Form, q: Form, r: Form, d: Corner,
                    a: real, b: real, c: real)
    requires At(p, d) == a && At(q, d) == b && At(r, d) == c
    ensures TripleTaken(Triple(f, g, h, i, j, k, p, q, r), f, g, h, i, j, k, d, a, b, c)
  {
    OuterTakes(f, i, p, d, a);
    OuterTakes(g, j, q, d, b);
    OuterTakes(h, k, r, d, c);
    SumTakes(Outer(g, j, q), Outer(h, k, r), d, (g * j.x) * b, (g * j.y) * b, g * b,
             (h * k.x) * c, (h * k.y) * c, h * c);
    SumTakes(Outer(f, i, p), Sum(Outer(g, j, q), Outer(h, k, r)), d, (f * i.x) * a, (f * i.y) * a, f * a,
             (g * j.x) * b + (h * k.x) * c, (g * j.y) * b + (h * k.y) * c, g * b + h * c);
  }

  function Product(a: real, b: real, c: real, e: real): real {
    a * b * c * e
  }

  /** A triple whose weights balance at a corner sends it. */
  lemma TripleSends(x: real, y: real, z: real, p: Form, q: Form, r: Form, e: real, s: seq<Corner>, d: Corner,
                    a: real, b: real, c: real, f: real, g: real, h: real)
    requires |s| == CORNERS && Balances(x, y, z, e, s[0], s[1], s[2], s[3])
    requires At(p, d) == a && At(q, d) == b && At(r, d) == c
    requires f == x * (b * c) && g == y * (a * c) && h == z * (a * b)
    ensures Sends(Triple(f, g, h, s[0], s[1], s[2], p, q, r), d, s[3])
    ensures At(Triple(f, g, h, s[0], s[1], s[2], p, q, r).z, d) == Product(a, b, c, e)
  {
    Denominator(x, y, z, a, b, c, e, f, g, h);
    TripleTakes(f, g, h, s[0], s[1], s[2], p, q, r, d, a, b, c);
    LastIsMultiple(x, y, z, a, b, c, e, f, g, h, s);
    TripleSent(Triple(f, g, h, s[0], s[1], s[2], p, q, r), f, g, h, s, d, a, b, c);
  }

  predicate TripleMeets(f: real, g: real, h: real, a: real, b: real, c: real, s: seq<Corner>)
    requires |s| == CORNERS
  {
    Multiple((f * s[0].x) * a + ((g * s[1].x) * b + (h * s[2].x) * c),
             (f * s[0].y) * a + ((g * s[1].y) * b + (h * s[2].y) * c), f * a + (g * b + h * c), s[3])
  }

  lemma TripleSent(m: Map, f: real, g: real, h: real, s: seq<Corner>, d: Corner, a: real, b: real, c: real)
    requires |s| == CORNERS && TripleTaken(m, f, g, h, s[0], s[1], s[2], d, a, b, c) && TripleMeets(f, g, h, a, b, c, s)
    ensures Sends(m, d, s[3])
  {}

  predicate LastSent(d: seq<Corner>, s: seq<Corner>)
    requires |d| == |s| == CORNERS
  {
    Sends(Generator(d, s), d[3], s[3])
  }

  /** The last corner is sent as well: Cramer's rule for the source corners. */
  lemma GeneratorSendsLast(d: seq<Corner>, s: seq<Corner>)
    requires |d| == |s| == CORNERS
    ensures LastSent(d, s)
    ensures At(Generator(d, s).z, d[3]) == Product(Area(d[1], d[2], d[3]), Area(d[2], d[0], d[3]),
                                                  Area(d[0], d[1], d[3]), Area(s[0], s[1], s[2]))
  {
    CornersBalance(s[0], s[1], s[2], s[3]);
    ThroughIsArea(d[1], d[2], d[3]);
    ThroughIsArea(d[2], d[0], d[3]);
    ThroughIsArea(d[0], d[1], d[3]);
    TripleSends(Area(s[1], s[2], s[3]), Area(s[2], s[0], s[3]), Area(s[0], s[1], s[3]),
                Through(d[1], d[2]), Through(d[2], d[0]), Through(d[0], d[1]), Area(s[0], s[1], s[2]), s, d[3],
                Area(d[1], d[2], d[3]), Area(d[2], d[0], d[3]), Area(d[0], d[1], d[3]),
                Area(s[1], s[2], s[3]) * (Area(d[2], d[0], d[3]) * Area(d[0], d[1], d[3])),
                Area(s[2], s[0], s[3]) * (Area(d[1], d[2], d[3]) * Area(d[0], d[1], d[3])),
                Area(s[0], s[1], s[3]) * (Area(d[1], d[2], d[3]) * Area(d[2], d[0], d[3])));
  }

  lemma LastIsMultiple(x: real, y: real, z: real, a: real, b: real, c: real, e: real, f: real, g: real, h: real,
                       s: seq<Corner>)
    requires |s| == CORNERS && Balances(x, y, z, e, s[0], s[1], s[2], s[3])
    requires f == x * (b * c) && g == y * (a * c) && h == z * (a * b)
    ensures TripleMeets(f, g, h, a, b, c, s)
  {
    OneCoordinate(x, y, z, a, b, c, e, f, g, h, s[0].x, s[1].x, s[2].x, s[3].x);
    OneCoordinate(x, y, z, a, b, c, e, f, g, h, s[0].y, s[1].y, s[2].y, s[3].y);
    Denominator(x, y, z, a, b, c, e, f, g, h);
    IsMultiple((f * s[0].x) * a + ((g * s[1].x) * b + (h * s[2].x) * c),
               (f * s[0].y) * a + ((g * s[1].y) * b + (h * s[2].y) * c), f * a + (g * b + h * c), a * b * c * e, s[3]);
  }

  lemma IsMultiple(x: real, y: real, w: real, t: real, s: Corner)
    requires x == s.x * t && y == s.y * t && w == t
    ensures Multiple(x, y, w, s)
  {}

  lemma Denominator(x: real, y: real, z: real, a: real, b: real, c: real, e: real, f: real, g: real, h: real)
    requires x + y + z == e && f == x * (b * c) && g == y * (a * c) && h == z * (a * b)
    ensures f * a + (g * b + h * c) == a * b * c * e
  {
    assert f * a == (a * b * c) * x && g * b == (a * b * c) * y && h * c == (a * b * c) * z;
  }

  lemma OneCoordinate(x: real, y: real, z: real, a: real, b: real, c: real, e: real, f: real, g: real, h: real,
                      i: real, j: real, k: real, l: real)
    requires x * i + y * j + z * k == e * l
    requires f == x * (b * c) && g == y * (a * c) && h == z * (a * b)
    ensures (f * i) * a + ((g * j) * b + (h * k) * c) == l * (a * b * c * e)
  {
    Collect(x, b, c, a, i);
    Collect(y, a, c, b, j);
    Collect(z, a, b, c, k);
    ScaledSum(a * b * c, x, y, z, i, j, k, l, e);
  }

  lemma Collect(x: real, b: real, c: real, a: real, u: real)
    ensures (x * (b * c) * u) * a == (a * b * c * x) * u
  {}

  /** Zero defect, and the generator is not zero: it makes the system singular. */
  lemma GeneratorMakesSingular(d: seq<Corner>, s: seq<Corner>)
    requires |d| == |s| == CORNERS && Defect(d, s) == 0.0 && Generator(d, s) != NOWHERE
    ensures Singular(HomographyRows(d, s))
  {
    GeneratorConstant(d, s);
    GeneratorSendsLast(d, s);
    FanSendsCorners(Area(s[1], s[2], s[3]) * (Area(d[2], d[0], d[3]) * Area(d[0], d[1], d[3])),
                    Area(s[2], s[0], s[3]) * (Area(d[1], d[2], d[3]) * Area(d[0], d[1], d[3])),
                    Area(s[0], s[1], s[3]) * (Area(d[1], d[2], d[3]) * Area(d[2], d[0], d[3])),
                    s[0], s[1], s[2], d[0], d[1], d[2]);
    SendsEach(Generator(d, s), d, s);
    MapMakesSingular(Generator(d, s), d, s);
  }

  /** With the first three destination corners off a line, the generator is zero only if all its weights are. */
  lemma GeneratorIsThere(d: seq<Corner>, s: seq<Corner>)
    requires |d| == |s| == CORNERS && Area(d[0], d[1], d[2]) != 0.0 && Generator(d, s) == NOWHERE
    ensures Area(s[1], s[2], s[3]) * (Area(d[2], d[0], d[3]) * Area(d[0], d[1], d[3])) == 0.0
    ensures Area(s[2], s[0], s[3]) * (Area(d[1], d[2], d[3]) * Area(d[0], d[1], d[3])) == 0.0
    ensures Area(s[0], s[1], s[3]) * (Area(d[1], d[2], d[3]) * Area(d[2], d[0], d[3])) == 0.0
  {
    FanSendsCorners(Area(s[1], s[2], s[3]) * (Area(d[2], d[0], d[3]) * Area(d[0], d[1], d[3])),
                    Area(s[2], s[0], s[3]) * (Area(d[1], d[2], d[3]) * Area(d[0], d[1], d[3])),
                    Area(s[0], s[1], s[3]) * (Area(d[1], d[2], d[3]) * Area(d[2], d[0], d[3])),
                    s[0], s[1], s[2], d[0], d[1], d[2]);
    NowhereAt(d[0]);
    NowhereAt(d[1]);
    NowhereAt(d[2]);
    OneFactorIsZero(Area(s[1], s[2], s[3]) * (Area(d[2], d[0], d[3]) * Area(d[0], d[1], d[3])), Area(d[0], d[1], d[2]));
    OneFactorIsZero(Area(s[2], s[0], s[3]) * (Area(d[1], d[2], d[3]) * Area(d[0], d[1], d[3])), Area(d[0], d[1], d[2]));
    OneFactorIsZero(Area(s[0], s[1], s[3]) * (Area(d[1], d[2], d[3]) * Area(d[2], d[0], d[3])), Area(d[0], d[1], d[2]));
  }

  lemma NowhereAt(a: Corner)
    ensures At(NOWHERE.z, a) == 0.0
  {}

  // ---- the other cases ---------------------------------------------------------------------------------

  /** A numbering of the four corners. */
  predicate Order(i: nat, j: nat, k: nat, l: nat) {
    i < CORNERS && j < CORNERS && k < CORNERS && l < CORNERS && i != j && i != k && i != l && j != k && j != l && k != l
  }

  lemma SendsInOrder(m: Map, d: seq<Corner>, s: seq<Corner>, i: nat, j: nat, k: nat, l: nat)
    requires |d| == |s| == CORNERS && Order(i, j, k, l)
    requires Sends(m, d[i], s[i]) && Sends(m, d[j], s[j]) && Sends(m, d[k], s[k]) && Sends(m, d[l], s[l])
    ensures SendsAll(m, d, s)
  {
    forall n | 0 <= n < CORNERS
      ensures Sends(m, d[n], s[n])
    {
      assert n == i || n == j || n == k || n == l;
    }
  }

  /** A line through all corners but one. */
  lemma PencilSends(d: seq<Corner>, s: seq<Corner>, f: Form, l: nat)
    requires |d| == |s| == CORNERS && l < CORNERS && forall i :: 0 <= i < CORNERS && i != l ==> At(f, d[i]) == 0.0
    ensures SendsAll(Outer(1.0, s[l], f), d, s)
  {
    forall i | 0 <= i < CORNERS
      ensures Sends(Outer(1.0, s[l], f), d[i], s[i])
    {
      OuterSends(1.0, s[l], f, d[i], s[i]);
    }
  }

  lemma OuterNotZero(s: Corner, f: Form)
    requires f != Form(0.0, 0.0, 0.0)
    ensures Outer(1.0, s, f) != NOWHERE && Outer(1.0, s, f).z == f
  {}

  lemma NotZeroForm(f: Form, a: Corner)
    requires At(f, a) != 0.0
    ensures f != Form(0.0, 0.0, 0.0)
  {}

  /** Three destination corners on a line through the origin. */
  lemma OriginLineIsSingular(d: seq<Corner>, s: seq<Corner>, f: Form, l: nat)
    requires |d| == |s| == CORNERS && l < CORNERS && forall i :: 0 <= i < CORNERS && i != l ==> At(f, d[i]) == 0.0
    requires f != Form(0.0, 0.0, 0.0) && f.t == 0.0
    ensures Singular(HomographyRows(d, s))
  {
    PencilSends(d, s, f, l);
    OuterNotZero(s[l], f);
    MapMakesSingular(Outer(1.0, s[l], f), d, s);
  }

  /** Two destination corners coincide. */
  lemma CoincidentIsSingular(d: seq<Corner>, s: seq<Corner>, i: nat, j: nat, k: nat, l: nat)
    requires |d| == |s| == CORNERS && Order(i, j, k, l) && d[i] == d[j] && Area(d[i], d[k], d[l]) != 0.0
    ensures Singular(HomographyRows(d, s))
  {
    AreaTurns(d[i], d[k], d[l]);
    AreaTurns(d[i], d[l], d[i]);
    AreaTurns(d[i], d[l], d[l]);
    AreaTurns(d[i], d[k], d[i]);
    AreaTurns(d[i], d[k], d[k]);
    ThroughIsArea(d[i], d[l], d[i]);
    ThroughIsArea(d[i], d[l], d[l]);
    ThroughIsArea(d[i], d[l], d[k]);
    ThroughIsArea(d[i], d[k], d[i]);
    ThroughIsArea(d[i], d[k], d[k]);
    ThroughIsArea(d[i], d[k], d[l]);
    PencilSends(d, s, Through(d[i], d[l]), k);
    PencilSends(d, s, Through(d[i], d[k]), l);
    NotZeroForm(Through(d[i], d[l]), d[k]);
    NotZeroForm(Through(d[i], d[k]), d[l]);
    OuterNotZero(s[k], Through(d[i], d[l]));
    OuterNotZero(s[l], Through(d[i], d[k]));
    TwoMapsMakeSingular(Outer(1.0, s[k], Through(d[i], d[l])), Outer(1.0, s[l], Through(d[i], d[k])), d, s, d[l]);
  }

  /** All four destination corners on a line. */
  lemma FlatIsSingular(d: seq<Corner>, s: seq<Corner>, f: Form)
    requires |d| == |s| == CORNERS && f != Form(0.0, 0.0, 0.0) && forall i :: 0 <= i < CORNERS ==> At(f, d[i]) == 0.0
    ensures Singular(HomographyRows(d, s))
  {
    var m := Map(f, Form(0.0, 0.0, 0.0), Form(0.0, 0.0, 0.0));
    forall i | 0 <= i < CORNERS
      ensures Sends(m, d[i], s[i])
    {
      TimesZero(s[i].x);
      TimesZero(s[i].y);
    }
    MapMakesSingular(m, d, s);
  }

  // ---- sources on a line -------------------------------------------------------------------------------

  /** The third corner as a combination of the first two. */
  predicate Combines(m: real, n: real, o: real, i: Corner, j: Corner, k: Corner) {
    && m + n == o && m * i.x + n * j.x == o * k.x && m * i.y + n * j.y == o * k.y
    && (m != 0.0 || n != 0.0)
  }

  lemma OnLineCombination(i: Corner, j: Corner, k: Corner) returns (m: real, n: real, o: real)
    requires Area(i, j, k) == 0.0
    ensures Combines(m, n, o, i, j, k)
  {
    if i.x != j.x {
      m, n, o := k.x - j.x, i.x - k.x, i.x - j.x;
      assert m * i.y + n * j.y - o * k.y == -Area(i, j, k);
    } else if i.y != j.y {
      m, n, o := k.y - j.y, i.y - k.y, i.y - j.y;
      assert m * i.x + n * j.x - o * k.x == Area(i, j, k);
    } else {
      m, n, o := 1.0, -1.0, 0.0;
    }
  }

  /** Sends `a` to `i`, `b` to `j` and `e` to zero. */
  function PairMap(m: real, n: real, i: Corner, j: Corner, a: Corner, b: Corner, e: Corner): Map {
    Sum(Outer(m, i, Through(b, e)), Outer(n, j, Through(e, a)))
  }

  lemma PairMapAt(m: real, n: real, i: Corner, j: Corner, a: Corner, b: Corner, e: Corner, d: Corner, p: real, q: real)
    requires Area(b, e, d) == p && Area(e, a, d) == q
    ensures Takes(PairMap(m, n, i, j, a, b, e), d, (m * i.x) * p + (n * j.x) * q, (m * i.y) * p + (n * j.y) * q,
                  m * p + n * q)
  {
    ThroughIsArea(b, e, d);
    ThroughIsArea(e, a, d);
    OuterTakes(m, i, Through(b, e), d, p);
    OuterTakes(n, j, Through(e, a), d, q);
    SumTakes(Outer(m, i, Through(b, e)), Outer(n, j, Through(e, a)), d, (m * i.x) * p, (m * i.y) * p, m * p,
             (n * j.x) * q, (n * j.y) * q, n * q);
  }

  predicate PairSent(w: Map, m: real, n: real, i: Corner, j: Corner, a: Corner, b: Corner, e: Corner, s: Corner) {
    && Sends(w, a, i) && Sends(w, b, j) && Sends(w, e, s)
    && At(w.z, a) == m * Area(a, b, e) && At(w.z, b) == n * Area(a, b, e) && At(w.z, e) == 0.0
  }

  /** A pair map at its own three corners. */
  lemma PairMapSends(m: real, n: real, i: Corner, j: Corner, a: Corner, b: Corner, e: Corner, s: Corner)
    ensures PairSent(PairMap(m, n, i, j, a, b, e), m, n, i, j, a, b, e, s)
  {
    PairMapFirst(m, n, i, j, a, b, e, Area(a, b, e));
    PairMapSecond(m, n, i, j, a, b, e, Area(a, b, e));
    PairMapThird(m, n, i, j, a, b, e, s);
  }

  lemma PairMapFirst(m: real, n: real, i: Corner, j: Corner, a: Corner, b: Corner, e: Corner, t: real)
    requires t == Area(a, b, e)
    ensures Sends(PairMap(m, n, i, j, a, b, e), a, i) && At(PairMap(m, n, i, j, a, b, e).z, a) == m * t
  {
    PairAreas(a, b, e);
    PairMapAt(m, n, i, j, a, b, e, a, t, 0.0);
    OneProduct(m, i, n * j.x, n * j.y, n, t);
    TakenIsSent(PairMap(m, n, i, j, a, b, e), a, i, (m * i.x) * t + (n * j.x) * 0.0, (m * i.y) * t + (n * j.y) * 0.0,
               m * t + n * 0.0);
  }

  lemma PairMapSecond(m: real, n: real, i: Corner, j: Corner, a: Corner, b: Corner, e: Corner, t: real)
    requires t == Area(a, b, e)
    ensures Sends(PairMap(m, n, i, j, a, b, e), b, j) && At(PairMap(m, n, i, j, a, b, e).z, b) == n * t
  {
    PairAreas(a, b, e);
    PairMapAt(m, n, i, j, a, b, e, b, 0.0, t);
    OneProduct(n, j, m * i.x, m * i.y, m, t);
    TakenIsSent(PairMap(m, n, i, j, a, b, e), b, j, (m * i.x) * 0.0 + (n * j.x) * t, (m * i.y) * 0.0 + (n * j.y) * t,
               m * 0.0 + n * t);
  }

  lemma PairMapThird(m: real, n: real, i: Corner, j: Corner, a: Corner, b: Corner, e: Corner, s: Corner)
    ensures Sends(PairMap(m, n, i, j, a, b, e), e, s) && At(PairMap(m, n, i, j, a, b, e).z, e) == 0.0
  {
    PairAreas(a, b, e);
    PairMapAt(m, n, i, j, a, b, e, e, 0.0, 0.0);
    NoProduct(m * i.x, n * j.x);
    NoProduct(m * i.y, n * j.y);
    NoProduct(m, n);
    TimesZero(s.x);
    TimesZero(s.y);
    TakenIsSent(PairMap(m, n, i, j, a, b, e), e, s, 0.0, 0.0, 0.0);
  }

  lemma PairAreas(a: Corner, b: Corner, e: Corner)
    ensures Area(b, e, a) == Area(a, b, e) && Area(e, a, a) == 0.0
    ensures Area(e, a, b) == Area(a, b, e) && Area(b, e, b) == 0.0
    ensures Area(b, e, e) == 0.0 && Area(e, a, e) == 0.0
  {}

  lemma OneProduct(m: real, i: Corner, x: real, y: real, n: real, t: real)
    ensures Multiple((m * i.x) * t + x * 0.0, (m * i.y) * t + y * 0.0, m * t + n * 0.0, i)
    ensures Multiple(x * 0.0 + (m * i.x) * t, y * 0.0 + (m * i.y) * t, n * 0.0 + m * t, i)
    ensures m * t + n * 0.0 == m * t && n * 0.0 + m * t == m * t
  {
    Reassociate(m, i.x, t);
    Reassociate(m, i.y, t);
    TimesZero(x);
    TimesZero(y);
    TimesZero(n);
  }

  lemma NoProduct(m: real, n: real)
    ensures m * 0.0 + n * 0.0 == 0.0
  {}

  /** The weights take the two corners to a multiple of the third. */
  predicate Meets(m: real, n: real, i: Corner, j: Corner, k: Corner, p: real, q: real) {
    Multiple((m * i.x) * p + (n * j.x) * q, (m * i.y) * p + (n * j.y) * q, m * p + n * q, k)
  }

  /** A pair map at a fourth corner. */
  lemma PairMapSendsLast(m: real, n: real, i: Corner, j: Corner, k: Corner, a: Corner, b: Corner, e: Corner,
                         d: Corner, p: real, q: real)
    requires p == Area(b, e, d) && q == Area(e, a, d)
    requires Meets(m, n, i, j, k, p, q)
    ensures Sends(PairMap(m, n, i, j, a, b, e), d, k)
  {
    PairMapAt(m, n, i, j, a, b, e, d, p, q);
    TakenIsSent(PairMap(m, n, i, j, a, b, e), d, k, (m * i.x) * p + (n * j.x) * q, (m * i.y) * p + (n * j.y) * q,
                m * p + n * q);
  }

  lemma LastPair(m: real, n: real, o: real, i: Corner, j: Corner, k: Corner, p: real, q: real)
    requires Combines(m, n, o, i, j, k)
    ensures Meets(m * q, n * p, i, j, k, p, q)
  {
    WeightedPair(m, n, o, i.x, j.x, k.x, p, q);
    WeightedPair(m, n, o, i.y, j.y, k.y, p, q);
    WeightedPair(m, n, o, 1.0, 1.0, 1.0, p, q);
    Ones(m * q, n * p);
    IsMultiple(((m * q) * i.x) * p + ((n * p) * j.x) * q, ((m * q) * i.y) * p + ((n * p) * j.y) * q,
               (m * q) * p + (n * p) * q, o * p * q, k);
  }

  lemma Ones(m: real, n: real)
    ensures m * 1.0 == m && n * 1.0 == n
  {}

  lemma WeightedPair(m: real, n: real, o: real, x: real, y: real, z: real, p: real, q: real)
    requires m * x + n * y == o * z
    ensures ((m * q) * x) * p + ((n * p) * y) * q == z * (o * p * q)
  {
    assert ((m * q) * x) * p == (p * q) * (m * x) && ((n * p) * y) * q == (p * q) * (n * y);
    assert (p * q) * (m * x) + (p * q) * (n * y) == (p * q) * (m * x + n * y);
    assert z * (o * p * q) == (p * q) * (o * z);
  }

  /** What a pair map is used for: it sends everything, and it is not zero though it is zero at one corner. */
  predicate Kills(m: Map, d: seq<Corner>, s: seq<Corner>, i: nat, j: nat, e: nat)
    requires |d| == |s| == CORNERS && i < CORNERS && j < CORNERS && e < CORNERS
  {
    && SendsAll(m, d, s)
    && At(m.z, d[e]) == 0.0
    && (At(m.z, d[i]) != 0.0 || At(m.z, d[j]) != 0.0)
  }

  lemma PairMapKills(d: seq<Corner>, s: seq<Corner>, i: nat, j: nat, k: nat, e: nat) returns (w: Map)
    requires |d| == |s| == CORNERS && Order(i, j, k, e) && Area(s[i], s[j], s[k]) == 0.0
    requires Area(d[i], d[j], d[e]) != 0.0 && Area(d[e], d[i], d[k]) != 0.0 && Area(d[j], d[e], d[k]) != 0.0
    ensures Kills(w, d, s, i, j, e)
  {
    var m, n, o := OnLineCombination(s[i], s[j], s[k]);
    w := WeightedPairKills(d, s, i, j, k, e, m, n, o, Area(d[j], d[e], d[k]), Area(d[e], d[i], d[k]));
  }

  lemma WeightedPairKills(d: seq<Corner>, s: seq<Corner>, i: nat, j: nat, k: nat, e: nat, m: real, n: real, o: real,
                          p: real, q: real)
    returns (w: Map)
    requires |d| == |s| == CORNERS && Order(i, j, k, e) && Combines(m, n, o, s[i], s[j], s[k])
    requires Area(d[i], d[j], d[e]) != 0.0 && q == Area(d[e], d[i], d[k]) && p == Area(d[j], d[e], d[k])
    requires p != 0.0 && q != 0.0
    ensures Kills(w, d, s, i, j, e)
  {
    LastPair(m, n, o, s[i], s[j], s[k], p, q);
    OneFactorIsZero(m, q);
    OneFactorIsZero(n, p);
    w := PairKills(d, s, i, j, k, e, m * q, n * p, p, q);
  }

  lemma PairKills(d: seq<Corner>, s: seq<Corner>, i: nat, j: nat, k: nat, e: nat, m: real, n: real, p: real, q: real)
    returns (w: Map)
    requires |d| == |s| == CORNERS && Order(i, j, k, e) && (m != 0.0 || n != 0.0)
    requires Meets(m, n, s[i], s[j], s[k], p, q)
    requires Area(d[i], d[j], d[e]) != 0.0 && q == Area(d[e], d[i], d[k]) && p == Area(d[j], d[e], d[k])
    ensures Kills(w, d, s, i, j, e)
  {
    w := PairMap(m, n, s[i], s[j], d[i], d[j], d[e]);
    PairMapSends(m, n, s[i], s[j], d[i], d[j], d[e], s[e]);
    PairMapSendsLast(m, n, s[i], s[j], s[k], d[i], d[j], d[e], d[k], p, q);
    SentKills(w, d, s, i, j, k, e, m, n);
  }

  lemma SentKills(w: Map, d: seq<Corner>, s: seq<Corner>, i: nat, j: nat, k: nat, e: nat, m: real, n: real)
    requires |d| == |s| == CORNERS && Order(i, j, k, e) && Area(d[i], d[j], d[e]) != 0.0 && (m != 0.0 || n != 0.0)
    requires PairSent(w, m, n, s[i], s[j], d[i], d[j], d[e], s[e]) && Sends(w, d[k], s[k])
    ensures Kills(w, d, s, i, j, e)
  {
    SendsInOrder(w, d, s, i, j, k, e);
    OneFactorIsZero(m, Area(d[i], d[j], d[e]));
    OneFactorIsZero(n, Area(d[i], d[j], d[e]));
  }

  lemma KillsIsThere(m: Map, d: seq<Corner>, s: seq<Corner>, i: nat, j: nat, e: nat)
    requires |d| == |s| == CORNERS && i < CORNERS && j < CORNERS && e < CORNERS && Kills(m, d, s, i, j, e)
    ensures m.z != Form(0.0, 0.0, 0.0)
  {
    if At(m.z, d[i]) != 0.0 {
      NotZeroForm(m.z, d[i]);
    } else {
      NotZeroForm(m.z, d[j]);
    }
  }

  /** Three corners on a line on both sides, and the fourth destination corner off it. */
  lemma SameTripleIsSingular(d: seq<Corner>, s: seq<Corner>, i: nat, j: nat, k: nat, l: nat)
    requires |d| == |s| == CORNERS && Order(i, j, k, l)
    requires Area(s[i], s[j], s[k]) == 0.0 && Area(d[i], d[j], d[k]) == 0.0
    requires Area(d[i], d[j], d[l]) != 0.0 && Area(d[l], d[i], d[k]) != 0.0 && Area(d[j], d[l], d[k]) != 0.0
    ensures Singular(HomographyRows(d, s))
  {
    var m := PairMapKills(d, s, i, j, k, l);
    KillsIsThere(m, d, s, i, j, l);
    forall n | 0 <= n < CORNERS && n != l
      ensures At(Through(d[i], d[j]), d[n]) == 0.0
    {
      assert n == i || n == j || n == k;
      ThroughIsArea(d[i], d[j], d[n]);
      PairAreas(d[i], d[j], d[j]);
      AreaTurns(d[i], d[j], d[i]);
    }
    PencilSends(d, s, Through(d[i], d[j]), l);
    ThroughIsArea(d[i], d[j], d[l]);
    NotZeroForm(Through(d[i], d[j]), d[l]);
    OuterNotZero(s[l], Through(d[i], d[j]));
    TwoMapsMakeSingular(m, Outer(1.0, s[l], Through(d[i], d[j])), d, s, d[l]);
  }

  /** All source corners on a line, and no three destination corners. */
  lemma FlatSourceIsSingular(d: seq<Corner>, s: seq<Corner>)
    requires |d| == |s| == CORNERS
    requires Area(s[0], s[1], s[3]) == 0.0 && Area(s[2], s[0], s[3]) == 0.0 && Area(s[1], s[2], s[3]) == 0.0
    requires Area(d[0], d[1], d[3]) != 0.0 && Area(d[2], d[0], d[3]) != 0.0 && Area(d[1], d[2], d[3]) != 0.0
    requires Area(d[0], d[1], d[2]) != 0.0
    ensures Singular(HomographyRows(d, s))
  {
    AreaTurns(d[0], d[1], d[2]);
    var n := PairMapKills(d, s, 0, 1, 3, 2);
    var k := PairMapKills(d, s, 2, 0, 3, 1);
    var m := PairMapKills(d, s, 1, 2, 3, 0);
    KillsIsThere(n, d, s, 0, 1, 2);
    KillsIsThere(k, d, s, 2, 0, 1);
    KillsIsThere(m, d, s, 1, 2, 0);
    if At(k.z, d[2]) != 0.0 {
      TwoMapsMakeSingular(n, k, d, s, d[2]);
    } else if At(n.z, d[1]) != 0.0 {
      TwoMapsMakeSingular(k, n, d, s, d[1]);
    } else {
      TwoMapsMakeSingular(m, n, d, s, d[0]);
    }
  }

  // ---- the theorem -------------------------------------------------------------------------------------

  /** Two barycentric coordinates are zero: the corner is the third of the triangle. */
  lemma AtCorner(e: real, i: Corner, j: Corner)
    requires e != 0.0 && e * i.x == e * j.x && e * i.y == e * j.y
    ensures i == j
  {
    OneFactorIsZero(e, i.x - j.x);
    OneFactorIsZero(e, i.y - j.y);
  }

  /** The first three destination corners are not on a line. */
  lemma TriangleCase(d: seq<Corner>, s: seq<Corner>)
    requires |d| == |s| == CORNERS && Defect(d, s) == 0.0 && Area(d[0], d[1], d[2]) != 0.0
    ensures Singular(HomographyRows(d, s))
  {
    if Generator(d, s) != NOWHERE {
      GeneratorMakesSingular(d, s);
    } else {
      GeneratorIsThere(d, s);
      NoWeights(d, s);
    }
  }

  lemma TwoFactors(x: real, b: real, c: real)
    ensures x * (b * c) == 0.0 <==> x == 0.0 || b == 0.0 || c == 0.0
  {
    OneFactorIsZero(x, b * c);
    OneFactorIsZero(b, c);
  }

  lemma NoWeights(d: seq<Corner>, s: seq<Corner>)
    requires |d| == |s| == CORNERS && Area(d[0], d[1], d[2]) != 0.0
    requires Area(s[1], s[2], s[3]) * (Area(d[2], d[0], d[3]) * Area(d[0], d[1], d[3])) == 0.0
    requires Area(s[2], s[0], s[3]) * (Area(d[1], d[2], d[3]) * Area(d[0], d[1], d[3])) == 0.0
    requires Area(s[0], s[1], s[3]) * (Area(d[1], d[2], d[3]) * Area(d[2], d[0], d[3])) == 0.0
    ensures Singular(HomographyRows(d, s))
  {
    TwoFactors(Area(s[1], s[2], s[3]), Area(d[2], d[0], d[3]), Area(d[0], d[1], d[3]));
    TwoFactors(Area(s[2], s[0], s[3]), Area(d[1], d[2], d[3]), Area(d[0], d[1], d[3]));
    TwoFactors(Area(s[0], s[1], s[3]), Area(d[1], d[2], d[3]), Area(d[2], d[0], d[3]));
    AreaTurns(d[0], d[1], d[2]);
    if Area(d[1], d[2], d[3]) == 0.0 {
      OneSide(d, s, 0, 1, 2);
    } else if Area(d[2], d[0], d[3]) == 0.0 {
      OneSide(d, s, 1, 2, 0);
    } else if Area(d[0], d[1], d[3]) == 0.0 {
      OneSide(d, s, 2, 0, 1);
    } else {
      FlatSourceIsSingular(d, s);
    }
  }

  /** The last destination corner is on the side `j`, `k` of the triangle of the others. */
  lemma OneSide(d: seq<Corner>, s: seq<Corner>, i: nat, j: nat, k: nat)
    requires |d| == |s| == CORNERS && Order(i, j, k, 3)
    requires Area(d[i], d[j], d[k]) != 0.0 && Area(d[j], d[k], d[3]) == 0.0
    requires Area(s[j], s[k], s[3]) == 0.0 || Area(d[k], d[i], d[3]) == 0.0 || Area(d[i], d[j], d[3]) == 0.0
    ensures Singular(HomographyRows(d, s))
  {
    CornersBalance(d[i], d[j], d[k], d[3]);
    AreaTurns(d[i], d[j], d[k]);
    if Area(d[k], d[i], d[3]) == 0.0 {
      AtCorner(Area(d[i], d[j], d[k]), d[k], d[3]);
      CoincidentIsSingular(d, s, k, 3, i, j);
    } else if Area(d[i], d[j], d[3]) == 0.0 {
      AtCorner(Area(d[i], d[j], d[k]), d[j], d[3]);
      CoincidentIsSingular(d, s, j, 3, k, i);
    } else {
      SidesTurn(d[i], d[j], d[k], d[3]);
      SameTripleIsSingular(d, s, j, k, 3, i);
    }
  }

  lemma SidesTurn(a: Corner, b: Corner, c: Corner, e: Corner)
    ensures Area(b, c, a) == Area(a, b, c) && Area(a, b, e) == Area(a, b, e) && Area(c, a, e) == Area(c, a, e)
  {}

  lemma AreasAdd(a: Corner, b: Corner, c: Corner, e: Corner)
    ensures Area(b, c, e) + Area(c, a, e) + Area(a, b, e) == Area(a, b, c)
  {}

  /** The first three destination corners are on a line. */
  lemma LineCase(d: seq<Corner>, s: seq<Corner>)
    requires |d| == |s| == CORNERS && Defect(d, s) == 0.0 && Area(d[0], d[1], d[2]) == 0.0
    ensures Singular(HomographyRows(d, s))
  {
    AreasAdd(d[0], d[1], d[2], d[3]);
    AreaTurns(d[0], d[1], d[2]);
    if Area(d[1], d[2], d[3]) == 0.0 && Area(d[2], d[0], d[3]) == 0.0 {
      AllOnALine(d, s);
    } else if Area(d[0], d[1], d[3]) == 0.0 {
      OppositeMeets(d, s, 0, 1, 2);
    } else if Area(d[1], d[2], d[3]) == 0.0 {
      OppositeMeets(d, s, 1, 2, 0);
    } else if Area(d[2], d[0], d[3]) == 0.0 {
      OppositeMeets(d, s, 2, 0, 1);
    } else {
      ThreeOnALine(d, s);
    }
  }

  lemma OppositeMeets(d: seq<Corner>, s: seq<Corner>, i: nat, j: nat, k: nat)
    requires |d| == |s| == CORNERS && Order(i, j, k, 3)
    requires Area(d[i], d[j], d[k]) == 0.0 && Area(d[i], d[j], d[3]) == 0.0 && Area(d[k], d[i], d[3]) != 0.0
    ensures Singular(HomographyRows(d, s))
  {
    CornersBalance(d[i], d[j], d[k], d[3]);
    Apart(Area(d[j], d[k], d[3]), Area(d[k], d[i], d[3]), d[i], d[j]);
    AreaTurns(d[i], d[k], d[3]);
    CoincidentIsSingular(d, s, i, j, k, 3);
  }

  lemma Apart(x: real, y: real, a: Corner, b: Corner)
    requires x + y == 0.0 && x * a.x + y * b.x == 0.0 && x * a.y + y * b.y == 0.0 && y != 0.0
    ensures a == b
  {
    assert x == -y;
    assert y * b.x == y * a.x && y * b.y == y * a.y;
    AtCorner(y, a, b);
  }

  lemma AllOnALine(d: seq<Corner>, s: seq<Corner>)
    requires |d| == |s| == CORNERS && Area(d[0], d[1], d[2]) == 0.0
    requires Area(d[1], d[2], d[3]) == 0.0 && Area(d[2], d[0], d[3]) == 0.0 && Area(d[0], d[1], d[3]) == 0.0
    ensures Singular(HomographyRows(d, s))
  {
    if d[0] != d[1] {
      LineOfAll(d, s, 0, 1, 2, 3);
    } else if d[0] != d[2] {
      AreaTurns(d[0], d[1], d[2]);
      LineOfAll(d, s, 2, 0, 1, 3);
    } else if d[0] != d[3] {
      AreaTurns(d[0], d[0], d[3]);
      LineOfAll(d, s, 0, 3, 1, 2);
    } else {
      var f := Form(1.0, 0.0, -d[0].x);
      FlatIsSingular(d, s, f);
    }
  }

  lemma LineOfAll(d: seq<Corner>, s: seq<Corner>, i: nat, j: nat, k: nat, l: nat)
    requires |d| == |s| == CORNERS && Order(i, j, k, l) && d[i] != d[j]
    requires Area(d[i], d[j], d[k]) == 0.0 && Area(d[i], d[j], d[l]) == 0.0
    ensures Singular(HomographyRows(d, s))
  {
    forall n | 0 <= n < CORNERS
      ensures At(Through(d[i], d[j]), d[n]) == 0.0
    {
      assert n == i || n == j || n == k || n == l;
      ThroughIsArea(d[i], d[j], d[n]);
      AreaTurns(d[i], d[j], d[i]);
      AreaTurns(d[j], d[j], d[i]);
    }
    FlatIsSingular(d, s, Through(d[i], d[j]));
  }

  /** Three destination corners on a line, all apart, and the fourth off it. */
  lemma ThreeOnALine(d: seq<Corner>, s: seq<Corner>)
    requires |d| == |s| == CORNERS && Defect(d, s) == 0.0 && Area(d[0], d[1], d[2]) == 0.0
    requires Area(d[1], d[2], d[3]) != 0.0 && Area(d[2], d[0], d[3]) != 0.0 && Area(d[0], d[1], d[3]) != 0.0
    ensures Singular(HomographyRows(d, s))
  {
    CornersBalance(d[0], d[1], d[2], d[3]);
    CornersBalance(s[0], s[1], s[2], s[3]);
    WedgesInRatio(Area(d[1], d[2], d[3]), Area(d[2], d[0], d[3]), Area(d[0], d[1], d[3]), d[0], d[1], d[2]);
    LineProduct(Area(s[1], s[2], s[3]), Area(s[2], s[0], s[3]), Area(s[0], s[1], s[3]),
                Area(d[1], d[2], d[3]), Area(d[2], d[0], d[3]), Area(d[0], d[1], d[3]),
                Wedge(d[1], d[2]), Wedge(d[2], d[0]), Wedge(d[0], d[1]), Area(s[0], s[1], s[2]));
    if Area(s[0], s[1], s[2]) == 0.0 {
      SidesTurn(d[3], d[0], d[1], d[2]);
      AreaTurns(d[0], d[2], d[3]);
      AreaTurns(d[1], d[2], d[3]);
      SameTripleIsSingular(d, s, 0, 1, 2, 3);
    } else {
      LineThroughOrigin(d, s);
    }
  }

  lemma LineThroughOrigin(d: seq<Corner>, s: seq<Corner>)
    requires |d| == |s| == CORNERS && Area(d[0], d[1], d[2]) == 0.0 && Area(d[0], d[1], d[3]) != 0.0
    requires Wedge(d[0], d[1]) == 0.0
    ensures Singular(HomographyRows(d, s))
  {
    forall n | 0 <= n < CORNERS && n != 3
      ensures At(Through(d[0], d[1]), d[n]) == 0.0
    {
      ThroughIsArea(d[0], d[1], d[n]);
      AreaTurns(d[0], d[1], d[0]);
      AreaTurns(d[1], d[1], d[0]);
    }
    ThroughIsArea(d[0], d[1], d[3]);
    NotZeroForm(Through(d[0], d[1]), d[3]);
    OriginLineIsSingular(d, s, Through(d[0], d[1]), 3);
  }

  /** On a line the areas with any corner are in the ratio of the areas with the origin. */
  lemma WedgesInRatio(x: real, y: real, z: real, a: Corner, b: Corner, c: Corner)
    requires x * a.x + y * b.x + z * c.x == 0.0 && x * a.y + y * b.y + z * c.y == 0.0
    ensures x * Wedge(c, a) == y * Wedge(b, c) && x * Wedge(a, b) == z * Wedge(b, c)
  {
    assert x * Wedge(c, a) - y * Wedge(b, c)
           == c.x * (x * a.y + y * b.y + z * c.y) - c.y * (x * a.x + y * b.x + z * c.x);
    assert x * Wedge(a, b) - z * Wedge(b, c)
           == b.y * (x * a.x + y * b.x + z * c.x) - b.x * (x * a.y + y * b.y + z * c.y);
    TimesZero(c.x);
    TimesZero(c.y);
    TimesZero(b.x);
    TimesZero(b.y);
  }

  lemma LineProduct(x: real, y: real, z: real, a: real, b: real, c: real, f: real, g: real, h: real, e: real)
    requires Mixed(x, y, z, a, b, c, f, g, h) == 0.0 && a * g == b * f && a * h == c * f && x + y + z == e
    requires a != 0.0 && b != 0.0 && c != 0.0
    ensures e == 0.0 || h == 0.0
  {
    assert a * ((x * (b * c)) * f) == (a * b * c) * (f * x);
    assert a * ((y * (a * c)) * g) == ((y * a) * c) * (a * g) && ((y * a) * c) * (b * f) == (a * b * c) * (f * y);
    assert a * ((z * (a * b)) * h) == ((z * a) * b) * (a * h) && ((z * a) * b) * (c * f) == (a * b * c) * (f * z);
    LineSum(a, (x * (b * c)) * f, (y * (a * c)) * g, (z * (a * b)) * h);
    assert (a * b * c) * (f * x) + (a * b * c) * (f * y) + (a * b * c) * (f * z) == (a * b * c) * (f * (x + y + z));
    TwoFactors(a, b, c);
    assert a * b * c == a * (b * c);
    TwoFactors(a * b * c, f, e);
    OneFactorIsZero(a, h);
    OneFactorIsZero(c, f);
  }

  lemma LineSum(a: real, i: real, j: real, k: real)
    requires i + j + k == 0.0
    ensures a * i + a * j + a * k == 0.0
  {
    assert a * i + a * j + a * k == a * (i + j + k);
  }

  /** The homography system of any four pairs of corners is singular exactly when its defect is zero. */
  lemma SingularIffNoDefect(d: seq<Corner>, s: seq<Corner>)
    requires |d| == |s| == CORNERS
    ensures Singular(HomographyRows(d, s)) <==> Defect(d, s) == 0.0
  {
    if Defect(d, s) != 0.0 {
      SingularByVectors(d, s);
      forall c | |c| == 8 && VanishesAt(c, d, s)
        ensures Zero(c)
      {
        DefectMakesRegular(d, s, c);
      }
    } else if Area(d[0], d[1], d[2]) != 0.0 {
      TriangleCase(d, s);
    } else {
      LineCase(d, s);
    }
  }

  lemma RegularDecides(matrix: seq<Row>, values: seq<real>)
    requires |matrix| == |values| && Square(matrix)
    ensures Singular(matrix) ==> Solution(matrix, values).Err?
    ensures !Singular(matrix) <==> AllPositive(Pivots(Augment(matrix, values), 0))
    ensures Solution(matrix, values).Ok? <==> AllReach(Pivots(Augment(matrix, values), 0), TOLERANCE)
  {
    if Singular(matrix) {
      SingularIsRejected(matrix, values);
    }
    RegularIffPivotsPositive(matrix, values);
    AcceptedIffPivotsReach(matrix, values);
  }

  /** Without a defect there are no coefficients; with one every pivot is positive, and only a pivot below the
      tolerance stops the solver. */
  lemma DefectDecides(d: seq<Corner>, s: seq<Corner>)
    requires |d| == |s| == CORNERS
    ensures Defect(d, s) == 0.0 ==> Solution(HomographyRows(d, s), HomographyValues(s)).Err?
    ensures Defect(d, s) != 0.0 <==> AllPositive(Pivots(Augment(HomographyRows(d, s), HomographyValues(s)), 0))
    ensures Solution(HomographyRows(d, s), HomographyValues(s)).Ok? <==>
            AllReach(Pivots(Augment(HomographyRows(d, s), HomographyValues(s)), 0), TOLERANCE)
  {
    SingularIffNoDefect(d, s);
    RegularDecides(HomographyRows(d, s), HomographyValues(s));
  }

  // ---- the page in a scene -----------------------------------------------------------------------------

  /** The corners of a page, in the order the scene gives them. */
  function Page(width: real, height: real): (s: seq<Corner>)
    ensures |s| == CORNERS
  {
    [Corner(0.0, 0.0), Corner(width, 0.0), Corner(width, height), Corner(0.0, height)]
  }

  /** Where the horizon of the scene passes: zero exactly when it goes through the scene's origin. */
  function Horizon(d: seq<Corner>): real
    requires |d| == CORNERS
  {
    Mixed(1.0, -1.0, 1.0, Area(d[1], d[2], d[3]), Area(d[2], d[0], d[3]), Area(d[0], d[1], d[3]),
          Wedge(d[1], d[2]), Wedge(d[2], d[0]), Wedge(d[0], d[1]))
  }

  lemma PageAreas(width: real, height: real)
    ensures var s := Page(width, height);
            && Area(s[1], s[2], s[3]) == width * height && Area(s[2], s[0], s[3]) == -(width * height)
            && Area(s[0], s[1], s[3]) == width * height && Area(s[0], s[1], s[2]) == width * height
  {}

  lemma MixedVanishes(k: real, a: real, b: real, c: real, f: real, g: real, h: real)
    requires k > 0.0
    ensures Mixed(k, -k, k, a, b, c, f, g, h) == 0.0 <==> Mixed(1.0, -1.0, 1.0, a, b, c, f, g, h) == 0.0
  {
    MixedScales(k, a, b, c, f, g, h);
    OneFactorIsZero(k, Mixed(1.0, -1.0, 1.0, a, b, c, f, g, h));
  }

  lemma MixedScales(k: real, a: real, b: real, c: real, f: real, g: real, h: real)
    ensures Mixed(k, -k, k, a, b, c, f, g, h) == k * Mixed(1.0, -1.0, 1.0, a, b, c, f, g, h)
  {}

  lemma DefectOfAreas(d: seq<Corner>, s: seq<Corner>, k: real)
    requires |d| == |s| == CORNERS && k > 0.0
    requires Area(s[1], s[2], s[3]) == k && Area(s[2], s[0], s[3]) == -k && Area(s[0], s[1], s[3]) == k
    ensures Defect(d, s) == 0.0 <==> Horizon(d) == 0.0
  {
    MixedVanishes(k, Area(d[1], d[2], d[3]), Area(d[2], d[0], d[3]), Area(d[0], d[1], d[3]),
                  Wedge(d[1], d[2]), Wedge(d[2], d[0]), Wedge(d[0], d[1]));
  }

  lemma RegularByAreas(d: seq<Corner>, s: seq<Corner>, k: real)
    requires |d| == |s| == CORNERS && k > 0.0
    requires Area(s[1], s[2], s[3]) == k && Area(s[2], s[0], s[3]) == -k && Area(s[0], s[1], s[3]) == k
    ensures Singular(HomographyRows(d, s)) <==> Horizon(d) == 0.0
  {
    DefectOfAreas(d, s, k);
    SingularIffNoDefect(d, s);
  }

  lemma PositiveProduct(width: real, height: real)
    requires width > 0.0 && height > 0.0
    ensures width * height > 0.0
  {}

  const ORIGIN := Corner(0.0, 0.0)

  lemma AtOrigin(f: Form)
    ensures At(f, ORIGIN) == f.t
  {}

  lemma MixedAt(x: real, y: real, z: real, k: real, a: real, b: real, c: real, f: real, g: real, h: real)
    requires x == k && y == -k && z == k
    ensures Mixed(x, y, z, a, b, c, f, g, h) == Scaled(k, Mixed(1.0, -1.0, 1.0, a, b, c, f, g, h))
  {
    MixedScales(k, a, b, c, f, g, h);
  }

  function Scaled(k: real, x: real): real {
    k * x
  }

  lemma DefectIsHorizon(d: seq<Corner>, s: seq<Corner>, k: real)
    requires |d| == |s| == CORNERS
    requires Area(s[1], s[2], s[3]) == k && Area(s[2], s[0], s[3]) == -k && Area(s[0], s[1], s[3]) == k
    ensures Defect(d, s) == Scaled(k, Horizon(d))
  {
    MixedAt(Area(s[1], s[2], s[3]), Area(s[2], s[0], s[3]), Area(s[0], s[1], s[3]), k,
            Area(d[1], d[2], d[3]), Area(d[2], d[0], d[3]), Area(d[0], d[1], d[3]),
            Wedge(d[1], d[2]), Wedge(d[2], d[0]), Wedge(d[0], d[1]));
  }

  /** The map of a scene: it takes the corners of the scene to those of the page. The line its denominator sends
      to infinity is the horizon. */
  function SceneMap(d: seq<Corner>, width: real, height: real): Map
    requires |d| == CORNERS
  {
    Generator(d, Page(width, height))
  }

  lemma SceneMapSends(d: seq<Corner>, s: seq<Corner>)
    requires |d| == |s| == CORNERS
    ensures SendsAll(Generator(d, s), d, s)
  {
    GeneratorSendsLast(d, s);
    FanSendsCorners(Area(s[1], s[2], s[3]) * (Area(d[2], d[0], d[3]) * Area(d[0], d[1], d[3])),
                    Area(s[2], s[0], s[3]) * (Area(d[1], d[2], d[3]) * Area(d[0], d[1], d[3])),
                    Area(s[0], s[1], s[3]) * (Area(d[1], d[2], d[3]) * Area(d[2], d[0], d[3])),
                    s[0], s[1], s[2], d[0], d[1], d[2]);
    SendsEach(Generator(d, s), d, s);
  }

  lemma OriginIsDefect(d: seq<Corner>, s: seq<Corner>, k: real)
    requires |d| == |s| == CORNERS
    requires Area(s[1], s[2], s[3]) == k && Area(s[2], s[0], s[3]) == -k && Area(s[0], s[1], s[3]) == k
    ensures At(Generator(d, s).z, ORIGIN) == Scaled(k, Horizon(d))
  {
    GeneratorConstant(d, s);
    AtOrigin(Generator(d, s).z);
    DefectIsHorizon(d, s, k);
  }

  /** No three of the corners are on a line. */
  predicate InGeneralPosition(d: seq<Corner>)
    requires |d| == CORNERS
  {
    && Area(d[0], d[1], d[2]) != 0.0 && Area(d[1], d[2], d[3]) != 0.0
    && Area(d[2], d[0], d[3]) != 0.0 && Area(d[0], d[1], d[3]) != 0.0
  }

  lemma ProductIsZero(a: real, b: real, c: real, e: real)
    requires a != 0.0 && b != 0.0 && c != 0.0 && e != 0.0
    ensures Product(a, b, c, e) != 0.0
  {
    OneFactorIsZero(a, b);
    OneFactorIsZero(a * b, c);
    OneFactorIsZero(a * b * c, e);
  }

  lemma FirstDenominators(d: seq<Corner>, s: seq<Corner>)
    requires |d| == |s| == CORNERS && InGeneralPosition(d) && InGeneralPosition(s)
    ensures At(Generator(d, s).z, d[0]) != 0.0 && At(Generator(d, s).z, d[1]) != 0.0
    ensures At(Generator(d, s).z, d[2]) != 0.0
  {
    FanSendsCorners(Area(s[1], s[2], s[3]) * (Area(d[2], d[0], d[3]) * Area(d[0], d[1], d[3])),
                    Area(s[2], s[0], s[3]) * (Area(d[1], d[2], d[3]) * Area(d[0], d[1], d[3])),
                    Area(s[0], s[1], s[3]) * (Area(d[1], d[2], d[3]) * Area(d[2], d[0], d[3])),
                    s[0], s[1], s[2], d[0], d[1], d[2]);
    TwoFactors(Area(s[1], s[2], s[3]), Area(d[2], d[0], d[3]), Area(d[0], d[1], d[3]));
    TwoFactors(Area(s[2], s[0], s[3]), Area(d[1], d[2], d[3]), Area(d[0], d[1], d[3]));
    TwoFactors(Area(s[0], s[1], s[3]), Area(d[1], d[2], d[3]), Area(d[2], d[0], d[3]));
    OneFactorIsZero(Area(s[1], s[2], s[3]) * (Area(d[2], d[0], d[3]) * Area(d[0], d[1], d[3])), Area(d[0], d[1], d[2]));
    OneFactorIsZero(Area(s[2], s[0], s[3]) * (Area(d[1], d[2], d[3]) * Area(d[0], d[1], d[3])), Area(d[0], d[1], d[2]));
    OneFactorIsZero(Area(s[0], s[1], s[3]) * (Area(d[1], d[2], d[3]) * Area(d[2], d[0], d[3])), Area(d[0], d[1], d[2]));
  }

  lemma LastDenominator(d: seq<Corner>, s: seq<Corner>)
    requires |d| == |s| == CORNERS && InGeneralPosition(d) && InGeneralPosition(s)
    ensures At(Generator(d, s).z, d[3]) != 0.0
  {
    GeneratorSendsLast(d, s);
    ProductIsZero(Area(d[1], d[2], d[3]), Area(d[2], d[0], d[3]), Area(d[0], d[1], d[3]), Area(s[0], s[1], s[2]));
  }

  /** The scene's map sends every corner of the scene to its corner of the page, none of them to infinity when no
      three are on a line; and at the origin its denominator is `Horizon`, up to the area of the page. So `Horizon`
      is zero exactly when the line sent to infinity goes through the origin. */
  lemma HorizonIsSentToInfinity(d: seq<Corner>, width: real, height: real)
    requires |d| == CORNERS && width > 0.0 && height > 0.0
    ensures var m := SceneMap(d, width, height);
            && SendsAll(m, d, Page(width, height))
            && (InGeneralPosition(d) ==> forall i :: 0 <= i < CORNERS ==> At(m.z, d[i]) != 0.0)
            && At(m.z, ORIGIN) == (width * height) * Horizon(d)
            && (At(m.z, ORIGIN) == 0.0 <==> Horizon(d) == 0.0)
  {
    SceneMapSends(d, Page(width, height));
    PageAreas(width, height);
    PositiveProduct(width, height);
    OriginIsDefect(d, Page(width, height), width * height);
    OneFactorIsZero(width * height, Horizon(d));
    if InGeneralPosition(d) {
      SceneDenominators(d, Page(width, height));
    }
  }

  lemma SceneDenominators(d: seq<Corner>, s: seq<Corner>)
    requires |d| == |s| == CORNERS && InGeneralPosition(d) && InGeneralPosition(s)
    ensures forall i :: 0 <= i < CORNERS ==> At(Generator(d, s).z, d[i]) != 0.0
  {
    FirstDenominators(d, s);
    LastDenominator(d, s);
  }

  /** A page can be drawn into a scene only if the horizon misses the origin, whatever its size. */
  lemma PageIsRegular(d: seq<Corner>, width: real, height: real)
    requires |d| == CORNERS && width > 0.0 && height > 0.0
    ensures Singular(HomographyRows(d, Page(width, height))) <==> Horizon(d) == 0.0
  {
    PageAreas(width, height);
    PositiveProduct(width, height);
    RegularByAreas(d, Page(width, height), width * height);
  }

  function Trapezoid(): (d: seq<Corner>)
    ensures |d| == CORNERS
  {
    [Corner(2.0, 1.0), Corner(4.0, 2.0), Corner(2.0, 4.0), Corner(1.0, 2.0)]
  }

  /** A convex scene with no three corners on a line, all inside the picture, that has no coefficients. */
  lemma ConvexSceneIsRejected(width: real, height: real)
    requires width > 0.0 && height > 0.0
    ensures var d := Trapezoid();
            && Area(d[0], d[1], d[2]) > 0.0 && Area(d[1], d[2], d[3]) > 0.0
            && Area(d[2], d[3], d[0]) > 0.0 && Area(d[3], d[0], d[1]) > 0.0
    ensures Solution(HomographyRows(Trapezoid(), Page(width, height)), HomographyValues(Page(width, height))).Err?
  {
    PageIsRegular(Trapezoid(), width, height);
    SingularIsRejected(HomographyRows(Trapezoid(), Page(width, height)), HomographyValues(Page(width, height)));
  }

  const MILD := [Corner(205.0, 145.0), Corner(1580.0, 230.0), Corner(1650.0, 2050.0), Corner(145.0, 1980.0)]
  const SEVERE := [Corner(430.0, 110.0), Corner(1480.0, 390.0), Corner(1720.0, 2030.0), Corner(80.0, 1800.0)]

  lemma HorizonOfAreas(d: seq<Corner>, a: real, b: real, c: real, f: real, g: real, h: real)
    requires |d| == CORNERS && Mixed(1.0, -1.0, 1.0, a, b, c, f, g, h) != 0.0
    requires Area(d[1], d[2], d[3]) == a && Area(d[2], d[0], d[3]) == b && Area(d[0], d[1], d[3]) == c
    requires Wedge(d[1], d[2]) == f && Wedge(d[2], d[0]) == g && Wedge(d[0], d[1]) == h
    ensures Horizon(d) != 0.0
  {}

  lemma MildHorizon()
    ensures Horizon(MILD) != 0.0
  {
    HorizonOfAreas(MILD, 2734200.0, -2765875.0, 2528225.0, 2859500.0, -181000.0, -181950.0);
  }

  lemma SevereHorizon()
    ensures Horizon(SEVERE) != 0.0
  {
    HorizonOfAreas(SEVERE, 2634400.0, -2852100.0, 1872500.0, 2333600.0, -683700.0, 4900.0);
  }

  /** The two scenes the fixtures draw are regular, whatever the size of the page. */
  lemma FixtureScenesAreRegular(width: real, height: real)
    requires width > 0.0 && height > 0.0
    ensures !Singular(HomographyRows(MILD, Page(width, height)))
    ensures !Singular(HomographyRows(SEVERE, Page(width, height)))
  {
    MildHorizon();
    SevereHorizon();
    PageIsRegular(MILD, width, height);
    PageIsRegular(SEVERE, width, height);
  }
}
