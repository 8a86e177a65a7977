/**
 * A way to be sure that a system is accepted without running the elimination: a bound on its inverse. A pivot
 * below the tolerance gives a vector that is not small but that the matrix makes small, and a left inverse
 * whose rows are not too large undoes that.
 */
module Conditioning {
  import opened Prelude
  import opened LinearSolver

  // ---- a small pivot gives a vector the matrix makes small -----------------------------------------

  /** The first rows send the vector to zero, and every row sends it to less than the tolerance. */
  ghost predicate Small(rows: seq<Row>, column: nat, y: seq<real>)
    requires Augmented(rows) && |y| == |rows| + 1
  {
    && (forall i :: 0 <= i < column && i < |rows| ==> Dot(rows[i], y) == 0.0)
    && (forall i :: 0 <= i < |rows| ==> Abs(Dot(rows[i], y)) < TOLERANCE)
  }

  lemma KernelValues(rows: seq<Row>, column: nat, i: nat)
    requires Augmented(rows) && column < |rows| && UnitColumns(rows, column) && i < |rows|
    ensures Dot(rows[i], Kernel(rows, column) + [0.0]) == if i < column then 0.0 else rows[i][column]
  {
    var y := Kernel(rows, column) + [0.0];
    DotZeroTail(rows[i], y, column + 1);
    assert forall j :: 0 <= j < column ==> UnitEntry(rows, i, j);
    DotUnitPrefix(rows, i, y, column);
    assert rows[i][..column + 1] == rows[i][..column] + [rows[i][column]];
    assert y[..column + 1] == y[..column] + [y[column]];
    DotAppend(rows[i][..column], y[..column], rows[i][column], y[column]);
  }

  lemma KernelIsSmall(rows: seq<Row>, column: nat)
    requires Augmented(rows) && column < |rows| && UnitColumns(rows, column) && Largest(rows, column) < TOLERANCE
    ensures Small(rows, column, Kernel(rows, column) + [0.0])
  {
    forall i | 0 <= i < |rows|
      ensures Dot(rows[i], Kernel(rows, column) + [0.0]) == if i < column then 0.0 else rows[i][column]
    {
      KernelValues(rows, column, i);
    }
    var best := PivotRow(rows, column, column);
    assert forall i :: column <= i < |rows| ==> Abs(rows[i][column]) <= Abs(rows[best][column]);
  }

  lemma ClearedDot(rows: seq<Row>, column: nat, i: nat, y: seq<real>)
    requires Augmented(rows) && column < |rows| && i < |rows| && |y| == |rows| + 1
    requires Dot(rows[column], y) == 0.0
    ensures Dot(Cleared(rows, column)[i], y) == Dot(rows[i], y)
  {
    if i != column {
      DotMinus(rows[i], rows[i][column], rows[column], y);
    }
  }

  /** What a step leaves small was small before it: the pivot row sends the vector to zero. */
  lemma SmallBefore(rows: seq<Row>, column: nat, y: seq<real>)
    requires Augmented(rows) && column < |rows| && |y| == |rows| + 1 && Largest(rows, column) > 0.0
    requires Small(Stepped(rows, column), column + 1, y)
    ensures Small(rows, column, y)
  {
    var best := PivotRow(rows, column, column);
    var swapped := Swapped(rows, column, best);
    var p := swapped[column][column];
    var scaled := swapped[column := Divided(swapped[column], p)];
    var next := Stepped(rows, column);
    assert next[column] == scaled[column];
    assert Dot(next[column], y) == 0.0;
    DotDivided(swapped[column], p, y);
    QuotientIsZero(Dot(swapped[column], y), p);
    forall i | 0 <= i < |rows|
      ensures Dot(swapped[i], y) == Dot(next[i], y)
    {
      ClearedDot(scaled, column, i, y);
    }
    forall i | 0 <= i < |rows|
      ensures Dot(rows[i], y) == Dot(next[if i == column then best else if i == best then column else i], y)
    {
      assert rows[i] == swapped[if i == column then best else if i == best then column else i];
    }
  }

  /** A vector with a one at column `k` and nothing after it. */
  predicate EndsWithOne(v: seq<real>, k: nat) {
    k < |v| && v[k] == 1.0 && forall j :: k < j < |v| ==> v[j] == 0.0
  }

  lemma NextSmall(rows: seq<Row>, column: nat) returns (next: seq<Row>)
    requires Augmented(rows) && column < |rows| && UnitColumns(rows, column) && Largest(rows, column) >= TOLERANCE
    ensures |next| == |rows| && Augmented(next) && UnitColumns(next, column + 1)
    ensures Reaching(next, column + 1) ==> Reaching(rows, column)
    ensures forall v, k :: Witness(next, column + 1, v, k) ==> Witness(rows, column, v, k)
  {
    next := Stepped(rows, column);
    NextPivots(rows, column);
    StepMakesUnit(rows, column);
    forall v, k | Witness(Stepped(rows, column), column + 1, v, k)
      ensures Witness(rows, column, v, k)
    {
      SmallBefore(rows, column, v + [0.0]);
    }
  }

  ghost predicate Witness(rows: seq<Row>, column: nat, v: seq<real>, k: nat)
    requires Augmented(rows)
  {
    |v| == |rows| && EndsWithOne(v, k) && SmallVector(rows, column, v)
  }

  ghost predicate SmallVector(rows: seq<Row>, column: nat, v: seq<real>)
    requires Augmented(rows) && |v| == |rows|
  {
    Small(rows, column, v + [0.0])
  }

  lemma KernelVector(rows: seq<Row>, column: nat) returns (v: seq<real>, k: nat)
    requires Augmented(rows) && column < |rows| && UnitColumns(rows, column) && Largest(rows, column) < TOLERANCE
    ensures Witness(rows, column, v, k)
  {
    v, k := Kernel(rows, column), column;
    KernelIsSmall(rows, column);
  }

  lemma {:induction false} SmallPivotGivesVector(rows: seq<Row>, column: nat) returns (v: seq<real>, k: nat)
    requires Augmented(rows) && column <= |rows| && UnitColumns(rows, column)
    requires !Reaching(rows, column)
    ensures Witness(rows, column, v, k)
    decreases |rows| - column
  {
    if Largest(rows, column) < TOLERANCE {
      v, k := KernelVector(rows, column);
    } else {
      var next := NextSmall(rows, column);
      v, k := SmallPivotGivesVector(next, column + 1);
    }
  }

  // ---- a left inverse undoes it --------------------------------------------------------------------

  function Column(rows: seq<Row>, j: nat): (c: seq<real>)
    requires forall i :: 0 <= i < |rows| ==> j < |rows[i]|
    ensures |c| == |rows| && forall i :: 0 <= i < |rows| ==> c[i] == rows[i][j]
  {
    seq(|rows|, i requires 0 <= i < |rows| => rows[i][j])
  }

  /** The sum of the rows with these weights. */
  function Combined(y: seq<real>, rows: seq<Row>, width: nat): (r: Row)
    requires |y| == |rows| && forall i :: 0 <= i < |rows| ==> |rows[i]| == width
    ensures |r| == width
  {
    if y == [] then seq(width, j => 0.0)
    else
      var k := |y| - 1;
      Sum(Combined(y[..k], rows[..k], width), Scaled(y[k], rows[k]))
  }

  lemma {:induction false} CombinedEntry(y: seq<real>, rows: seq<Row>, width: nat, j: nat)
    requires |y| == |rows| && j < width && forall i :: 0 <= i < |rows| ==> |rows[i]| == width
    ensures Combined(y, rows, width)[j] == Dot(y, Column(rows, j))
  {
    if y != [] {
      var k := |y| - 1;
      CombinedEntry(y[..k], rows[..k], width, j);
      assert Column(rows, j)[..k] == Column(rows[..k], j);
    }
  }

  function Images(rows: seq<Row>, v: seq<real>): (w: seq<real>)
    requires forall i :: 0 <= i < |rows| ==> |rows[i]| == |v|
    ensures |w| == |rows| && forall i :: 0 <= i < |rows| ==> w[i] == Dot(rows[i], v)
  {
    seq(|rows|, i requires 0 <= i < |rows| => Dot(rows[i], v))
  }

  lemma {:induction false} DotOfZero(a: seq<real>, v: seq<real>)
    requires |a| == |v| && Zero(a)
    ensures Dot(a, v) == 0.0
  {
    if a != [] {
      DotOfZero(a[..|a| - 1], v[..|a| - 1]);
    }
  }

  /** A product, kept as one term. */
  function Mul(f: real, x: real): real {
    f * x
  }

  lemma NextTerm(total: real, head: real, s: real, p: real, f: real, dp: real, a: real, r: real, v: real, d: real,
                 dot: real)
    requires total == head + Mul(s, v) && head == p + Mul(f, dp) && s == a + Mul(f, r)
    requires d == dp + Mul(r, v) && dot == p + Mul(a, v)
    ensures total == dot + Mul(f, d)
  {
    assert f * d == f * dp + f * (r * v);
    assert (a + f * r) * v == a * v + f * (r * v);
  }

  lemma ScaledEntry(a: Row, f: real, row: Row, k: nat)
    requires |a| == |row| && k < |a|
    ensures Sum(a, Scaled(f, row))[k] == a[k] + Mul(f, row[k])
  {}

  lemma LastOfSum(a: Row, f: real, row: Row, v: seq<real>, k: nat)
    requires |a| == |row| == |v| == k + 1
    ensures Sum(a, Scaled(f, row))[..k] == Sum(a[..k], Scaled(f, row[..k]))
  {
    forall j | 0 <= j < k
      ensures Sum(a, Scaled(f, row))[j] == Sum(a[..k], Scaled(f, row[..k]))[j]
    {
      ScaledEntry(a, f, row, j);
      ScaledEntry(a[..k], f, row[..k], j);
    }
  }

  ghost predicate Adds(a: Row, f: real, row: Row, v: seq<real>, d: real)
    requires |a| == |row| == |v|
  {
    Dot(Sum(a, Scaled(f, row)), v) == Dot(a, v) + Mul(f, d)
  }

  lemma LastDot(a: Row, v: seq<real>, k: nat)
    requires |a| == |v| == k + 1
    ensures Dot(a, v) == Dot(a[..k], v[..k]) + Mul(a[k], v[k])
  {}

  lemma AddsNext(a: Row, f: real, row: Row, v: seq<real>, k: nat)
    requires |a| == |row| == |v| == k + 1 && Adds(a[..k], f, row[..k], v[..k], Dot(row[..k], v[..k]))
    ensures Adds(a, f, row, v, Dot(row, v))
  {
    var all := Sum(a, Scaled(f, row));
    ScaledEntry(a, f, row, k);
    LastOfSum(a, f, row, v, k);
    LastDot(all, v, k);
    LastDot(a, v, k);
    LastDot(row, v, k);
    NextTerm(Dot(all, v), Dot(all[..k], v[..k]), all[k], Dot(a[..k], v[..k]), f, Dot(row[..k], v[..k]),
             a[k], row[k], v[k], Dot(row, v), Dot(a, v));
  }

  lemma {:induction false} DotOfSum(a: Row, f: real, row: Row, v: seq<real>)
    requires |a| == |row| == |v|
    ensures Adds(a, f, row, v, Dot(row, v))
  {
    if a != [] {
      var k := |a| - 1;
      DotOfSum(a[..k], f, row[..k], v[..k]);
      AddsNext(a, f, row, v, k);
    }
  }

  predicate AreImages(rows: seq<Row>, v: seq<real>, w: seq<real>)
    requires forall i :: 0 <= i < |rows| ==> |rows[i]| == |v|
  {
    |w| == |rows| && forall i :: 0 <= i < |rows| ==> w[i] == Dot(rows[i], v)
  }

  ghost predicate CombinedDot(y: seq<real>, rows: seq<Row>, v: seq<real>, w: seq<real>)
    requires |y| == |rows| == |w| && forall i :: 0 <= i < |rows| ==> |rows[i]| == |v|
  {
    Dot(Combined(y, rows, |v|), v) == Dot(y, w)
  }

  lemma OneMoreWeight(a: Row, f: real, row: Row, v: seq<real>, y: seq<real>, w: seq<real>, d: real)
    requires |a| == |row| == |v| && |y| == |w| && Dot(a, v) == Dot(y, w) && Dot(row, v) == d
    ensures Dot(Sum(a, Scaled(f, row)), v) == Dot(y + [f], w + [d])
  {
    DotOfSum(a, f, row, v);
    DotOneMore(y, w, f, d);
  }

  lemma DotOneMore(y: seq<real>, w: seq<real>, f: real, d: real)
    requires |y| == |w|
    ensures Dot(y + [f], w + [d]) == Dot(y, w) + Mul(f, d)
  {
    DotAppend(y, w, f, d);
  }

  lemma OneMoreRow(y: seq<real>, rows: seq<Row>, v: seq<real>, w: seq<real>, k: nat)
    requires |y| == |rows| == |w| == k + 1 && forall i :: 0 <= i < |rows| ==> |rows[i]| == |v|
    requires w[k] == Dot(rows[k], v) && CombinedDot(y[..k], rows[..k], v, w[..k])
    ensures CombinedDot(y, rows, v, w)
  {
    OneMoreWeight(Combined(y[..k], rows[..k], |v|), y[k], rows[k], v, y[..k], w[..k], w[k]);
    assert y[..k] + [y[k]] == y && w[..k] + [w[k]] == w;
  }

  /** Weighing the rows first, or their images. */
  lemma {:induction false} DotCombined(y: seq<real>, rows: seq<Row>, v: seq<real>, w: seq<real>)
    requires |y| == |rows| && forall i :: 0 <= i < |rows| ==> |rows[i]| == |v|
    requires AreImages(rows, v, w)
    ensures CombinedDot(y, rows, v, w)
  {
    if y == [] {
      DotOfZero(Combined(y, rows, |v|), v);
    } else {
      var k := |y| - 1;
      DotCombined(y[..k], rows[..k], v, w[..k]);
      OneMoreRow(y, rows, v, w, k);
    }
  }

  /** The sum of the magnitudes. */
  function Norm(y: seq<real>): real {
    if y == [] then 0.0 else Norm(y[..|y| - 1]) + Abs(y[|y| - 1])
  }

  lemma {:induction false} NormIsBounded(y: seq<real>, t: real)
    requires forall i :: 0 <= i < |y| ==> Abs(y[i]) <= t
    ensures Norm(y) <= |y| as real * t
  {
    if y != [] {
      NormIsBounded(y[..|y| - 1], t);
      assert |y| as real * t == (|y| - 1) as real * t + t;
    }
  }

  lemma TermIsBounded(a: real, b: real, t: real)
    requires Abs(b) <= t
    ensures a * b <= Abs(a) * t
  {
    if a >= 0.0 {
      assert a * (t - b) >= 0.0;
    } else {
      assert (-a) * (t + b) >= 0.0;
    }
  }

  lemma NextBound(d: real, n: real, b: real, c: real, t: real, dot: real, norm: real)
    requires d <= n * t && Abs(c) <= t && dot == d + b * c && norm == n + Abs(b)
    ensures dot <= norm * t
  {
    TermIsBounded(b, c, t);
    assert norm * t == n * t + Abs(b) * t;
  }

  ghost predicate WithinNorm(y: seq<real>, w: seq<real>, t: real)
    requires |y| == |w|
  {
    Dot(y, w) <= Norm(y) * t
  }

  lemma OneMoreTerm(y: seq<real>, w: seq<real>, t: real)
    requires |y| == |w| > 0 && WithinNorm(y[..|y| - 1], w[..|w| - 1], t) && Abs(w[|w| - 1]) <= t
    ensures WithinNorm(y, w, t)
  {
    var k := |y| - 1;
    NextBound(Dot(y[..k], w[..k]), Norm(y[..k]), y[k], w[k], t, Dot(y, w), Norm(y));
  }

  lemma {:induction false} DotIsBounded(y: seq<real>, w: seq<real>, t: real)
    requires |y| == |w| && forall i :: 0 <= i < |w| ==> Abs(w[i]) <= t
    ensures WithinNorm(y, w, t)
  {
    if y != [] {
      DotIsBounded(y[..|y| - 1], w[..|w| - 1], t);
      OneMoreTerm(y, w, t);
    }
  }

  /** Row `k` of a left inverse, as far as the first `k` columns tell. */
  ghost predicate InverseRow(y: seq<real>, matrix: seq<Row>, k: nat)
    requires Square(matrix) && |y| == |matrix| && k < |matrix|
  {
    forall j :: 0 <= j <= k ==> Dot(y, Column(matrix, j)) == if j == k then 1.0 else 0.0
  }

  lemma {:induction false} DotPicksOne(a: seq<real>, v: seq<real>, k: nat)
    requires |a| == |v| && k < |v| && EndsWithOne(v, k)
    requires forall j :: 0 <= j <= k ==> a[j] == if j == k then 1.0 else 0.0
    ensures Dot(a, v) == 1.0
  {
    DotZeroTail(a, v, k + 1);
    DotOfZero(a[..k], v[..k]);
    assert a[..k + 1][..k] == a[..k] && v[..k + 1][..k] == v[..k];
  }

  lemma InverseRowUndoes(y: seq<real>, matrix: seq<Row>, v: seq<real>, k: nat)
    requires Square(matrix) && |y| == |matrix| == |v| && EndsWithOne(v, k) && InverseRow(y, matrix, k)
    ensures Dot(y, Images(matrix, v)) == 1.0
  {
    var a := Combined(y, matrix, |matrix|);
    forall j | 0 <= j <= k
      ensures a[j] == if j == k then 1.0 else 0.0
    {
      CombinedEntry(y, matrix, |matrix|, j);
    }
    DotPicksOne(a, v, k);
    DotCombined(y, matrix, v, Images(matrix, v));
  }

  lemma SmallImages(matrix: seq<Row>, values: seq<real>, v: seq<real>)
    requires Square(matrix) && |matrix| == |values| == |v| && Small(Augment(matrix, values), 0, v + [0.0])
    ensures forall i :: 0 <= i < |matrix| ==> Abs(Images(matrix, v)[i]) <= TOLERANCE
  {
    forall i | 0 <= i < |matrix|
      ensures Dot(Augment(matrix, values)[i], v + [0.0]) == Dot(matrix[i], v)
    {
      DotAppend(matrix[i], v, values[i], 0.0);
    }
  }

  /** Small enough for the tolerance. */
  predicate Bounded(y: seq<real>) {
    Norm(y) * TOLERANCE < 1.0
  }

  lemma NotBounded(norm: real, dot: real)
    requires dot == 1.0 && dot <= norm * TOLERANCE
    ensures !(norm * TOLERANCE < 1.0)
  {}

  lemma UndoingIsLarge(matrix: seq<Row>, values: seq<real>, y: seq<real>, v: seq<real>, k: nat)
    requires Square(matrix) && |matrix| == |values| == |v| == |y| && SmallVector(Augment(matrix, values), 0, v)
    requires EndsWithOne(v, k) && InverseRow(y, matrix, k)
    ensures !Bounded(y)
  {
    SmallImages(matrix, values, v);
    InverseRowUndoes(y, matrix, v, k);
    DotIsBounded(y, Images(matrix, v), TOLERANCE);
    NotBounded(Norm(y), Dot(y, Images(matrix, v)));
  }

  /** A matrix with a left inverse whose rows have magnitudes summing to less than one over the tolerance is
      accepted. */
  lemma BoundedInverseIsAccepted(matrix: seq<Row>, values: seq<real>, inverse: seq<Row>)
    requires |matrix| == |values| == |inverse| && Square(matrix) && Square(inverse)
    requires forall k :: 0 <= k < |matrix| ==> InverseRow(inverse[k], matrix, k) && Bounded(inverse[k])
    ensures Solution(matrix, values).Ok?
  {
    AcceptedIffPivotsReach(matrix, values);
    if !Reaching(Augment(matrix, values), 0) {
      var v, k := SmallPivotGivesVector(Augment(matrix, values), 0);
      UndoingIsLarge(matrix, values, inverse[k], v, k);
    }
  }
}
