/**
 * Gauss-Jordan elimination with partial pivoting over exact reals, and the homography system that
 * the scan fixtures solve with it. Here the elimination is a function from augmented rows to augmented
 * rows of a square system; `SolverRuns` has the loops, on rows of any lengths.
 */
module LinearSolver {
  import opened Prelude

  type Row = seq<real>

  const TOLERANCE := 0.000_000_000_001

  datatype SolveError =
    | LengthMismatch
    | IndexOutOfRange                 // a row is too short for the column
    | UnequalRows                     // a row cannot be subtracted from one of another length
    | NearlySingular(largest: real)   // the largest candidate pivot of the column, by magnitude

  function Abs(r: real): real {
    if r < 0.0 then -r else r
  }

  /** The rows of a square system with the value column appended: `n` rows of `n + 1` numbers. */
  predicate Augmented(rows: seq<Row>) {
    forall i :: 0 <= i < |rows| ==> |rows[i]| == |rows| + 1
  }

  predicate Square(matrix: seq<Row>) {
    forall i :: 0 <= i < |matrix| ==> |matrix[i]| == |matrix|
  }

  function Augment(matrix: seq<Row>, values: seq<real>): (rows: seq<Row>)
    requires Square(matrix) && |matrix| == |values|
    ensures |rows| == |matrix| && Augmented(rows)
  {
    seq(|matrix|, i requires 0 <= i < |matrix| => matrix[i] + [values[i]])
  }

  // ---- the elimination -----------------------------------------------------------------------

  /** The rows from `from` on have an entry in the column. */
  predicate Reach(rows: seq<Row>, column: nat, from: nat) {
    forall i :: from <= i < |rows| ==> column < |rows[i]|
  }

  /** The first of the rows from `from` on whose entry in the column is largest in magnitude. */
  function PivotRow(rows: seq<Row>, column: nat, from: nat): (best: nat)
    requires Reach(rows, column, from) && from < |rows|
    ensures from <= best < |rows|
    ensures forall i :: from <= i < |rows| ==> Abs(rows[i][column]) <= Abs(rows[best][column])
    ensures forall i :: from <= i < best ==> Abs(rows[i][column]) < Abs(rows[best][column])
    decreases |rows| - from
  {
    if from == |rows| - 1 then from
    else
      var rest := PivotRow(rows, column, from + 1);
      if Abs(rows[from][column]) < Abs(rows[rest][column]) then rest else from
  }

  function Swapped(rows: seq<Row>, i: nat, j: nat): (r: seq<Row>)
    requires i < |rows| && j < |rows|
    ensures |r| == |rows| && r[i] == rows[j] && r[j] == rows[i]
    ensures forall k :: 0 <= k < |rows| && k != i && k != j ==> r[k] == rows[k]
  {
    rows[i := rows[j]][j := rows[i]]
  }

  function Divided(row: Row, divisor: real): (r: Row)
    requires divisor != 0.0
    ensures |r| == |row| && forall k :: 0 <= k < |row| ==> r[k] == row[k] / divisor
  {
    seq(|row|, k requires 0 <= k < |row| => row[k] / divisor)
  }

  function Minus(row: Row, factor: real, pivot: Row): (r: Row)
    requires |row| == |pivot|
    ensures |r| == |row| && forall k :: 0 <= k < |row| ==> r[k] == row[k] - factor * pivot[k]
  {
    seq(|row|, k requires 0 <= k < |row| => row[k] - factor * pivot[k])
  }

  /** Every row but the pivot row loses its entry in the column. */
  function Cleared(rows: seq<Row>, column: nat): (r: seq<Row>)
    requires Augmented(rows) && column < |rows|
    ensures |r| == |rows| && Augmented(r)
  {
    seq(|rows|, i requires 0 <= i < |rows| =>
      if i == column then rows[i] else Minus(rows[i], rows[i][column], rows[column]))
  }

  function Largest(rows: seq<Row>, column: nat): real
    requires Reach(rows, column, column) && column < |rows|
  {
    Abs(rows[PivotRow(rows, column, column)][column])
  }

  /** One column: bring the largest pivot up, scale its row to a leading one, clear the others. */
  function Stepped(rows: seq<Row>, column: nat): (r: seq<Row>)
    requires Augmented(rows) && column < |rows| && Largest(rows, column) > 0.0
    ensures |r| == |rows| && Augmented(r)
  {
    var swapped := Swapped(rows, column, PivotRow(rows, column, column));
    Cleared(swapped[column := Divided(swapped[column], swapped[column][column])], column)
  }

  function Eliminated(rows: seq<Row>, column: nat): (r: Result<seq<Row>, SolveError>)
    requires Augmented(rows) && column <= |rows|
    ensures r.Ok? ==> |r.value| == |rows| && Augmented(r.value)
    decreases |rows| - column
  {
    if column == |rows| then Ok(rows)
    else if Largest(rows, column) < TOLERANCE then Err(NearlySingular(Largest(rows, column)))
    else Eliminated(Stepped(rows, column), column + 1)
  }

  function LastColumn(rows: seq<Row>): (x: seq<real>)
    requires Augmented(rows)
    ensures |x| == |rows|
  {
    seq(|rows|, i requires 0 <= i < |rows| => rows[i][|rows|])
  }

  function Solution(matrix: seq<Row>, values: seq<real>): Result<seq<real>, SolveError>
    requires |matrix| == |values| ==> Square(matrix)
  {
    if |matrix| != |values| then Err(LengthMismatch)
    else
      match Eliminated(Augment(matrix, values), 0)
      case Ok(rows) => Ok(LastColumn(rows))
      case Err(e) => Err(e)
  }

  // ---- what a solution is --------------------------------------------------------------------

  function Dot(a: seq<real>, b: seq<real>): real
    requires |a| == |b|
  {
    if a == [] then 0.0
    else
      var k := |a| - 1;
      Dot(a[..k], b[..k]) + a[k] * b[k]
  }

  ghost predicate Solves(matrix: seq<Row>, values: seq<real>, x: seq<real>)
    requires Square(matrix) && |matrix| == |values|
  {
    |x| == |matrix| && forall i :: 0 <= i < |matrix| ==> Dot(matrix[i], x) == values[i]
  }

  ghost predicate Zero(v: seq<real>) {
    forall i :: 0 <= i < |v| ==> v[i] == 0.0
  }

  /** Some nonzero vector is sent to zero. */
  ghost predicate Singular(matrix: seq<Row>)
    requires Square(matrix)
  {
    exists v :: |v| == |matrix| && !Zero(v) && forall i :: 0 <= i < |matrix| ==> Dot(matrix[i], v) == 0.0
  }

  /** Every row is orthogonal to `y`. For `y == x + [-1.0]` this says that `x` solves the system. */
  ghost predicate Null(rows: seq<Row>, y: seq<real>)
    requires Augmented(rows) && |y| == |rows| + 1
  {
    forall i :: 0 <= i < |rows| ==> Dot(rows[i], y) == 0.0
  }

  lemma NullIsSolution(matrix: seq<Row>, values: seq<real>, x: seq<real>)
    requires Square(matrix) && |matrix| == |values| == |x|
    ensures Null(Augment(matrix, values), x + [-1.0]) <==> Solves(matrix, values, x)
  {
    forall i | 0 <= i < |matrix|
      ensures Dot(Augment(matrix, values)[i], x + [-1.0]) == Dot(matrix[i], x) - values[i]
    {
      DotAppend(matrix[i], x, values[i], -1.0);
    }
  }

  lemma DotAppend(a: seq<real>, b: seq<real>, s: real, t: real)
    requires |a| == |b|
    ensures Dot(a + [s], b + [t]) == Dot(a, b) + s * t
  {
    assert (a + [s])[..|a|] == a && (b + [t])[..|b|] == b;
  }

  // ---- row operations keep the null vectors ----------------------------------------------------

  lemma DividesThrough(s: real, t: real, divisor: real)
    requires divisor != 0.0
    ensures s / divisor * t == s * t / divisor
  {}

  lemma AddDivided(s: real, t: real, divisor: real)
    requires divisor != 0.0
    ensures s / divisor + t / divisor == (s + t) / divisor
  {}

  lemma {:induction false} DotDivided(row: Row, divisor: real, y: seq<real>)
    requires divisor != 0.0 && |row| == |y|
    ensures Dot(Divided(row, divisor), y) == Dot(row, y) / divisor
  {
    if row != [] {
      var k := |row| - 1;
      DotDivided(row[..k], divisor, y[..k]);
      assert Divided(row, divisor)[..k] == Divided(row[..k], divisor);
      DividesThrough(row[k], y[k], divisor);
      AddDivided(Dot(row[..k], y[..k]), row[k] * y[k], divisor);
    }
  }

  function Scaled(factor: real, row: Row): (r: Row)
    ensures |r| == |row|
  {
    seq(|row|, k requires 0 <= k < |row| => factor * row[k])
  }

  function Difference(row: Row, other: Row): (r: Row)
    requires |row| == |other|
    ensures |r| == |row|
  {
    seq(|row|, k requires 0 <= k < |row| => row[k] - other[k])
  }

  lemma Distributes(factor: real, s: real, a: real, t: real)
    ensures factor * s + (factor * a) * t == factor * (s + a * t)
  {
    assert (factor * a) * t == factor * (a * t);
  }

  lemma ScaledPrefix(factor: real, row: Row, k: nat)
    requires k <= |row|
    ensures Scaled(factor, row)[..k] == Scaled(factor, row[..k])
  {
    forall j | 0 <= j < k
      ensures Scaled(factor, row)[..k][j] == Scaled(factor, row[..k])[j]
    {
      assert row[..k][j] == row[j];
    }
  }

  lemma {:induction false} DotScaled(factor: real, row: Row, y: seq<real>)
    requires |row| == |y|
    ensures Dot(Scaled(factor, row), y) == factor * Dot(row, y)
  {
    if row != [] {
      var k := |row| - 1;
      DotScaled(factor, row[..k], y[..k]);
      ScaledPrefix(factor, row, k);
      Distributes(factor, Dot(row[..k], y[..k]), row[k], y[k]);
    }
  }

  lemma {:induction false} DotDifference(row: Row, other: Row, y: seq<real>)
    requires |row| == |other| == |y|
    ensures Dot(Difference(row, other), y) == Dot(row, y) - Dot(other, y)
  {
    if row != [] {
      var k := |row| - 1;
      DotDifference(row[..k], other[..k], y[..k]);
      assert Difference(row, other)[..k] == Difference(row[..k], other[..k]);
      assert (row[k] - other[k]) * y[k] == row[k] * y[k] - other[k] * y[k];
    }
  }

  lemma DotMinus(row: Row, factor: real, pivot: Row, y: seq<real>)
    requires |row| == |pivot| == |y|
    ensures Dot(Minus(row, factor, pivot), y) == Dot(row, y) - factor * Dot(pivot, y)
  {
    assert Minus(row, factor, pivot) == Difference(row, Scaled(factor, pivot));
    DotDifference(row, Scaled(factor, pivot), y);
    DotScaled(factor, pivot, y);
  }

  lemma QuotientIsZero(s: real, divisor: real)
    requires divisor != 0.0
    ensures s / divisor == 0.0 <==> s == 0.0
  {}

  lemma SwapKeepsNull(rows: seq<Row>, i: nat, j: nat, y: seq<real>)
    requires Augmented(rows) && i < |rows| && j < |rows| && |y| == |rows| + 1
    ensures Augmented(Swapped(rows, i, j))
    ensures Null(Swapped(rows, i, j), y) <==> Null(rows, y)
  {
    var swapped := Swapped(rows, i, j);
    if Null(swapped, y) {
      forall k | 0 <= k < |rows|
        ensures Dot(rows[k], y) == 0.0
      {
        assert rows[k] == swapped[if k == i then j else if k == j then i else k];
      }
    }
  }

  lemma ScaleKeepsNull(rows: seq<Row>, column: nat, divisor: real, y: seq<real>)
    requires Augmented(rows) && column < |rows| && divisor != 0.0 && |y| == |rows| + 1
    ensures Augmented(rows[column := Divided(rows[column], divisor)])
    ensures Null(rows[column := Divided(rows[column], divisor)], y) <==> Null(rows, y)
  {
    var scaled := rows[column := Divided(rows[column], divisor)];
    DotDivided(rows[column], divisor, y);
    QuotientIsZero(Dot(rows[column], y), divisor);
    forall k | 0 <= k < |rows|
      ensures Dot(scaled[k], y) == 0.0 <==> Dot(rows[k], y) == 0.0
    {}
  }

  lemma ClearKeepsNull(rows: seq<Row>, column: nat, y: seq<real>)
    requires Augmented(rows) && column < |rows| && |y| == |rows| + 1
    ensures Null(Cleared(rows, column), y) <==> Null(rows, y)
  {
    var cleared := Cleared(rows, column);
    if Dot(rows[column], y) == 0.0 {
      forall k | 0 <= k < |rows|
        ensures Dot(cleared[k], y) == Dot(rows[k], y)
      {
        if k != column {
          DotMinus(rows[k], rows[k][column], rows[column], y);
        }
      }
    } else {
      assert Dot(cleared[column], y) != 0.0;
    }
  }

  lemma StepKeepsNull(rows: seq<Row>, column: nat, y: seq<real>)
    requires Augmented(rows) && column < |rows| && |y| == |rows| + 1
    requires Largest(rows, column) > 0.0
    ensures Null(Stepped(rows, column), y) <==> Null(rows, y)
  {
    var swapped := Swapped(rows, column, PivotRow(rows, column, column));
    SwapKeepsNull(rows, column, PivotRow(rows, column, column), y);
    ScaleKeepsNull(swapped, column, swapped[column][column], y);
    ClearKeepsNull(swapped[column := Divided(swapped[column], swapped[column][column])], column, y);
  }

  // ---- the columns become unit columns ---------------------------------------------------------

  ghost predicate UnitEntry(rows: seq<Row>, i: nat, j: nat)
    requires Augmented(rows) && i < |rows| && j < |rows|
  {
    rows[i][j] == if i == j then 1.0 else 0.0
  }

  ghost predicate UnitColumns(rows: seq<Row>, count: nat)
    requires Augmented(rows) && count <= |rows|
  {
    forall i, j :: 0 <= i < |rows| && 0 <= j < count ==> UnitEntry(rows, i, j)
  }

  lemma StepMakesUnit(rows: seq<Row>, column: nat)
    requires Augmented(rows) && column < |rows| && UnitColumns(rows, column)
    requires Largest(rows, column) > 0.0
    ensures UnitColumns(Stepped(rows, column), column + 1)
  {
    var best := PivotRow(rows, column, column);
    var swapped := Swapped(rows, column, best);
    var scaled := swapped[column := Divided(swapped[column], swapped[column][column])];
    forall i, j | 0 <= i < |rows| && 0 <= j < column
      ensures UnitEntry(swapped, i, j)
    {
      assert UnitEntry(rows, i, j) && UnitEntry(rows, best, j) && UnitEntry(rows, column, j);
    }
    forall j | 0 <= j < column
      ensures scaled[column][j] == 0.0
    {
      assert UnitEntry(swapped, column, j);
    }
    assert swapped[column][column] != 0.0;
    forall i, j | 0 <= i < |rows| && 0 <= j < column + 1
      ensures UnitEntry(Stepped(rows, column), i, j)
    {
      if j < column {
        assert UnitEntry(swapped, i, j);
        LosesNothing(scaled[i][j], scaled[i][column]);
      } else {
        OverItself(swapped[column][column]);
        LosesItself(scaled[i][column]);
      }
    }
  }

  lemma LosesNothing(a: real, f: real)
    ensures a - f * 0.0 == a
  {}

  lemma LosesItself(f: real)
    ensures f - f * 1.0 == 0.0
  {}

  lemma OverItself(p: real)
    requires p != 0.0
    ensures p / p == 1.0
  {}

  lemma {:induction false} EliminationKeepsNull(rows: seq<Row>, column: nat, y: seq<real>)
    requires Augmented(rows) && column <= |rows| && |y| == |rows| + 1
    requires Eliminated(rows, column).Ok?
    ensures Null(Eliminated(rows, column).value, y) <==> Null(rows, y)
    decreases |rows| - column
  {
    if column < |rows| {
      StepKeepsNull(rows, column, y);
      EliminationKeepsNull(Stepped(rows, column), column + 1, y);
    }
  }

  lemma {:induction false} EliminationMakesUnit(rows: seq<Row>, column: nat)
    requires Augmented(rows) && column <= |rows| && UnitColumns(rows, column)
    requires Eliminated(rows, column).Ok?
    ensures UnitColumns(Eliminated(rows, column).value, |rows|)
    decreases |rows| - column
  {
    if column < |rows| {
      StepMakesUnit(rows, column);
      EliminationMakesUnit(Stepped(rows, column), column + 1);
    }
  }

  /** A unit row picks out one entry. */
  lemma {:induction false} DotUnitPrefix(rows: seq<Row>, i: nat, y: seq<real>, k: nat)
    requires Augmented(rows) && i < |rows| && k <= |rows| && |y| == |rows| + 1
    requires forall j :: 0 <= j < k ==> UnitEntry(rows, i, j)
    ensures Dot(rows[i][..k], y[..k]) == if i < k then y[i] else 0.0
  {
    if k > 0 {
      DotUnitPrefix(rows, i, y, k - 1);
      assert rows[i][..k][..k - 1] == rows[i][..k - 1] && y[..k][..k - 1] == y[..k - 1];
      assert UnitEntry(rows, i, k - 1);
    }
  }

  /** Once every column is a unit column, the last column is the only solution. */
  lemma UnitSystem(rows: seq<Row>, x: seq<real>)
    requires Augmented(rows) && UnitColumns(rows, |rows|) && |x| == |rows|
    ensures Null(rows, x + [-1.0]) <==> x == LastColumn(rows)
  {
    var y, n := x + [-1.0], |rows|;
    forall i | 0 <= i < n
      ensures Dot(rows[i], y) == x[i] - rows[i][n]
    {
      assert forall j :: 0 <= j < n ==> UnitEntry(rows, i, j);
      DotUnitPrefix(rows, i, y, n);
      assert rows[i][..n] + [rows[i][n]] == rows[i] && y[..n] == x;
      DotAppend(rows[i][..n], y[..n], rows[i][n], -1.0);
    }
    if Null(rows, y) {
      forall i | 0 <= i < n
        ensures x[i] == LastColumn(rows)[i]
      {
        assert Dot(rows[i], y) == 0.0;
      }
    }
  }

  // ---- the theorems ----------------------------------------------------------------------------

  /** Whatever is returned solves the original system, and nothing else does. */
  lemma SolutionIsUnique(matrix: seq<Row>, values: seq<real>, z: seq<real>)
    requires |matrix| == |values| && Square(matrix) && Solution(matrix, values).Ok?
    ensures Solves(matrix, values, z) <==> z == Solution(matrix, values).value
  {
    var rows := Augment(matrix, values);
    var done := Eliminated(rows, 0).value;
    EliminationMakesUnit(rows, 0);
    if |z| == |matrix| {
      EliminationKeepsNull(rows, 0, z + [-1.0]);
      UnitSystem(done, z);
      NullIsSolution(matrix, values, z);
    }
  }

  lemma {:induction false} DotSum(a: seq<real>, x: seq<real>, v: seq<real>)
    requires |a| == |x| == |v|
    ensures Dot(a, Sum(x, v)) == Dot(a, x) + Dot(a, v)
  {
    if a != [] {
      var k := |a| - 1;
      DotSum(a[..k], x[..k], v[..k]);
      assert Sum(x, v)[..k] == Sum(x[..k], v[..k]);
      assert a[k] * (x[k] + v[k]) == a[k] * x[k] + a[k] * v[k];
    }
  }

  function Sum(x: seq<real>, v: seq<real>): (r: seq<real>)
    requires |x| == |v|
    ensures |r| == |x|
  {
    seq(|x|, i requires 0 <= i < |x| => x[i] + v[i])
  }

  /** An accepted matrix sends only zero to zero. */
  lemma AcceptedIsRegular(matrix: seq<Row>, values: seq<real>, v: seq<real>)
    requires |matrix| == |values| == |v| && Square(matrix) && Solution(matrix, values).Ok?
    requires forall i :: 0 <= i < |matrix| ==> Dot(matrix[i], v) == 0.0
    ensures Zero(v)
  {
    var x := Solution(matrix, values).value;
    SolutionIsUnique(matrix, values, x);
    SolutionIsUnique(matrix, values, Sum(x, v));
    forall i | 0 <= i < |matrix|
      ensures Dot(matrix[i], Sum(x, v)) == values[i]
    {
      DotSum(matrix[i], x, v);
    }
    forall i | 0 <= i < |v|
      ensures v[i] == 0.0
    {
      assert Sum(x, v)[i] == x[i] + v[i];
    }
  }

  /** A singular matrix is always rejected. */
  lemma SingularIsRejected(matrix: seq<Row>, values: seq<real>)
    requires |matrix| == |values| && Square(matrix) && Singular(matrix)
    ensures Solution(matrix, values).Err?
  {
    if Solution(matrix, values).Ok? {
      var v :| |v| == |matrix| && !Zero(v) && forall i :: 0 <= i < |matrix| ==> Dot(matrix[i], v) == 0.0;
      AcceptedIsRegular(matrix, values, v);
    }
  }

  /** With no pivot left in a column, the entries above give a vector the matrix sends to zero. */
  function Kernel(rows: seq<Row>, column: nat): (v: seq<real>)
    requires Augmented(rows) && column < |rows|
    ensures |v| == |rows| && v[column] == 1.0
  {
    seq(|rows|, j requires 0 <= j < |rows| =>
      if j < column then -rows[j][column] else if j == column then 1.0 else 0.0)
  }

  lemma {:induction false} DotZeroTail(a: seq<real>, b: seq<real>, k: nat)
    requires |a| == |b| && k <= |a|
    requires forall j :: k <= j < |b| ==> b[j] == 0.0
    ensures Dot(a, b) == Dot(a[..k], b[..k])
  {
    if k == |a| {
      assert a[..k] == a && b[..k] == b;
    } else {
      var n := |a| - 1;
      DotZeroTail(a[..n], b[..n], k);
      assert a[..n][..k] == a[..k] && b[..n][..k] == b[..k];
    }
  }

  lemma KernelIsNull(rows: seq<Row>, column: nat)
    requires Augmented(rows) && column < |rows| && UnitColumns(rows, column)
    requires forall i :: column <= i < |rows| ==> rows[i][column] == 0.0
    ensures Null(rows, Kernel(rows, column) + [0.0])
  {
    var y := Kernel(rows, column) + [0.0];
    forall i | 0 <= i < |rows|
      ensures Dot(rows[i], y) == 0.0
    {
      DotZeroTail(rows[i], y, column + 1);
      assert forall j :: 0 <= j < column ==> UnitEntry(rows, i, j);
      DotUnitPrefix(rows, i, y, column);
      assert rows[i][..column + 1] == rows[i][..column] + [rows[i][column]];
      assert y[..column + 1] == y[..column] + [y[column]];
      DotAppend(rows[i][..column], y[..column], rows[i][column], y[column]);
    }
  }

  // ---- which matrices are accepted ----------------------------------------------------------------

  /** The pivots exact elimination meets, by magnitude, up to the first that is zero. */
  function Pivots(rows: seq<Row>, column: nat): (pivots: seq<real>)
    requires Augmented(rows) && column <= |rows|
    decreases |rows| - column
  {
    if column == |rows| then []
    else if Largest(rows, column) > 0.0 then [Largest(rows, column)] + Pivots(Stepped(rows, column), column + 1)
    else [Largest(rows, column)]
  }

  ghost predicate AllPositive(pivots: seq<real>) {
    forall i :: 0 <= i < |pivots| ==> pivots[i] > 0.0
  }

  ghost predicate AllReach(pivots: seq<real>, tolerance: real) {
    forall i :: 0 <= i < |pivots| ==> pivots[i] >= tolerance
  }

  ghost predicate Reaching(rows: seq<Row>, column: nat)
    requires Augmented(rows) && column <= |rows|
  {
    AllReach(Pivots(rows, column), TOLERANCE)
  }

  lemma FirstAndRest(first: real, rest: seq<real>, tolerance: real)
    ensures AllPositive([first] + rest) <==> first > 0.0 && AllPositive(rest)
    ensures AllReach([first] + rest, tolerance) <==> first >= tolerance && AllReach(rest, tolerance)
  {
    var all := [first] + rest;
    forall i | 0 <= i < |rest|
      ensures rest[i] == all[i + 1]
    {}
    assert all[0] == first;
  }

  lemma FirstPivot(rows: seq<Row>, column: nat)
    requires Augmented(rows) && column < |rows|
    ensures Pivots(rows, column) != [] && Pivots(rows, column)[0] == Largest(rows, column)
  {}

  lemma NextPivots(rows: seq<Row>, column: nat)
    requires Augmented(rows) && column < |rows| && Largest(rows, column) > 0.0
    ensures Pivots(rows, column) == [Largest(rows, column)] + Pivots(Stepped(rows, column), column + 1)
    ensures forall t :: AllReach(Pivots(rows, column), t) <==>
              Largest(rows, column) >= t && AllReach(Pivots(Stepped(rows, column), column + 1), t)
    ensures AllPositive(Pivots(rows, column)) <==> AllPositive(Pivots(Stepped(rows, column), column + 1))
  {
    var rest := Pivots(Stepped(rows, column), column + 1);
    forall t
      ensures AllReach([Largest(rows, column)] + rest, t) <==> Largest(rows, column) >= t && AllReach(rest, t)
    {
      FirstAndRest(Largest(rows, column), rest, t);
    }
    FirstAndRest(Largest(rows, column), rest, 0.0);
  }

  lemma NextElimination(rows: seq<Row>, column: nat)
    requires Augmented(rows) && column < |rows|
    ensures Largest(rows, column) < TOLERANCE ==> Eliminated(rows, column) == Err(NearlySingular(Largest(rows, column)))
    ensures Largest(rows, column) >= TOLERANCE ==>
              Eliminated(rows, column) == Eliminated(Stepped(rows, column), column + 1)
  {}

  /** The elimination gets through exactly when the pivots left all reach the tolerance. */
  ghost predicate Agreeing(rows: seq<Row>, column: nat)
    requires Augmented(rows) && column <= |rows|
  {
    Eliminated(rows, column).Ok? <==> Reaching(rows, column)
  }

  /** A step at or above the tolerance leaves the verdict, and the other pivots, to the next column. */
  lemma NextVerdict(rows: seq<Row>, column: nat) returns (next: seq<Row>)
    requires Augmented(rows) && column < |rows| && Largest(rows, column) >= TOLERANCE
    ensures |next| == |rows| && Augmented(next) && Eliminated(rows, column) == Eliminated(next, column + 1)
    ensures Agreeing(next, column + 1) ==> Agreeing(rows, column)
    ensures forall p :: Meets(next, column + 1, p) ==> Meets(rows, column, p)
  {
    next := Stepped(rows, column);
    NextElimination(rows, column);
    NextPivots(rows, column);
  }

  lemma {:induction false} EliminatedIffPivotsReach(rows: seq<Row>, column: nat)
    requires Augmented(rows) && column <= |rows|
    ensures Agreeing(rows, column)
    decreases |rows| - column
  {
    if column < |rows| {
      if Largest(rows, column) >= TOLERANCE {
        var next := NextVerdict(rows, column);
        EliminatedIffPivotsReach(next, column + 1);
      } else {
        TooSmall(rows, column);
      }
    }
  }

  lemma TooSmall(rows: seq<Row>, column: nat)
    requires Augmented(rows) && column < |rows| && Largest(rows, column) < TOLERANCE
    ensures Eliminated(rows, column).Err? && Agreeing(rows, column)
  {
    FirstPivot(rows, column);
    assert Pivots(rows, column)[0] < TOLERANCE;
  }

  /** What one step hands on to the next: a unit column more, the same vectors sent to zero, and the rest of
      the pivots. */
  lemma NextRows(rows: seq<Row>, column: nat) returns (next: seq<Row>)
    requires Augmented(rows) && column < |rows| && UnitColumns(rows, column) && Largest(rows, column) > 0.0
    ensures |next| == |rows| && Augmented(next) && UnitColumns(next, column + 1)
    ensures AllPositive(Pivots(rows, column)) <==> AllPositive(Pivots(next, column + 1))
    ensures forall y {:trigger Null(next, y)} :: |y| == |rows| + 1 ==> (Null(next, y) <==> Null(rows, y))
  {
    next := Stepped(rows, column);
    NextPivots(rows, column);
    StepMakesUnit(rows, column);
    forall y | |y| == |rows| + 1
      ensures Null(Stepped(rows, column), y) <==> Null(rows, y)
    {
      StepKeepsNull(rows, column, y);
    }
  }

  /** The rows send the vector, which is not zero, to zero. */
  ghost predicate Kills(rows: seq<Row>, v: seq<real>)
    requires Augmented(rows)
  {
    |v| == |rows| && !Zero(v) && Null(rows, v + [0.0])
  }

  /** With every pivot positive the only vector the rows send to zero is zero. */
  lemma {:induction false} PositivePivotsLeaveZero(rows: seq<Row>, column: nat, v: seq<real>)
    requires Augmented(rows) && column <= |rows| && UnitColumns(rows, column)
    requires AllPositive(Pivots(rows, column))
    ensures !Kills(rows, v)
    decreases |rows| - column
  {
    if Kills(rows, v) {
      if column == |rows| {
        UnitRowsPickEntries(rows, v);
      } else {
        FirstPivot(rows, column);
        assert Pivots(rows, column)[0] > 0.0;
        var next := NextRows(rows, column);
        KillsNext(rows, next, v);
        PositivePivotsLeaveZero(next, column + 1, v);
      }
    }
  }

  lemma KillsNext(rows: seq<Row>, next: seq<Row>, v: seq<real>)
    requires Augmented(rows) && Augmented(next) && |next| == |rows|
    requires forall y {:trigger Null(next, y)} :: |y| == |rows| + 1 ==> (Null(next, y) <==> Null(rows, y))
    ensures Kills(next, v) <==> Kills(rows, v)
  {
    if |v| == |rows| {
      assert Null(next, v + [0.0]) <==> Null(rows, v + [0.0]);
    }
  }

  lemma UnitRowsPickEntries(rows: seq<Row>, v: seq<real>)
    requires Augmented(rows) && UnitColumns(rows, |rows|) && |v| == |rows| && Null(rows, v + [0.0])
    ensures Zero(v)
  {
    var y, n := v + [0.0], |rows|;
    forall i | 0 <= i < n
      ensures v[i] == 0.0
    {
      assert forall j :: 0 <= j < n ==> UnitEntry(rows, i, j);
      DotUnitPrefix(rows, i, y, n);
      assert rows[i][..n] + [rows[i][n]] == rows[i] && y[..n] == v;
      DotAppend(rows[i][..n], y[..n], rows[i][n], 0.0);
      assert Dot(rows[i], y) == 0.0;
    }
  }

  /** A zero pivot gives a vector the rows send to zero. */
  lemma {:induction false} ZeroPivotGivesKernel(rows: seq<Row>, column: nat) returns (v: seq<real>)
    requires Augmented(rows) && column <= |rows| && UnitColumns(rows, column)
    requires !AllPositive(Pivots(rows, column))
    ensures Kills(rows, v)
    decreases |rows| - column
  {
    if Largest(rows, column) > 0.0 {
      var next := NextRows(rows, column);
      v := ZeroPivotGivesKernel(next, column + 1);
      KillsNext(rows, next, v);
    } else {
      v := ZeroColumnGivesKernel(rows, column);
    }
  }

  lemma ZeroColumnGivesKernel(rows: seq<Row>, column: nat) returns (v: seq<real>)
    requires Augmented(rows) && column < |rows| && UnitColumns(rows, column) && Largest(rows, column) <= 0.0
    ensures Kills(rows, v)
  {
    v := Kernel(rows, column);
    KernelIsNull(rows, column);
    assert v[column] != 0.0;
  }

  lemma NullIsKernel(matrix: seq<Row>, values: seq<real>, v: seq<real>)
    requires Square(matrix) && |matrix| == |values| == |v|
    ensures Null(Augment(matrix, values), v + [0.0]) <==> forall i :: 0 <= i < |matrix| ==> Dot(matrix[i], v) == 0.0
  {
    forall i | 0 <= i < |matrix|
      ensures Dot(Augment(matrix, values)[i], v + [0.0]) == Dot(matrix[i], v)
    {
      DotAppend(matrix[i], v, values[i], 0.0);
    }
  }

  /** A matrix is regular exactly when no pivot of its elimination is zero. */
  lemma RegularIffPivotsPositive(matrix: seq<Row>, values: seq<real>)
    requires |matrix| == |values| && Square(matrix)
    ensures !Singular(matrix) <==> AllPositive(Pivots(Augment(matrix, values), 0))
  {
    var rows := Augment(matrix, values);
    if AllPositive(Pivots(rows, 0)) {
      if Singular(matrix) {
        var v :| |v| == |matrix| && !Zero(v) && forall i :: 0 <= i < |matrix| ==> Dot(matrix[i], v) == 0.0;
        NullIsKernel(matrix, values, v);
        PositivePivotsLeaveZero(rows, 0, v);
      }
    } else {
      var v := ZeroPivotGivesKernel(rows, 0);
      NullIsKernel(matrix, values, v);
    }
  }

  /** A matrix is accepted exactly when every pivot of its elimination reaches the tolerance. */
  lemma AcceptedIffPivotsReach(matrix: seq<Row>, values: seq<real>)
    requires |matrix| == |values| && Square(matrix)
    ensures Solution(matrix, values).Ok? <==> AllReach(Pivots(Augment(matrix, values), 0), TOLERANCE)
  {
    EliminatedIffPivotsReach(Augment(matrix, values), 0);
  }

  /** A system that has exactly one solution is rejected all the same if and only if its pivots are all
      positive and one of them is below the tolerance. */
  lemma RegularButRejected(matrix: seq<Row>, values: seq<real>)
    requires |matrix| == |values| && Square(matrix)
    ensures var pivots := Pivots(Augment(matrix, values), 0);
            !Singular(matrix) && Solution(matrix, values).Err? <==>
            AllPositive(pivots) && exists i :: 0 <= i < |pivots| && pivots[i] < TOLERANCE
  {
    RegularIffPivotsPositive(matrix, values);
    AcceptedIffPivotsReach(matrix, values);
  }

  /** A rejection that reports a zero pivot is right: the matrix is singular. */
  lemma ZeroPivotMeansSingular(matrix: seq<Row>, values: seq<real>)
    requires |matrix| == |values| && Square(matrix)
    requires Solution(matrix, values) == Err(NearlySingular(0.0))
    ensures Singular(matrix)
  {
    ReportedPivot(Augment(matrix, values), 0, 0.0);
    RegularIffPivotsPositive(matrix, values);
  }

  ghost predicate Meets(rows: seq<Row>, column: nat, p: real)
    requires Augmented(rows) && column <= |rows|
  {
    p in Pivots(rows, column)
  }

  lemma {:induction false} ReportedPivot(rows: seq<Row>, column: nat, largest: real)
    requires Augmented(rows) && column <= |rows| && Eliminated(rows, column) == Err(NearlySingular(largest))
    ensures Meets(rows, column, largest)
    decreases |rows| - column
  {
    if Largest(rows, column) < TOLERANCE {
      FirstPivot(rows, column);
    } else {
      var next := NextVerdict(rows, column);
      ReportedPivot(next, column + 1, largest);
    }
  }

  // ---- acceptance depends on the matrix alone -------------------------------------------------------

  ghost predicate SameMatrix(rows: seq<Row>, other: seq<Row>) {
    && Augmented(rows) && Augmented(other) && |rows| == |other|
    && forall i, j :: 0 <= i < |rows| && 0 <= j < |rows| ==> rows[i][j] == other[i][j]
  }

  lemma {:induction false} SamePivotRow(rows: seq<Row>, other: seq<Row>, column: nat, from: nat)
    requires SameMatrix(rows, other) && column < |rows| && from < |rows|
    ensures PivotRow(rows, column, from) == PivotRow(other, column, from)
    decreases |rows| - from
  {
    if from < |rows| - 1 {
      SamePivotRow(rows, other, column, from + 1);
    }
  }

  lemma SameSwap(rows: seq<Row>, other: seq<Row>, i: nat, j: nat)
    requires SameMatrix(rows, other) && i < |rows| && j < |rows|
    ensures SameMatrix(Swapped(rows, i, j), Swapped(other, i, j))
  {
    forall k | 0 <= k < |rows|
      ensures Swapped(rows, i, j)[k] == rows[if k == i then j else if k == j then i else k]
      ensures Swapped(other, i, j)[k] == other[if k == i then j else if k == j then i else k]
    {}
  }

  lemma SameScale(rows: seq<Row>, other: seq<Row>, column: nat, divisor: real)
    requires SameMatrix(rows, other) && column < |rows| && divisor != 0.0
    ensures SameMatrix(rows[column := Divided(rows[column], divisor)], other[column := Divided(other[column], divisor)])
  {}

  lemma SameClear(rows: seq<Row>, other: seq<Row>, column: nat)
    requires SameMatrix(rows, other) && column < |rows|
    ensures SameMatrix(Cleared(rows, column), Cleared(other, column))
  {
    forall i, j | 0 <= i < |rows| && 0 <= j < |rows|
      ensures Cleared(rows, column)[i][j] == Cleared(other, column)[i][j]
    {
      assert rows[i][j] == other[i][j] && rows[i][column] == other[i][column] && rows[column][j] == other[column][j];
    }
  }

  lemma SameStep(rows: seq<Row>, other: seq<Row>, column: nat)
    requires SameMatrix(rows, other) && column < |rows| && Largest(rows, column) > 0.0
    ensures Largest(other, column) == Largest(rows, column)
    ensures SameMatrix(Stepped(rows, column), Stepped(other, column))
  {
    SamePivotRow(rows, other, column, column);
    var best := PivotRow(rows, column, column);
    var swapped, swapped' := Swapped(rows, column, best), Swapped(other, column, best);
    SameSwap(rows, other, column, best);
    assert swapped[column][column] == swapped'[column][column];
    var divisor := swapped[column][column];
    SameScale(swapped, swapped', column, divisor);
    SameClear(swapped[column := Divided(swapped[column], divisor)],
              swapped'[column := Divided(swapped'[column], divisor)], column);
  }

  ghost predicate EqualPivots(rows: seq<Row>, other: seq<Row>, column: nat)
    requires SameMatrix(rows, other) && column <= |rows|
  {
    Pivots(rows, column) == Pivots(other, column)
  }

  lemma NextSame(rows: seq<Row>, other: seq<Row>, column: nat) returns (next: seq<Row>, next': seq<Row>)
    requires SameMatrix(rows, other) && column < |rows| && Largest(rows, column) > 0.0
    ensures SameMatrix(next, next') && |next| == |rows|
    ensures EqualPivots(next, next', column + 1) ==> EqualPivots(rows, other, column)
  {
    SameStep(rows, other, column);
    next, next' := Stepped(rows, column), Stepped(other, column);
    NextPivots(rows, column);
    NextPivots(other, column);
  }

  lemma {:induction false} SamePivots(rows: seq<Row>, other: seq<Row>, column: nat)
    requires SameMatrix(rows, other) && column <= |rows|
    ensures EqualPivots(rows, other, column)
    decreases |rows| - column
  {
    if column < |rows| {
      if Largest(rows, column) > 0.0 {
        var next, next' := NextSame(rows, other, column);
        SamePivots(next, next', column + 1);
      } else {
        SameLargest(rows, other, column);
      }
    }
  }

  lemma SameLargest(rows: seq<Row>, other: seq<Row>, column: nat)
    requires SameMatrix(rows, other) && column < |rows|
    ensures Largest(rows, column) == Largest(other, column)
  {
    SamePivotRow(rows, other, column, column);
  }

  /** Whether a system is accepted depends on its matrix alone. */
  lemma AcceptanceIgnoresValues(matrix: seq<Row>, values: seq<real>, others: seq<real>)
    requires |matrix| == |values| == |others| && Square(matrix)
    ensures Pivots(Augment(matrix, values), 0) == Pivots(Augment(matrix, others), 0)
    ensures Solution(matrix, values).Ok? <==> Solution(matrix, others).Ok?
  {
    SamePivots(Augment(matrix, values), Augment(matrix, others), 0);
    AcceptedIffPivotsReach(matrix, values);
    AcceptedIffPivotsReach(matrix, others);
  }

  // ---- regular matrices that are rejected -----------------------------------------------------------

  /** The identity of size `n` times `s`. */
  function Diagonal(n: nat, s: real): (matrix: seq<Row>)
    ensures |matrix| == n && Square(matrix)
    ensures forall i, j :: 0 <= i < n && 0 <= j < n ==> matrix[i][j] == if i == j then s else 0.0
  {
    seq(n, i requires 0 <= i < n => seq(n, j requires 0 <= j < n => if i == j then s else 0.0))
  }

  lemma {:induction false} DotDiagonal(n: nat, s: real, i: nat, v: seq<real>, k: nat)
    requires i < n == |v| && k <= n
    ensures Dot(Diagonal(n, s)[i][..k], v[..k]) == if i < k then s * v[i] else 0.0
  {
    if k > 0 {
      DotDiagonal(n, s, i, v, k - 1);
      var row := Diagonal(n, s)[i];
      assert row[..k][..k - 1] == row[..k - 1] && v[..k][..k - 1] == v[..k - 1];
      assert row[k - 1] == if i == k - 1 then s else 0.0;
    }
  }

  /** In every size there is a regular matrix that is rejected whatever its values, and scaling it up makes it
      acceptable: the test is on the scale of the pivots, not on regularity. */
  lemma TinyDiagonalIsRejected(n: nat, s: real, values: seq<real>)
    requires n > 0 && |values| == n && 0.0 < s < TOLERANCE
    ensures !Singular(Diagonal(n, s)) && Solution(Diagonal(n, s), values) == Err(NearlySingular(s))
  {
    var matrix := Diagonal(n, s);
    var rows := Augment(matrix, values);
    forall v | |v| == n && (forall i :: 0 <= i < n ==> Dot(matrix[i], v) == 0.0)
      ensures Zero(v)
    {
      forall i | 0 <= i < n
        ensures v[i] == 0.0
      {
        DotDiagonal(n, s, i, v, n);
        assert matrix[i][..n] == matrix[i] && v[..n] == v;
      }
    }
    forall i | 0 <= i < n
      ensures rows[i][0] == if i == 0 then s else 0.0
    {}
    assert Abs(rows[0][0]) == s;
    assert Largest(rows, 0) == s;
  }

  /** Numbers of ordinary size do it too: one pivot is 1 and the next is too small. */
  lemma CloseRowsAreRejected(e: real, b: real, c: real)
    requires 0.0 < e < TOLERANCE
    ensures !Singular([[1.0, 1.0], [1.0, 1.0 + e]]) && Solution([[1.0, 1.0], [1.0, 1.0 + e]], [b, c]).Err?
  {
    var matrix := [[1.0, 1.0], [1.0, 1.0 + e]];
    var rows := Augment(matrix, [b, c]);
    assert rows[0] == [1.0, 1.0, b] && rows[1] == [1.0, 1.0 + e, c];
    assert PivotRow(rows, 0, 1) == 1 && PivotRow(rows, 0, 0) == 0 && Largest(rows, 0) == 1.0;
    var next := Stepped(rows, 0);
    assert next[1][1] == e;
    assert PivotRow(next, 1, 1) == 1 && Largest(next, 1) == e;
    assert Pivots(rows, 0) == [1.0] + Pivots(next, 1);
    assert Pivots(next, 1) == [e] + Pivots(Stepped(next, 1), 2);
    assert Pivots(rows, 0) == [1.0, e];
    RegularButRejected(matrix, [b, c]);
    assert Pivots(rows, 0)[1] < TOLERANCE;
  }

  // ---- the homography system -------------------------------------------------------------------

  datatype Corner = Corner(x: real, y: real)

  const CORNERS := 4

  function HorizontalRow(d: Corner, s: Corner): (r: Row)
    ensures |r| == 8
  {
    [d.x, d.y, 1.0, 0.0, 0.0, 0.0, -s.x * d.x, -s.x * d.y]
  }

  function VerticalRow(d: Corner, s: Corner): (r: Row)
    ensures |r| == 8
  {
    [0.0, 0.0, 0.0, d.x, d.y, 1.0, -s.y * d.x, -s.y * d.y]
  }

  function HomographyRows(destination: seq<Corner>, source: seq<Corner>): (rows: seq<Row>)
    requires |destination| == |source|
    ensures |rows| == 2 * |destination| && forall i :: 0 <= i < |rows| ==> |rows[i]| == 8
    ensures forall i :: 0 <= i < |destination| ==>
              && rows[2 * i] == HorizontalRow(destination[i], source[i])
              && rows[2 * i + 1] == VerticalRow(destination[i], source[i])
  {
    if destination == [] then []
    else
      var k := |destination| - 1;
      HomographyRows(destination[..k], source[..k])
        + [HorizontalRow(destination[k], source[k]), VerticalRow(destination[k], source[k])]
  }

  function HomographyValues(source: seq<Corner>): (values: seq<real>)
    ensures |values| == 2 * |source|
    ensures forall i :: 0 <= i < |source| ==> values[2 * i] == source[i].x && values[2 * i + 1] == source[i].y
  {
    if source == [] then []
    else
      var k := |source| - 1;
      HomographyValues(source[..k]) + [source[k].x, source[k].y]
  }

  /** The homography with these coefficients takes the destination corner to the source corner, with
      both sides multiplied by the denominator. */
  predicate Maps(c: seq<real>, d: Corner, s: Corner)
    requires |c| == 8
  {
    var denominator := c[6] * d.x + c[7] * d.y + 1.0;
    && s.x * denominator == c[0] * d.x + c[1] * d.y + c[2]
    && s.y * denominator == c[3] * d.x + c[4] * d.y + c[5]
  }

  lemma DotOfEight(a: seq<real>, c: seq<real>)
    requires |a| == |c| == 8
    ensures Dot(a, c) == a[0] * c[0] + a[1] * c[1] + a[2] * c[2] + a[3] * c[3]
                       + a[4] * c[4] + a[5] * c[5] + a[6] * c[6] + a[7] * c[7]
  {
    DotOfFour(a[..4], c[..4]);
    forall k | 4 <= k < 8
      ensures a[..k + 1][..k] == a[..k] && c[..k + 1][..k] == c[..k]
    {}
    assert a[..8] == a && c[..8] == c;
    assert Dot(a[..5], c[..5]) == Dot(a[..4], c[..4]) + a[4] * c[4];
    assert Dot(a[..6], c[..6]) == Dot(a[..5], c[..5]) + a[5] * c[5];
    assert Dot(a[..7], c[..7]) == Dot(a[..6], c[..6]) + a[6] * c[6];
  }

  lemma DotOfFour(a: seq<real>, c: seq<real>)
    requires |a| == |c| == 4
    ensures Dot(a, c) == a[0] * c[0] + a[1] * c[1] + a[2] * c[2] + a[3] * c[3]
  {
    forall k | 0 <= k < 4
      ensures a[..k + 1][..k] == a[..k] && c[..k + 1][..k] == c[..k]
    {}
    assert a[..4] == a && c[..4] == c;
    assert Dot(a[..1], c[..1]) == a[0] * c[0];
    assert Dot(a[..2], c[..2]) == Dot(a[..1], c[..1]) + a[1] * c[1];
    assert Dot(a[..3], c[..3]) == Dot(a[..2], c[..2]) + a[2] * c[2];
  }

  lemma CrossMultiplied(u: real, x: real, y: real, g: real, h: real, lhs: real)
    ensures lhs + (-u * x) * g + (-u * y) * h == u <==> u * (g * x + h * y + 1.0) == lhs
  {
    assert (-u * x) * g == -(u * (g * x));
    assert (-u * y) * h == -(u * (h * y));
    assert u * (g * x + h * y + 1.0) == u * (g * x) + u * (h * y) + u;
  }

  /** One corner's two equations say exactly that the corner is mapped. */
  lemma CornerEquations(c: seq<real>, d: Corner, s: Corner)
    requires |c| == 8
    ensures Maps(c, d, s) <==> Dot(HorizontalRow(d, s), c) == s.x && Dot(VerticalRow(d, s), c) == s.y
  {
    DotOfEight(HorizontalRow(d, s), c);
    DotOfEight(VerticalRow(d, s), c);
    CrossMultiplied(s.x, d.x, d.y, c[6], c[7], c[0] * d.x + c[1] * d.y + c[2]);
    CrossMultiplied(s.y, d.x, d.y, c[6], c[7], c[3] * d.x + c[4] * d.y + c[5]);
  }

  /** The coefficients returned map all four corners, and are the only ones that do. */
  lemma CoefficientsMapCorners(destination: seq<Corner>, source: seq<Corner>, c: seq<real>)
    requires |destination| == |source| == CORNERS && |c| == 8
    requires Solution(HomographyRows(destination, source), HomographyValues(source)).Ok?
    ensures (forall i :: 0 <= i < CORNERS ==> Maps(c, destination[i], source[i])) <==>
            c == Solution(HomographyRows(destination, source), HomographyValues(source)).value
  {
    var matrix, values := HomographyRows(destination, source), HomographyValues(source);
    SolutionIsUnique(matrix, values, c);
    forall i | 0 <= i < CORNERS
      ensures Maps(c, destination[i], source[i]) <==>
              Dot(matrix[2 * i], c) == values[2 * i] && Dot(matrix[2 * i + 1], c) == values[2 * i + 1]
    {
      CornerEquations(c, destination[i], source[i]);
    }
    if forall i :: 0 <= i < CORNERS ==> Maps(c, destination[i], source[i]) {
      forall k | 0 <= k < 8
        ensures Dot(matrix[k], c) == values[k]
      {
        assert Maps(c, destination[k / 2], source[k / 2]);
        assert k == 2 * (k / 2) || k == 2 * (k / 2) + 1;
      }
    }
  }
}
