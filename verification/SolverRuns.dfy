/**
 * The solver as it runs: loops that work in place on an array of rows, whatever their lengths. A row that is too
 * short, or that cannot be subtracted from another, stops it. On a square system it does what `LinearSolver` says.
 */
module SolverRuns {
  import opened Prelude
  import opened LinearSolver

  // ---- what a run computes -------------------------------------------------------------------------

  /** The rows from `row` on lose their entries in the column, one after the other. */
  function ClearedFrom(rows: seq<Row>, column: nat, row: nat): (r: Result<seq<Row>, SolveError>)
    requires column < |rows| && row <= |rows|
    ensures r.Ok? ==> SameLengths(rows, r.value)
    decreases |rows| - row
  {
    if row == |rows| then Ok(rows)
    else if row == column then ClearedFrom(rows, column, row + 1)
    else if |rows[row]| <= column then Err(IndexOutOfRange)
    else if rows[row][column] == 0.0 then ClearedFrom(rows, column, row + 1)
    else if |rows[row]| != |rows[column]| then Err(UnequalRows)
    else ClearedFrom(rows[row := Minus(rows[row], rows[row][column], rows[column])], column, row + 1)
  }

  predicate SameLengths(rows: seq<Row>, other: seq<Row>) {
    |rows| == |other| && forall i :: 0 <= i < |rows| ==> |rows[i]| == |other[i]|
  }

  predicate NoneEmpty(rows: seq<Row>) {
    forall i :: 0 <= i < |rows| ==> rows[i] != []
  }

  /** Every row has this many entries. */
  predicate AllOfLength(rows: seq<Row>, length: nat) {
    forall i :: 0 <= i < |rows| ==> |rows[i]| == length
  }

  function Reduced(rows: seq<Row>, column: nat): (r: Result<seq<Row>, SolveError>)
    requires column < |rows|
    ensures r.Ok? ==> |r.value| == |rows| && (NoneEmpty(rows) ==> NoneEmpty(r.value))
    ensures r.Ok? ==> forall length :: AllOfLength(rows, length) ==> AllOfLength(r.value, length)
  {
    if !Reach(rows, column, column) then Err(IndexOutOfRange)
    else if Largest(rows, column) < TOLERANCE then Err(NearlySingular(Largest(rows, column)))
    else
      var swapped := Swapped(rows, column, PivotRow(rows, column, column));
      ClearedFrom(swapped[column := Divided(swapped[column], swapped[column][column])], column, 0)
  }

  function Run(rows: seq<Row>, column: nat): (r: Result<seq<Row>, SolveError>)
    requires column <= |rows|
    ensures r.Ok? ==> |r.value| == |rows| && (NoneEmpty(rows) ==> NoneEmpty(r.value))
    decreases |rows| - column
  {
    if column == |rows| then Ok(rows)
    else
      match Reduced(rows, column)
      case Err(e) => Err(e)
      case Ok(next) => Run(next, column + 1)
  }

  function Appended(matrix: seq<Row>, values: seq<real>): (rows: seq<Row>)
    requires |matrix| == |values|
    ensures |rows| == |matrix| && NoneEmpty(rows)
  {
    seq(|matrix|, i requires 0 <= i < |matrix| => matrix[i] + [values[i]])
  }

  function LastEntries(rows: seq<Row>): (x: seq<real>)
    requires NoneEmpty(rows)
    ensures |x| == |rows|
  {
    seq(|rows|, i requires 0 <= i < |rows| => rows[i][|rows[i]| - 1])
  }

  function Outcome(matrix: seq<Row>, values: seq<real>): Result<seq<real>, SolveError> {
    if |matrix| != |values| then Err(LengthMismatch)
    else
      match Run(Appended(matrix, values), 0)
      case Ok(rows) => Ok(LastEntries(rows))
      case Err(e) => Err(e)
  }

  // ---- the loops -----------------------------------------------------------------------------------

  /** The first row of largest magnitude, among the rows that are left. */
  method FindPivot(augmented: array<Row>, column: nat) returns (result: Result<nat, SolveError>)
    requires column < augmented.Length
    ensures result == if Reach(augmented[..], column, column) then Ok(PivotRow(augmented[..], column, column))
                      else Err(IndexOutOfRange)
  {
    if |augmented[column]| <= column {
      return Err(IndexOutOfRange);
    }
    var pivotRow := column;
    for row := column + 1 to augmented.Length
      invariant column <= pivotRow < row
      invariant forall i :: column <= i < row ==> column < |augmented[i]|
      invariant forall i :: column <= i < row ==> Abs(augmented[i][column]) <= Abs(augmented[pivotRow][column])
      invariant forall i :: column <= i < pivotRow ==> Abs(augmented[i][column]) < Abs(augmented[pivotRow][column])
    {
      if |augmented[row]| <= column {
        return Err(IndexOutOfRange);
      }
      if Abs(augmented[pivotRow][column]) < Abs(augmented[row][column]) {
        pivotRow := row;
      }
    }
    FirstLargest(augmented[..], column, pivotRow);
    result := Ok(pivotRow);
  }

  lemma FirstLargest(rows: seq<Row>, column: nat, best: nat)
    requires Reach(rows, column, column) && column <= best < |rows|
    requires forall i :: column <= i < |rows| ==> Abs(rows[i][column]) <= Abs(rows[best][column])
    requires forall i :: column <= i < best ==> Abs(rows[i][column]) < Abs(rows[best][column])
    ensures PivotRow(rows, column, column) == best
  {}

  /** Subtracts the pivot row from every other row that has an entry in the column. */
  method ClearColumn(augmented: array<Row>, column: nat) returns (failure: Option<SolveError>)
    requires column < augmented.Length
    modifies augmented
    ensures ClearedFrom(old(augmented[..]), column, 0)
            == if failure.None? then Ok(augmented[..]) else Err(failure.value)
  {
    ghost var was := augmented[..];
    for row := 0 to augmented.Length
      invariant ClearedFrom(augmented[..], column, row) == ClearedFrom(was, column, 0)
    {
      if row != column {
        if |augmented[row]| <= column {
          return Some(IndexOutOfRange);
        }
        var factor := augmented[row][column];
        if factor != 0.0 {
          if |augmented[row]| != |augmented[column]| {
            return Some(UnequalRows);
          }
          ghost var before := augmented[..];
          augmented[row] := Minus(augmented[row], factor, augmented[column]);
          assert augmented[..] == before[row := Minus(before[row], factor, before[column])];
        }
      }
    }
    return None;
  }

  method ReduceColumn(augmented: array<Row>, column: nat) returns (failure: Option<SolveError>)
    requires column < augmented.Length
    modifies augmented
    ensures Reduced(old(augmented[..]), column) == if failure.None? then Ok(augmented[..]) else Err(failure.value)
  {
    ghost var before := augmented[..];
    var found := FindPivot(augmented, column);
    if found.Err? {
      return Some(found.error);
    }
    var pivotRow := found.value;
    if Abs(augmented[pivotRow][column]) < TOLERANCE {
      return Some(NearlySingular(Abs(augmented[pivotRow][column])));
    }
    augmented[column], augmented[pivotRow] := augmented[pivotRow], augmented[column];
    ghost var swapped := augmented[..];
    assert swapped == Swapped(before, column, pivotRow);
    augmented[column] := Divided(augmented[column], augmented[column][column]);
    assert augmented[..] == swapped[column := Divided(swapped[column], swapped[column][column])];
    failure := ClearColumn(augmented, column);
  }

  method SolveLinear(matrix: seq<Row>, values: seq<real>) returns (result: Result<seq<real>, SolveError>)
    ensures result == Outcome(matrix, values)
  {
    if |matrix| != |values| {
      return Err(LengthMismatch);
    }
    var size := |values|;
    var augmented := new Row[size](i requires 0 <= i < size => matrix[i] + [values[i]]);
    ghost var start := Appended(matrix, values);
    assert augmented[..] == start;
    for pivotColumn := 0 to size
      invariant NoneEmpty(augmented[..])
      invariant Run(augmented[..], pivotColumn) == Run(start, 0)
    {
      ghost var before := augmented[..];
      var failure := ReduceColumn(augmented, pivotColumn);
      if failure.Some? {
        return Err(failure.value);
      }
      assert Reduced(before, pivotColumn) == Ok(augmented[..]);
    }
    var rows := augmented[..];
    result := Ok(LastEntries(rows));
  }

  lemma OneMoreCorner(destination: seq<Corner>, source: seq<Corner>, i: nat)
    requires |destination| == |source| && i < |source|
    ensures HomographyRows(destination[..i + 1], source[..i + 1])
            == HomographyRows(destination[..i], source[..i])
               + [HorizontalRow(destination[i], source[i])] + [VerticalRow(destination[i], source[i])]
    ensures HomographyValues(source[..i + 1])
            == HomographyValues(source[..i]) + [source[i].x] + [source[i].y]
  {
    assert destination[..i + 1][..i] == destination[..i] && source[..i + 1][..i] == source[..i];
  }

  method PerspectiveCoefficients(destination: seq<Corner>, source: seq<Corner>)
    returns (result: Result<seq<real>, SolveError>)
    ensures |source| != |destination| ==> result == Err(LengthMismatch)
    ensures |source| == |destination| ==>
              result == Outcome(HomographyRows(destination, source), HomographyValues(source))
  {
    if |source| != |destination| {
      return Err(LengthMismatch);
    }
    var matrix: seq<Row>, values: seq<real> := [], [];
    for i := 0 to |destination|
      invariant matrix == HomographyRows(destination[..i], source[..i])
      invariant values == HomographyValues(source[..i])
    {
      var d, s := destination[i], source[i];
      matrix := matrix + [HorizontalRow(d, s)];
      values := values + [s.x];
      matrix := matrix + [VerticalRow(d, s)];
      values := values + [s.y];
      OneMoreCorner(destination, source, i);
    }
    assert destination[..|destination|] == destination && source[..|source|] == source;
    result := SolveLinear(matrix, values);
  }

  // ---- square systems ------------------------------------------------------------------------------

  /** Skipping a row whose entry is zero changes nothing. */
  lemma MinusNothing(row: Row, pivot: Row)
    requires |row| == |pivot|
    ensures Minus(row, 0.0, pivot) == row
  {
    forall k | 0 <= k < |row|
      ensures row[k] - 0.0 * pivot[k] == row[k]
    {}
  }

  /** The first `row` rows are cleared already. */
  predicate ClearedBelow(rows: seq<Row>, mixed: seq<Row>, column: nat, row: nat)
    requires Augmented(rows) && column < |rows|
  {
    && |mixed| == |rows| && mixed[column] == rows[column]
    && (forall i :: 0 <= i < row && i < |rows| ==> mixed[i] == Cleared(rows, column)[i])
    && (forall i :: row <= i < |rows| ==> mixed[i] == rows[i])
  }

  predicate ClearsTo(rows: seq<Row>, mixed: seq<Row>, column: nat, row: nat)
    requires Augmented(rows) && column < |rows| && |mixed| == |rows| && row <= |rows|
  {
    ClearedFrom(mixed, column, row) == Ok(Cleared(rows, column))
  }

  lemma NextRow(rows: seq<Row>, mixed: seq<Row>, column: nat, row: nat) returns (next: seq<Row>)
    requires Augmented(rows) && column < |rows| && row < |rows| && ClearedBelow(rows, mixed, column, row)
    ensures ClearedBelow(rows, next, column, row + 1)
    ensures ClearsTo(rows, next, column, row + 1) ==> ClearsTo(rows, mixed, column, row)
  {
    if row == column {
      next := mixed;
    } else if rows[row][column] == 0.0 {
      MinusNothing(rows[row], rows[column]);
      next := mixed;
    } else {
      next := mixed[row := Minus(rows[row], rows[row][column], rows[column])];
    }
  }

  lemma {:induction false} SquareIsCleared(rows: seq<Row>, mixed: seq<Row>, column: nat, row: nat)
    requires Augmented(rows) && column < |rows| && row <= |rows| && ClearedBelow(rows, mixed, column, row)
    ensures ClearsTo(rows, mixed, column, row)
    decreases |rows| - row
  {
    if row == |rows| {
      assert mixed == Cleared(rows, column);
    } else {
      var next := NextRow(rows, mixed, column, row);
      SquareIsCleared(rows, next, column, row + 1);
    }
  }

  lemma SquareIsStepped(rows: seq<Row>, column: nat)
    requires Augmented(rows) && column < |rows|
    ensures Reduced(rows, column) == if Largest(rows, column) < TOLERANCE then Err(NearlySingular(Largest(rows, column)))
                                     else Ok(Stepped(rows, column))
  {
    if Largest(rows, column) >= TOLERANCE {
      var swapped := Swapped(rows, column, PivotRow(rows, column, column));
      var scaled := swapped[column := Divided(swapped[column], swapped[column][column])];
      SquareIsCleared(scaled, scaled, column, 0);
    }
  }

  lemma {:induction false} SquareIsEliminated(rows: seq<Row>, column: nat)
    requires Augmented(rows) && column <= |rows|
    ensures Run(rows, column) == Eliminated(rows, column)
    decreases |rows| - column
  {
    if column < |rows| {
      SquareIsStepped(rows, column);
      if Largest(rows, column) >= TOLERANCE {
        SquareIsEliminated(Stepped(rows, column), column + 1);
      }
    }
  }

  /** On a square system the loops compute the elimination of `LinearSolver`. */
  lemma SquareIsSolved(matrix: seq<Row>, values: seq<real>)
    requires |matrix| == |values| && Square(matrix)
    ensures Outcome(matrix, values) == Solution(matrix, values)
  {
    assert Appended(matrix, values) == Augment(matrix, values);
    SquareIsEliminated(Augment(matrix, values), 0);
    if Solution(matrix, values).Ok? {
      var rows := Eliminated(Augment(matrix, values), 0).value;
      assert LastEntries(rows) == LastColumn(rows);
    }
  }

  // ---- other numbers of corners --------------------------------------------------------------------

  lemma {:induction false} TooManyRowsFail(rows: seq<Row>, column: nat, length: nat)
    requires AllOfLength(rows, length) && column <= length < |rows|
    ensures Run(rows, column).Err?
    decreases length - column
  {
    if column < length && Reduced(rows, column).Ok? {
      TooManyRowsFail(Reduced(rows, column).value, column + 1, length);
    } else if column == length {
      assert |rows[column]| == length;
    }
  }

  /** Five corners or more never have coefficients, not even five corners of one homography. */
  lemma FiveCornersAreRefused(destination: seq<Corner>, source: seq<Corner>)
    requires |destination| == |source| > CORNERS
    ensures Outcome(HomographyRows(destination, source), HomographyValues(source)).Err?
  {
    TooManyRowsFail(Appended(HomographyRows(destination, source), HomographyValues(source)), 0, 9);
  }
}
