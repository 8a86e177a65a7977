/**
 * The two scenes the fixtures draw. Each row below is a row of a left inverse of its system, as far as it is
 * needed; all are far below the bound, so every pivot reaches the tolerance and the coefficients come back.
 */
module FixtureScenes {
  import opened Prelude
  import opened LinearSolver
  import opened HomographySystem
  import opened HomographyMaps
  import opened Conditioning

  const PAGE_RIGHT := 1399.0
  const PAGE_BOTTOM := 1899.0

  const MILD_ROWS: seq<Row> := [
    [205.0, 145.0, 1.0, 0.0, 0.0, 0.0, 0.0, 0.0],
    [0.0, 0.0, 0.0, 205.0, 145.0, 1.0, 0.0, 0.0],
    [1580.0, 230.0, 1.0, 0.0, 0.0, 0.0, -2210420.0, -321770.0],
    [0.0, 0.0, 0.0, 1580.0, 230.0, 1.0, 0.0, 0.0],
    [1650.0, 2050.0, 1.0, 0.0, 0.0, 0.0, -2308350.0, -2867950.0],
    [0.0, 0.0, 0.0, 1650.0, 2050.0, 1.0, -3133350.0, -3892950.0],
    [145.0, 1980.0, 1.0, 0.0, 0.0, 0.0, 0.0, 0.0],
    [0.0, 0.0, 0.0, 145.0, 1980.0, 1.0, -275355.0, -3760020.0]]

  const MILD_INVERSE: seq<Row> := [
    [1.0 / 205.0, 0.0, 0.0, 0.0, 0.0, 0.0, 0.0, 0.0],
    [-(33.0 / 3620.0), 0.0, 0.0, 0.0, 41.0 / 36200.0, 0.0, 0.0, 0.0],
    [0.0, 0.0, 8485.0 / 7812.0, 0.0, -(8843.0 / 7812.0), 0.0, 4085.0 / 3906.0, 0.0],
    [0.0, 1.0 / 205.0, 0.0, 0.0, 0.0, 0.0, 0.0, 0.0],
    [0.0, -(33.0 / 3620.0), 0.0, 0.0, 0.0, 41.0 / 36200.0, 0.0, 0.0],
    [0.0, 0.0, 0.0, 8485.0 / 7812.0, 0.0, -(8843.0 / 7812.0), 0.0, 4085.0 / 3906.0],
    [1116.0 / 113353975.0, 0.0, -(3161.0 / 317391130.0), 0.0, 14447.0 / 1586955650.0, 0.0, -(1019.0 / 113353975.0),
     0.0],
    [-(2429418168.0 / 5667328098345425.0), -(2813188.0 / 170951569514065.0), 3440587289.0 / 7934259337683595.0,
     10244801.0 / 615425650250634.0, -(15724822703.0 / 39671296688417975.0), -(46822727.0 / 3077128251253170.0),
     2218259062.0 / 5667328098345425.0, 23118053.0 / 1538564125626585.0]]

  lemma MildSystem()
    ensures HomographyRows(MILD, Page(PAGE_RIGHT, PAGE_BOTTOM)) == MILD_ROWS
  {
    var rows := HomographyRows(MILD, Page(PAGE_RIGHT, PAGE_BOTTOM));
    forall i | 0 <= i < 8
      ensures rows[i] == MILD_ROWS[i]
    {
      assert rows[2 * (i / 2)] == HorizontalRow(MILD[i / 2], Page(PAGE_RIGHT, PAGE_BOTTOM)[i / 2]);
      assert rows[2 * (i / 2) + 1] == VerticalRow(MILD[i / 2], Page(PAGE_RIGHT, PAGE_BOTTOM)[i / 2]);
    }
  }

  lemma MildInverse(k: nat)
    requires k < 8
    ensures InverseRow(MILD_INVERSE[k], MILD_ROWS, k)
  {
    forall j | 0 <= j <= k
      ensures Dot(MILD_INVERSE[k], Column(MILD_ROWS, j)) == if j == k then 1.0 else 0.0
    {
      DotOfEight(MILD_INVERSE[k], Column(MILD_ROWS, j));
    }
  }

  lemma MildBounded(k: nat)
    requires k < 8
    ensures Bounded(MILD_INVERSE[k])
  {
    NormOfEight(MILD_INVERSE[k], 2.0);
  }

  const SEVERE_ROWS: seq<Row> := [
    [430.0, 110.0, 1.0, 0.0, 0.0, 0.0, 0.0, 0.0],
    [0.0, 0.0, 0.0, 430.0, 110.0, 1.0, 0.0, 0.0],
    [1480.0, 390.0, 1.0, 0.0, 0.0, 0.0, -2070520.0, -545610.0],
    [0.0, 0.0, 0.0, 1480.0, 390.0, 1.0, 0.0, 0.0],
    [1720.0, 2030.0, 1.0, 0.0, 0.0, 0.0, -2406280.0, -2839970.0],
    [0.0, 0.0, 0.0, 1720.0, 2030.0, 1.0, -3266280.0, -3854970.0],
    [80.0, 1800.0, 1.0, 0.0, 0.0, 0.0, 0.0, 0.0],
    [0.0, 0.0, 0.0, 80.0, 1800.0, 1.0, -151920.0, -3418200.0]]

  const SEVERE_INVERSE: seq<Row> := [
    [0.0, 0.0, 0.0, 0.0, 0.0, 0.0, 1.0 / 80.0, 0.0],
    [-(2.0 / 795.0), 0.0, 0.0, 0.0, 1.0 / 1590.0, 0.0, 0.0, 0.0],
    [5834.0 / 4137.0, 0.0, -(2279.0 / 5516.0), 0.0, 7.0 / 2364.0, 0.0, 0.0, 0.0],
    [0.0, 0.0, 0.0, 0.0, 0.0, 0.0, 0.0, 1.0 / 80.0],
    [0.0, -(2.0 / 795.0), 0.0, 0.0, 0.0, 1.0 / 1590.0, 0.0, 0.0],
    [0.0, 5834.0 / 4137.0, 0.0, -(2279.0 / 5516.0), 0.0, 7.0 / 2364.0, 0.0, 0.0],
    [0.0, -(89.0 / 198132165.0), 0.0, 3169.0 / 6516346760.0, 0.0, -(535.0 / 1675632024.0), 0.0, 197.0 / 698180010.0],
    [-(726416042.0 / 1140048547632645.0), -(1647171772.0 / 10832498458671015.0), 1048593579.0 / 1520064730176860.0,
     396286619.0 / 2407221879704670.0, -(59008895.0 / 130291262586588.0), -(66902285.0 / 618999911924058.0),
     21728509.0 / 54288026077745.0, 49270094.0 / 515833259936715.0]]

  lemma SevereSystem()
    ensures HomographyRows(SEVERE, Page(PAGE_RIGHT, PAGE_BOTTOM)) == SEVERE_ROWS
  {
    var rows := HomographyRows(SEVERE, Page(PAGE_RIGHT, PAGE_BOTTOM));
    forall i | 0 <= i < 8
      ensures rows[i] == SEVERE_ROWS[i]
    {
      assert rows[2 * (i / 2)] == HorizontalRow(SEVERE[i / 2], Page(PAGE_RIGHT, PAGE_BOTTOM)[i / 2]);
      assert rows[2 * (i / 2) + 1] == VerticalRow(SEVERE[i / 2], Page(PAGE_RIGHT, PAGE_BOTTOM)[i / 2]);
    }
  }

  lemma SevereInverse(k: nat)
    requires k < 8
    ensures InverseRow(SEVERE_INVERSE[k], SEVERE_ROWS, k)
  {
    forall j | 0 <= j <= k
      ensures Dot(SEVERE_INVERSE[k], Column(SEVERE_ROWS, j)) == if j == k then 1.0 else 0.0
    {
      DotOfEight(SEVERE_INVERSE[k], Column(SEVERE_ROWS, j));
    }
  }

  lemma SevereBounded(k: nat)
    requires k < 8
    ensures Bounded(SEVERE_INVERSE[k])
  {
    NormOfEight(SEVERE_INVERSE[k], 2.0);
  }

  lemma NormOfEight(y: seq<real>, t: real)
    requires |y| == 8 && forall i :: 0 <= i < 8 ==> Abs(y[i]) <= t
    ensures Norm(y) <= 8.0 * t
  {
    NormIsBounded(y, t);
  }

  /** Both scenes have coefficients. */
  lemma FixtureScenesAreAccepted(values: seq<real>)
    requires |values| == 8
    ensures Solution(HomographyRows(MILD, Page(PAGE_RIGHT, PAGE_BOTTOM)), values).Ok?
    ensures Solution(HomographyRows(SEVERE, Page(PAGE_RIGHT, PAGE_BOTTOM)), values).Ok?
  {
    MildSystem();
    SevereSystem();
    forall k | 0 <= k < 8
      ensures InverseRow(MILD_INVERSE[k], MILD_ROWS, k) && Bounded(MILD_INVERSE[k])
      ensures InverseRow(SEVERE_INVERSE[k], SEVERE_ROWS, k) && Bounded(SEVERE_INVERSE[k])
    {
      MildInverse(k);
      MildBounded(k);
      SevereInverse(k);
      SevereBounded(k);
    }
    BoundedInverseIsAccepted(MILD_ROWS, values, MILD_INVERSE);
    BoundedInverseIsAccepted(SEVERE_ROWS, values, SEVERE_INVERSE);
  }
}
