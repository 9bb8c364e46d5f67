/**
 * Data cubes indexed (time, y, x), as held by every variable of the
 * analysed dataset: `c[t][i][j]` is the cell at time step `t`, row `i`
 * (northing) and column `j` (easting).
 */
module Cubes {
  import opened Values

  type Cube<T> = seq<seq<seq<T>>>

  /** `c` is rectangular with `nt` time steps, `ny` rows and `nx` columns. */
  predicate IsCube<T>(c: Cube<T>, nt: nat, ny: nat, nx: nat)
  {
    && |c| == nt
    && (forall t :: 0 <= t < nt ==> |c[t]| == ny)
    && (forall t, i :: 0 <= t < nt && 0 <= i < ny ==> |c[t][i]| == nx)
  }

  /** `g` is a rectangular `ny` by `nx` grid. */
  predicate IsGrid<T>(g: seq<seq<T>>, ny: nat, nx: nat)
  {
    |g| == ny && forall i :: 0 <= i < ny ==> |g[i]| == nx
  }

  /** The time series of the pixel at row `i`, column `j`. */
  function Column<T>(c: Cube<T>, ny: nat, nx: nat, i: nat, j: nat): (s: seq<T>)
    requires IsCube(c, |c|, ny, nx) && i < ny && j < nx
    ensures |s| == |c|
    ensures forall t :: 0 <= t < |c| ==> s[t] == c[t][i][j]
  {
    seq(|c|, t requires 0 <= t < |c| => c[t][i][j])
  }

  /** A grid of NaN, the slice `where(..., drop=False)` leaves for a masked step. */
  function NanGrid(ny: nat, nx: nat): (g: seq<seq<Value>>)
    ensures IsGrid(g, ny, nx)
    ensures forall i, j :: 0 <= i < ny && 0 <= j < nx ==> g[i][j].None?
  {
    seq(ny, i => seq(nx, j => None))
  }

  /** Cell-wise application of `f`, keeping the shape. */
  function MapCube<A, B>(c: Cube<A>, ny: nat, nx: nat, f: A -> B): (r: Cube<B>)
    requires IsCube(c, |c|, ny, nx)
    ensures IsCube(r, |c|, ny, nx)
    ensures forall t, i, j :: 0 <= t < |c| && 0 <= i < ny && 0 <= j < nx ==> r[t][i][j] == f(c[t][i][j])
  {
    seq(|c|, t requires 0 <= t < |c| =>
      seq(ny, i requires 0 <= i < ny =>
        seq(nx, j requires 0 <= j < nx => f(c[t][i][j]))))
  }

  /** Cell-wise combination of two cubes of one shape, keeping the shape. */
  function ZipCube<A, B, C>(a: Cube<A>, b: Cube<B>, ny: nat, nx: nat, f: (A, B) -> C): (r: Cube<C>)
    requires IsCube(a, |a|, ny, nx) && IsCube(b, |a|, ny, nx)
    ensures IsCube(r, |a|, ny, nx)
    ensures forall t, i, j :: 0 <= t < |a| && 0 <= i < ny && 0 <= j < nx ==> r[t][i][j] == f(a[t][i][j], b[t][i][j])
  {
    seq(|a|, t requires 0 <= t < |a| =>
      seq(ny, i requires 0 <= i < ny =>
        seq(nx, j requires 0 <= j < nx => f(a[t][i][j], b[t][i][j]))))
  }

  /** Number of NaN cells, what `isnull().sum()` reports. */
  function CountMissing(c: Cube<Value>): nat
  {
    if |c| == 0 then 0 else CountMissingGrid(c[0]) + CountMissing(c[1..])
  }

  function CountMissingGrid(g: seq<seq<Value>>): nat
  {
    if |g| == 0 then 0 else CountMissingRow(g[0]) + CountMissingGrid(g[1..])
  }

  function CountMissingRow(s: seq<Value>): nat
  {
    if |s| == 0 then 0 else (if s[0].None? then 1 else 0) + CountMissingRow(s[1..])
  }

  predicate HasMissing(c: Cube<Value>)
  {
    exists t, i, j :: 0 <= t < |c| && 0 <= i < |c[t]| && 0 <= j < |c[t][i]| && c[t][i][j].None?
  }

  lemma {:induction false} CountMissingRowPositive(s: seq<Value>)
    ensures CountMissingRow(s) > 0 <==> exists j :: 0 <= j < |s| && s[j].None?
    decreases |s|
  {
    if |s| > 0 {
      CountMissingRowPositive(s[1..]);
      if exists j :: 0 <= j < |s| && s[j].None? {
        var j :| 0 <= j < |s| && s[j].None?;
        if j > 0 {
          assert s[1..][j - 1].None?;
        }
      }
      if exists j :: 0 <= j < |s| - 1 && s[1..][j].None? {
        var j :| 0 <= j < |s| - 1 && s[1..][j].None?;
        assert s[j + 1].None?;
      }
    }
  }

  lemma {:induction false} CountMissingGridPositive(g: seq<seq<Value>>)
    ensures CountMissingGrid(g) > 0 <==> exists i, j :: 0 <= i < |g| && 0 <= j < |g[i]| && g[i][j].None?
    decreases |g|
  {
    if |g| > 0 {
      CountMissingRowPositive(g[0]);
      CountMissingGridPositive(g[1..]);
      if exists i, j :: 0 <= i < |g| && 0 <= j < |g[i]| && g[i][j].None? {
        var i, j :| 0 <= i < |g| && 0 <= j < |g[i]| && g[i][j].None?;
        if i > 0 {
          assert g[1..][i - 1][j].None?;
        }
      }
      if exists i, j :: 0 <= i < |g| - 1 && 0 <= j < |g[1..][i]| && g[1..][i][j].None? {
        var i, j :| 0 <= i < |g| - 1 && 0 <= j < |g[1..][i]| && g[1..][i][j].None?;
        assert g[i + 1][j].None?;
      }
    }
  }

  /** `isnull().sum() > 0` exactly when some cell is NaN. */
  lemma {:induction false} CountMissingPositive(c: Cube<Value>)
    ensures CountMissing(c) > 0 <==> HasMissing(c)
    decreases |c|
  {
    if |c| > 0 {
      CountMissingGridPositive(c[0]);
      CountMissingPositive(c[1..]);
      if HasMissing(c) {
        var t, i, j :| 0 <= t < |c| && 0 <= i < |c[t]| && 0 <= j < |c[t][i]| && c[t][i][j].None?;
        if t > 0 {
          assert c[1..][t - 1][i][j].None?;
        }
      }
      if HasMissing(c[1..]) {
        var t, i, j :| 0 <= t < |c| - 1 && 0 <= i < |c[1..][t]| && 0 <= j < |c[1..][t][i]| && c[1..][t][i][j].None?;
        assert c[t + 1][i][j].None?;
      }
    }
  }
}
