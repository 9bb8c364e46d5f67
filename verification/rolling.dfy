/**
 * The two rolling-mean primitives the analysis borrows from xarray:
 * `rolling(time=w, center=...).mean()` along one axis and
 * `rolling(x=wx, y=wy, center=True).mean()` over a spatial grid, both
 * with the default `min_periods` (the full window): an incomplete window,
 * or one holding a NaN, yields NaN.
 *
 * The window labelled `i` covers positions `i - off .. i - off + w - 1`.
 * A trailing window (`center=False`) has `off = w - 1`; a centred one has
 * `off` given by a `Centring`, since which side receives the extra cell of
 * an even window is decided inside the library.
 */
module Rolling {
  import opened Values
  import opened Cubes

  /**
   * Where an even window puts its extra cell: `LowerHeavy` puts `w/2`
   * cells before the label and `w/2 - 1` after it, `UpperHeavy` the
   * reverse. Odd windows are exactly centred either way.
   */
  datatype Centring = LowerHeavy | UpperHeavy

  function CentreOffset(c: Centring, w: nat): (off: nat)
    requires w >= 1
    ensures off < w
    ensures w % 2 == 1 ==> 2 * off == w - 1
    ensures c == LowerHeavy ==> 0 <= off - (w - 1 - off) <= 1
    ensures c == UpperHeavy ==> 0 <= (w - 1 - off) - off <= 1
  {
    match c
    case LowerHeavy => w / 2
    case UpperHeavy => (w - 1) / 2
  }

  /** The window labelled `i` lies entirely inside `[0, n)`. */
  predicate Fits(n: int, i: int, w: int, off: int)
  {
    0 <= i - off && i - off + w <= n
  }

  /** The window labelled `i` contains position `k`. */
  predicate Covers(i: int, w: int, off: int, k: int)
  {
    i - off <= k < i - off + w
  }

  /** Rolling mean along one axis. */
  function RollMean(s: seq<Value>, w: nat, off: nat): (r: seq<Value>)
    requires off < w
    ensures |r| == |s|
    ensures forall i :: 0 <= i < |s| ==>
      (r[i].Some? <==> Fits(|s|, i, w, off) && forall k :: Covers(i, w, off, k) ==> s[k].Some?)
  {
    seq(|s|, i requires 0 <= i < |s| =>
      if Fits(|s|, i, w, off) then Mean(s[i - off .. i - off + w]) else None)
  }

  /** A complete, defined window averages to a value between its extremes. */
  lemma RollMeanWithin(s: seq<Value>, w: nat, off: nat, i: nat, lo: real, hi: real)
    requires off < w && i < |s| && Fits(|s|, i, w, off)
    requires forall k :: Covers(i, w, off, k) ==> s[k].Some? && lo <= s[k].value <= hi
    ensures RollMean(s, w, off)[i].Some?
    ensures lo <= RollMean(s, w, off)[i].value <= hi
  {
    var win := s[i - off .. i - off + w];
    forall k | 0 <= k < |win|
      ensures win[k].Some? && lo <= win[k].value <= hi
    {
      assert Covers(i, w, off, i - off + k);
    }
    MeanWithin(win, lo, hi);
  }

  /** A constant stretch of series averages to that constant. */
  lemma RollMeanConstant(s: seq<Value>, w: nat, off: nat, i: nat, v: real)
    requires off < w && i < |s| && Fits(|s|, i, w, off)
    requires forall k :: Covers(i, w, off, k) ==> s[k] == Some(v)
    ensures RollMean(s, w, off)[i] == Some(v)
  {
    RollMeanWithin(s, w, off, i, v, v);
  }

  /**
   * The rows `r0 .. r0 + h - 1` and columns `c0 .. c0 + wd - 1` of a grid,
   * read row by row.
   */
  function Block(g: seq<seq<Value>>, r0: nat, h: nat, c0: nat, wd: nat): (b: seq<Value>)
    requires r0 + h <= |g|
    requires forall r :: r0 <= r < r0 + h ==> c0 + wd <= |g[r]|
    ensures |b| == h * wd
    decreases h
  {
    if h == 0 then [] else Block(g, r0, h - 1, c0, wd) + g[r0 + h - 1][c0 .. c0 + wd]
  }

  lemma {:induction false} BlockDefined(g: seq<seq<Value>>, r0: nat, h: nat, c0: nat, wd: nat)
    requires r0 + h <= |g|
    requires forall r :: r0 <= r < r0 + h ==> c0 + wd <= |g[r]|
    ensures AllDefined(Block(g, r0, h, c0, wd)) <==>
      forall r, c :: r0 <= r < r0 + h && c0 <= c < c0 + wd ==> g[r][c].Some?
    decreases h
  {
    if h > 0 {
      BlockDefined(g, r0, h - 1, c0, wd);
      var front := Block(g, r0, h - 1, c0, wd);
      var row := g[r0 + h - 1][c0 .. c0 + wd];
      assert Block(g, r0, h, c0, wd) == front + row;
      if forall r, c :: r0 <= r < r0 + h && c0 <= c < c0 + wd ==> g[r][c].Some? {
        forall k | 0 <= k < |row| ensures row[k].Some? {
          assert row[k] == g[r0 + h - 1][c0 + k];
        }
      }
      if AllDefined(front + row) {
        assert AllDefined(front) by {
          forall k | 0 <= k < |front| ensures front[k].Some? {
            assert (front + row)[k] == front[k];
          }
        }
        var last := g[r0 + h - 1];
        forall c | c0 <= c < c0 + wd ensures last[c].Some? {
          assert (front + row)[|front| + (c - c0)] == last[c];
        }
      }
    }
  }

  /** Every cell of the window labelled (`i`, `j`) is a number. */
  predicate Defined2(g: seq<seq<Value>>, i: int, wy: int, oy: int, j: int, wx: int, ox: int)
  {
    forall y, x :: Covers(i, wy, oy, y) && Covers(j, wx, ox, x) && 0 <= y < |g| && 0 <= x < |g[y]| ==> g[y][x].Some?
  }

  lemma WindowBlockDefined(g: seq<seq<Value>>, nx: nat, i: nat, j: nat, wy: nat, oy: nat, wx: nat, ox: nat)
    requires IsGrid(g, |g|, nx) && oy < wy && ox < wx
    requires Fits(|g|, i, wy, oy) && Fits(nx, j, wx, ox)
    ensures |Block(g, i - oy, wy, j - ox, wx)| > 0
    ensures AllDefined(Block(g, i - oy, wy, j - ox, wx)) <==> Defined2(g, i, wy, oy, j, wx, ox)
  {
    ProductPositive(wy, wx);
    var r0, c0 := i - oy, j - ox;
    BlockDefined(g, r0, wy, c0, wx);
    if Defined2(g, i, wy, oy, j, wx, ox) {
      forall r, c | r0 <= r < r0 + wy && c0 <= c < c0 + wx ensures g[r][c].Some? {
        assert Covers(i, wy, oy, r) && Covers(j, wx, ox, c);
      }
    }
    if forall r, c :: r0 <= r < r0 + wy && c0 <= c < c0 + wx ==> g[r][c].Some? {
      forall y, x | Covers(i, wy, oy, y) && Covers(j, wx, ox, x) && 0 <= y < |g| && 0 <= x < |g[y]|
        ensures g[y][x].Some?
      {
      }
    }
  }

  lemma ProductPositive(a: nat, b: nat)
    requires a >= 1 && b >= 1
    ensures a * b >= 1
  {
    assert a * b >= 1 * b;
  }

  /** The centred spatial mean at one cell of a grid. */
  function SpatialCell(g: seq<seq<Value>>, nx: nat, i: nat, j: nat, wy: nat, oy: nat, wx: nat, ox: nat): (v: Value)
    requires IsGrid(g, |g|, nx) && oy < wy && ox < wx
    ensures v.Some? <==> Fits(|g|, i, wy, oy) && Fits(nx, j, wx, ox) && Defined2(g, i, wy, oy, j, wx, ox)
  {
    if Fits(|g|, i, wy, oy) && Fits(nx, j, wx, ox) then
      WindowBlockDefined(g, nx, i, j, wy, oy, wx, ox);
      Mean(Block(g, i - oy, wy, j - ox, wx))
    else
      None
  }

  /** Centred rolling mean over a grid with a `wy` by `wx` window. */
  function RollMean2(g: seq<seq<Value>>, nx: nat, wy: nat, oy: nat, wx: nat, ox: nat): (r: seq<seq<Value>>)
    requires IsGrid(g, |g|, nx) && oy < wy && ox < wx
    ensures IsGrid(r, |g|, nx)
    ensures forall i, j :: 0 <= i < |g| && 0 <= j < nx ==> r[i][j] == SpatialCell(g, nx, i, j, wy, oy, wx, ox)
  {
    seq(|g|, i requires 0 <= i < |g| =>
      seq(nx, j requires 0 <= j < nx => SpatialCell(g, nx, i, j, wy, oy, wx, ox)))
  }

  /** The spatial rolling mean applied to every time step of a cube. */
  function RollSpace(c: Cube<Value>, ny: nat, nx: nat, wy: nat, oy: nat, wx: nat, ox: nat): (r: Cube<Value>)
    requires IsCube(c, |c|, ny, nx) && oy < wy && ox < wx
    ensures IsCube(r, |c|, ny, nx)
    ensures forall t, i, j :: 0 <= t < |c| && 0 <= i < ny && 0 <= j < nx ==>
      r[t][i][j] == SpatialCell(c[t], nx, i, j, wy, oy, wx, ox)
  {
    seq(|c|, t requires 0 <= t < |c| => RollMean2(c[t], nx, wy, oy, wx, ox))
  }

  /** The rolling mean along time applied to every pixel of a cube. */
  function RollTime(c: Cube<Value>, ny: nat, nx: nat, w: nat, off: nat): (r: Cube<Value>)
    requires IsCube(c, |c|, ny, nx) && off < w
    ensures IsCube(r, |c|, ny, nx)
    ensures forall t, i, j :: 0 <= t < |c| && 0 <= i < ny && 0 <= j < nx ==>
      r[t][i][j] == RollMean(Column(c, ny, nx, i, j), w, off)[t]
  {
    seq(|c|, t requires 0 <= t < |c| =>
      seq(ny, i requires 0 <= i < ny =>
        seq(nx, j requires 0 <= j < nx => RollMean(Column(c, ny, nx, i, j), w, off)[t])))
  }
}
