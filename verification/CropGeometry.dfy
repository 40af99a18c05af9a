/** Tile rectangles in normalised UV space, and why they partition the frame. */
module CropGeometry {

  datatype SplitDirection = NoSplit | Col | Row | Grid

  datatype Rect = Rect(x: real, y: real, w: real, h: real)

  const FULL_FRAME: Rect := Rect(0.0, 0.0, 1.0, 1.0)

  /** The tile counts a split accepts in each direction. */
  predicate ValidSplit(tileCount: int, direction: SplitDirection) {
    match direction
    case Col => 2 <= tileCount <= 4
    case Row => tileCount == 2 || tileCount == 3
    case Grid => tileCount == 4
    case NoSplit => false
  }

  function ComputeCropRect(tileIndex: nat, tileCount: int, direction: SplitDirection): Rect {
    match direction
    case Col =>
      if tileCount < 2 || tileCount > 4 then FULL_FRAME else
      var w := 1.0 / tileCount as real;
      var x := tileIndex as real * w;
      var end := if tileIndex == tileCount - 1 then 1.0 else x + w;
      Rect(x, 0.0, end - x, 1.0)
    case Row =>
      if tileCount < 2 || tileCount > 3 then FULL_FRAME else
      var h := 1.0 / tileCount as real;
      var y := tileIndex as real * h;
      var end := if tileIndex == tileCount - 1 then 1.0 else y + h;
      Rect(0.0, y, 1.0, end - y)
    case Grid =>
      if tileCount != 4 then FULL_FRAME else
      Rect((tileIndex % 2) as real * 0.5, (tileIndex / 2) as real * 0.5, 0.5, 0.5)
    case NoSplit => FULL_FRAME
  }

  /** Half-open containment, so that touching tiles do not overlap. */
  predicate Covers(r: Rect, x: real, y: real) {
    r.x <= x < r.x + r.w && r.y <= y < r.y + r.h
  }

  predicate InFrame(x: real, y: real) {
    0.0 <= x < 1.0 && 0.0 <= y < 1.0
  }

  /** Which of `n` equal bands of [0, 1) holds `t`. */
  function Band(t: real, n: nat): (k: nat)
    requires 0.0 <= t < 1.0 && 1 <= n
    ensures k < n
  {
    BelowScale(t, n as real);
    (t * n as real).Floor
  }

  lemma BelowScale(t: real, m: real)
    requires 0.0 <= t < 1.0 && m > 0.0
    ensures 0.0 <= t * m < m
  {
    assert (1.0 - t) * m > 0.0;
    assert t * m == m - (1.0 - t) * m;
  }

  /** The tile a point belongs to, from its coordinates alone. */
  function TileAt(x: real, y: real, tileCount: nat, direction: SplitDirection): (k: nat)
    requires InFrame(x, y) && ValidSplit(tileCount, direction)
    ensures k < tileCount
  {
    match direction
    case Col => Band(x, tileCount)
    case Row => Band(y, tileCount)
    case Grid => 2 * Band(y, 2) + Band(x, 2)
  }

  /** Tile `k` covers a point of the frame exactly when the point belongs to tile `k`:
      the tiles of a valid split are pairwise disjoint and leave no gap. */
  lemma TilesPartitionFrame(tileCount: nat, direction: SplitDirection, k: nat, x: real, y: real)
    requires ValidSplit(tileCount, direction) && k < tileCount && InFrame(x, y)
    ensures Covers(ComputeCropRect(k, tileCount, direction), x, y) <==> k == TileAt(x, y, tileCount, direction)
  {
    match direction
    case Col => BandIsSlice(x, tileCount, k);
    case Row => BandIsSlice(y, tileCount, k);
    case Grid =>
      BandIsSlice(x, 2, k % 2);
      BandIsSlice(y, 2, k / 2);
  }

  lemma BandIsSlice(t: real, n: nat, k: nat)
    requires 0.0 <= t < 1.0 && 2 <= n <= 4 && k < n
    ensures var w := 1.0 / n as real;
            k as real * w <= t < (if k == n - 1 then 1.0 else k as real * w + w) <==> k == Band(t, n)
  {
    var p := t * n as real;
    assert p.Floor as real <= p < p.Floor as real + 1.0;
    if n == 2 {
    } else if n == 3 {
    } else {
    }
  }
}
