/** What every operation of the slot grid keeps. */
module CameraGridInvariant {
  import opened CropGeometry
  import opened CameraGrid

  /** One row on its own: full frame, or a tile whose rectangle is the one its index calls for. */
  ghost predicate RowOk(e: Entry, nextSlotId: int, nextSplitGroupId: int) {
    && e.cameraId != ""
    && 0 <= e.slotId < nextSlotId
    && e.width == 320 && e.height == 240
    && 0 <= e.splitIndex < e.splitCount
    && if e.splitCount == 1 then
         e.splitGroupId == -1 && e.cropRect == FULL_FRAME && (e.splitDirection == NoSplit || e.splitDirection == Col)
       else
         && ValidSplit(e.splitCount, e.splitDirection)
         && 1 <= e.splitGroupId < nextSplitGroupId
         && e.cropRect == ComputeCropRect(e.splitIndex, e.splitCount, e.splitDirection)
  }

  /** Two different rows: distinct slots; the same camera only as two different tiles of one group. */
  ghost predicate PairOk(a: Entry, b: Entry) {
    && a.slotId != b.slotId
    && (a.cameraId == b.cameraId ==>
          && a.splitIndex != b.splitIndex
          && a.splitCount == b.splitCount
          && a.splitDirection == b.splitDirection
          && a.splitGroupId == b.splitGroupId)
    && (a.splitGroupId == b.splitGroupId && a.splitGroupId != -1 ==> a.cameraId == b.cameraId)
  }

  ghost predicate PairsOk(rows: seq<Entry>) {
    forall i, j :: 0 <= i < |rows| && 0 <= j < |rows| && i != j ==> PairOk(rows[i], rows[j])
  }

  ghost predicate HasTile(rows: seq<Entry>, cid: string, k: int) {
    exists e :: e in rows && e.cameraId == cid && e.splitIndex == k
  }

  /** No group lacks a tile. */
  ghost predicate Complete(rows: seq<Entry>) {
    forall e, k :: e in rows && 0 <= k < e.splitCount ==> HasTile(rows, e.cameraId, k)
  }

  ghost predicate Live(rows: seq<Entry>, slotId: int) {
    exists e :: e in rows && e.slotId == slotId
  }

  /** Only slots that still exist are marked as auto-split. */
  ghost predicate AutoLive(g: GridState) {
    forall s :: s in g.autoSplitApplied ==> Live(g.rows, s)
  }

  ghost predicate RowsOk(rows: seq<Entry>, nextSlotId: int, nextSplitGroupId: int) {
    forall e :: e in rows ==> RowOk(e, nextSlotId, nextSplitGroupId)
  }

  ghost predicate Inv(g: GridState) {
    && RowsOk(g.rows, g.nextSlotId, g.nextSplitGroupId)
    && PairsOk(g.rows)
    && Complete(g.rows)
    && AutoLive(g)
    && 0 <= g.nextSlotId && 1 <= g.nextSplitGroupId
  }

  // ------------------------------------------------- edits that keep the shape

  /** `f` differs from `e` only in title, flags, sensors and the like. */
  ghost predicate SameShape(e: Entry, f: Entry) {
    f == e.(title := f.title, isOnline := f.isOnline, cameraType := f.cameraType, deviceInfo := f.deviceInfo)
  }

  lemma ShapeKeepsInv(g: GridState, rows: seq<Entry>)
    requires Inv(g)
    requires |rows| == |g.rows| && forall i :: 0 <= i < |rows| ==> SameShape(g.rows[i], rows[i])
    ensures Inv(g.(rows := rows))
  {
    forall e | e in rows ensures RowOk(e, g.nextSlotId, g.nextSplitGroupId) {
      var i :| 0 <= i < |rows| && rows[i] == e;
      assert g.rows[i] in g.rows;
    }
    forall i, j | 0 <= i < |rows| && 0 <= j < |rows| && i != j ensures PairOk(rows[i], rows[j]) {
      assert PairOk(g.rows[i], g.rows[j]);
    }
    forall e, k | e in rows && 0 <= k < e.splitCount ensures HasTile(rows, e.cameraId, k) {
      var i :| 0 <= i < |rows| && rows[i] == e;
      assert HasTile(g.rows, g.rows[i].cameraId, k);
      var j :| 0 <= j < |rows| && g.rows[j].cameraId == e.cameraId && g.rows[j].splitIndex == k;
      assert rows[j] in rows;
    }
    forall s | s in g.autoSplitApplied ensures Live(rows, s) {
      var j :| 0 <= j < |g.rows| && g.rows[j].slotId == s;
      assert rows[j] in rows;
    }
  }

  // ------------------------------------------------------- pairs, in pieces

  ghost predicate Apart(a: seq<Entry>, b: seq<Entry>) {
    forall x, y :: x in a && y in b ==> PairOk(x, y)
  }

  lemma PairsOfConcat(a: seq<Entry>, b: seq<Entry>)
    ensures PairsOk(a + b) <==> PairsOk(a) && PairsOk(b) && Apart(a, b)
  {
    var s := a + b;
    if PairsOk(s) {
      forall i, j | 0 <= i < |a| && 0 <= j < |a| && i != j ensures PairOk(a[i], a[j]) {
        assert PairOk(s[i], s[j]);
      }
      forall i, j | 0 <= i < |b| && 0 <= j < |b| && i != j ensures PairOk(b[i], b[j]) {
        assert PairOk(s[|a| + i], s[|a| + j]);
      }
      forall x, y | x in a && y in b ensures PairOk(x, y) {
        var i :| 0 <= i < |a| && a[i] == x;
        var j :| 0 <= j < |b| && b[j] == y;
        assert PairOk(s[i], s[|a| + j]);
      }
    }
    if PairsOk(a) && PairsOk(b) && Apart(a, b) {
      forall i, j | 0 <= i < |s| && 0 <= j < |s| && i != j ensures PairOk(s[i], s[j]) {
        if i < |a| && j < |a| {
          assert PairOk(a[i], a[j]);
        } else if i >= |a| && j >= |a| {
          assert PairOk(b[i - |a|], b[j - |a|]);
        } else {
          assert PairOk(s[if i < j then i else j], s[if i < j then j else i]);
        }
      }
    }
  }

  /** Replacing one row by several others that fit. */
  lemma PairsOfReplace(pre: seq<Entry>, mid: seq<Entry>, post: seq<Entry>)
    requires PairsOk(pre + post) && PairsOk(mid) && Apart(pre + post, mid)
    ensures PairsOk(pre + mid + post)
  {
    PairsOfConcat(pre, post);
    PairsOfConcat(pre, mid);
    forall x, y | x in pre + mid && y in post ensures PairOk(x, y) {
      assert x in mid ==> y in pre + post && PairOk(y, x);
    }
    PairsOfConcat(pre + mid, post);
  }

  lemma PairsOfRemoval(rows: seq<Entry>, row: int)
    requires 0 <= row < |rows| && PairsOk(rows)
    ensures PairsOk(rows[..row] + rows[row + 1..])
    ensures forall e :: e in rows[..row] + rows[row + 1..] ==> PairOk(e, rows[row])
  {
    PairsOfConcat(rows[..row] + [rows[row]], rows[row + 1..]);
    assert rows == rows[..row] + [rows[row]] + rows[row + 1..];
    PairsOfConcat(rows[..row], [rows[row]]);
    PairsOfConcat(rows[..row], rows[row + 1..]);
  }

  // --------------------------------------------------------------------- swap

  /** Where the content of row `i` goes in a swap of `a` and `b`. */
  function Moved(i: int, a: int, b: int): int {
    if i == a then b else if i == b then a else i
  }

  lemma SwapMovesContent(rows: seq<Entry>, a: int, b: int)
    requires CanSwap(rows, a, b)
    ensures |SwapRows(rows, a, b)| == |rows|
    ensures forall i :: 0 <= i < |rows| ==> SwapRows(rows, a, b)[i] == TakeContent(rows[i], rows[Moved(i, a, b)])
  {
  }

  lemma SwapKeepsPairs(rows: seq<Entry>, a: int, b: int)
    requires CanSwap(rows, a, b) && PairsOk(rows)
    ensures PairsOk(SwapRows(rows, a, b))
  {
    var after := SwapRows(rows, a, b);
    SwapMovesContent(rows, a, b);
    forall i, j | 0 <= i < |rows| && 0 <= j < |rows| && i != j ensures PairOk(after[i], after[j]) {
      assert PairOk(rows[i], rows[j]);
      assert PairOk(rows[Moved(i, a, b)], rows[Moved(j, a, b)]);
    }
  }

  lemma SwapKeepsComplete(rows: seq<Entry>, a: int, b: int)
    requires CanSwap(rows, a, b) && Complete(rows)
    ensures Complete(SwapRows(rows, a, b))
  {
    var after := SwapRows(rows, a, b);
    SwapMovesContent(rows, a, b);
    forall e, k | e in after && 0 <= k < e.splitCount ensures HasTile(after, e.cameraId, k) {
      var i :| 0 <= i < |after| && after[i] == e;
      assert HasTile(rows, rows[Moved(i, a, b)].cameraId, k);
      var j :| 0 <= j < |after| && rows[j].cameraId == e.cameraId && rows[j].splitIndex == k;
      assert after[Moved(j, a, b)] in after;
    }
  }

  lemma SwapKeepsInv(g: GridState, a: int, b: int)
    requires Inv(g) && CanSwap(g.rows, a, b)
    ensures Inv(g.(rows := SwapRows(g.rows, a, b)))
  {
    var rows := SwapRows(g.rows, a, b);
    SwapMovesContent(g.rows, a, b);
    SwapKeepsPairs(g.rows, a, b);
    SwapKeepsComplete(g.rows, a, b);
    forall e | e in rows ensures RowOk(e, g.nextSlotId, g.nextSplitGroupId) {
      var i :| 0 <= i < |rows| && rows[i] == e;
      assert g.rows[i] in g.rows && g.rows[Moved(i, a, b)] in g.rows;
    }
    forall s | s in g.autoSplitApplied ensures Live(rows, s) {
      var i :| 0 <= i < |g.rows| && g.rows[i].slotId == s;
      assert rows[i] in rows;
    }
  }

  // -------------------------------------------------------------------- split

  /** A full-frame row is the only row of its camera. */
  lemma FullRowIsAlone(g: GridState, row: int)
    requires Inv(g) && 0 <= row < |g.rows| && g.rows[row].splitCount == 1
    ensures forall e :: e in g.rows[..row] + g.rows[row + 1..] ==> e in g.rows && e.cameraId != g.rows[row].cameraId
  {
    PairsOfRemoval(g.rows, row);
    assert RowOk(g.rows[row], g.nextSlotId, g.nextSplitGroupId) by {
      assert g.rows[row] in g.rows;
    }
    forall e | e in g.rows[..row] + g.rows[row + 1..] ensures e in g.rows && e.cameraId != g.rows[row].cameraId {
      assert PairOk(e, g.rows[row]) && RowOk(e, g.nextSlotId, g.nextSplitGroupId);
    }
  }

  lemma TilesComplete(original: Entry, firstSlot: int, group: int, n: nat, direction: SplitDirection)
    ensures Complete(Tiles(original, firstSlot, group, n, direction))
  {
    var tiles := Tiles(original, firstSlot, group, n, direction);
    forall e, k | e in tiles && 0 <= k < e.splitCount ensures HasTile(tiles, e.cameraId, k) {
      assert tiles[k] in tiles;
    }
  }

  lemma TilePairs(original: Entry, firstSlot: int, group: int, n: nat, direction: SplitDirection)
    ensures PairsOk(Tiles(original, firstSlot, group, n, direction))
  {
  }

  lemma TilesFit(original: Entry, firstSlot: int, group: int, n: nat, direction: SplitDirection)
    requires group >= 1 && ValidSplit(n, direction) && original.cameraId != "" && firstSlot >= 0
    ensures var tiles := Tiles(original, firstSlot, group, n, direction);
            PairsOk(tiles) && Complete(tiles) && RowsOk(tiles, firstSlot + n, group + 1)
  {
    TilesComplete(original, firstSlot, group, n, direction);
    TilePairs(original, firstSlot, group, n, direction);
    var tiles := Tiles(original, firstSlot, group, n, direction);
    forall e | e in tiles ensures RowOk(e, firstSlot + n, group + 1) {
      var k :| 0 <= k < n && tiles[k] == e;
    }
  }

  lemma SplitKeepsInv(g: GridState, row: int, n: nat, direction: SplitDirection, autoSplit: bool)
    requires Inv(g) && CanSplit(g, row, n, direction)
    ensures Inv(SplitGrid(g, row, n, direction, autoSplit))
  {
    var after := SplitGrid(g, row, n, direction, autoSplit);
    var original := g.rows[row];
    var pre, post := g.rows[..row], g.rows[row + 1..];
    var tiles := Tiles(original, g.nextSlotId, g.nextSplitGroupId, n, direction);
    assert original in g.rows;
    assert after.rows == pre + tiles + post;
    FullRowIsAlone(g, row);
    TilesFit(original, g.nextSlotId, g.nextSplitGroupId, n, direction);
    PairsOfRemoval(g.rows, row);
    forall x, y | x in pre + post && y in tiles ensures PairOk(x, y) {
      assert RowOk(x, g.nextSlotId, g.nextSplitGroupId);
    }
    PairsOfReplace(pre, tiles, post);
    ReplaceKeepsComplete(g.rows, pre, original, post, tiles);
    forall s | s in after.autoSplitApplied ensures Live(after.rows, s) {
      if s in g.autoSplitApplied {
        var e :| e in g.rows && e.slotId == s;
        assert e in pre + post;
      } else {
        assert tiles[s - g.nextSlotId] in tiles;
      }
    }
  }

  /** Replacing all rows of one camera by a complete set of rows for it leaves every group complete. */
  lemma ReplaceKeepsComplete(rows: seq<Entry>, pre: seq<Entry>, gone: Entry, post: seq<Entry>, mid: seq<Entry>)
    requires Complete(rows) && Complete(mid)
    requires forall e :: e in pre + post <==> e in rows && e.cameraId != gone.cameraId
    ensures Complete(pre + mid + post)
  {
    var after := pre + mid + post;
    forall e, k | e in after && 0 <= k < e.splitCount ensures HasTile(after, e.cameraId, k) {
      if e in mid {
        assert HasTile(mid, e.cameraId, k);
        var f :| f in mid && f.cameraId == e.cameraId && f.splitIndex == k;
        assert f in after;
      } else {
        assert e in pre + post;
        assert HasTile(rows, e.cameraId, k);
        var f :| f in rows && f.cameraId == e.cameraId && f.splitIndex == k;
        assert f in pre + post;
        assert f in after;
      }
    }
  }

  // -------------------------------------------------------------------- merge

  lemma {:induction false} WithoutMembers(rows: seq<Entry>, group: int)
    ensures forall e :: e in Without(rows, group) <==> e in rows && e.splitGroupId != group
  {
    if rows != [] {
      WithoutMembers(rows[1..], group);
      assert rows == [rows[0]] + rows[1..];
    }
  }

  lemma {:induction false} WithoutKeepsPairs(rows: seq<Entry>, group: int)
    requires PairsOk(rows)
    ensures PairsOk(Without(rows, group))
  {
    if rows != [] {
      var rest := Without(rows[1..], group);
      assert rows == [rows[0]] + rows[1..];
      PairsOfConcat([rows[0]], rows[1..]);
      WithoutKeepsPairs(rows[1..], group);
      WithoutMembers(rows[1..], group);
      PairsOfConcat([rows[0]], rest);
    }
  }

  lemma {:induction false} WithoutConcat(a: seq<Entry>, b: seq<Entry>, group: int)
    ensures Without(a + b, group) == Without(a, group) + Without(b, group)
  {
    if a == [] {
      assert a + b == b;
    } else {
      assert (a + b)[1..] == a[1..] + b;
      WithoutConcat(a[1..], b, group);
    }
  }

  lemma {:induction false} WithoutAbsent(rows: seq<Entry>, group: int)
    requires forall e :: e in rows ==> e.splitGroupId != group
    ensures Without(rows, group) == rows
  {
    if rows != [] {
      WithoutAbsent(rows[1..], group);
    }
  }

  lemma {:induction false} WithoutAll(rows: seq<Entry>, group: int)
    requires forall e :: e in rows ==> e.splitGroupId == group
    ensures Without(rows, group) == []
  {
    if rows != [] {
      WithoutAll(rows[1..], group);
    }
  }

  /** Without a group, the rows before its first row and those after it are left. */
  lemma WithoutAroundFirst(rows: seq<Entry>, group: int)
    requires FirstOf(rows, group) < |rows|
    ensures var p := FirstOf(rows, group);
            Without(rows, group) == rows[..p] + Without(rows[p + 1..], group)
  {
    var p := FirstOf(rows, group);
    assert rows == rows[..p] + ([rows[p]] + rows[p + 1..]);
    WithoutConcat(rows[..p], [rows[p]] + rows[p + 1..], group);
    WithoutAbsent(rows[..p], group);
    assert ([rows[p]] + rows[p + 1..])[1..] == rows[p + 1..];
  }

  lemma SameGroupSameCamera(g: GridState, group: int)
    requires Inv(g) && group >= 1 && FirstOf(g.rows, group) < |g.rows|
    ensures forall e :: e in g.rows ==> (e.splitGroupId == group <==> e.cameraId == g.rows[FirstOf(g.rows, group)].cameraId)
  {
    var p := FirstOf(g.rows, group);
    PairsOfRemoval(g.rows, p);
    assert forall e :: e in g.rows ==> e == g.rows[p] || e in g.rows[..p] + g.rows[p + 1..];
  }

  /** The merged row fits between the rows outside its group. */
  lemma MergeKeepsPairs(g: GridState, group: int)
    requires Inv(g) && group >= 1 && FirstOf(g.rows, group) < |g.rows|
    ensures PairsOk(MergeRows(g.rows, group))
  {
    var p := FirstOf(g.rows, group);
    var pre, post := g.rows[..p], Without(g.rows[p + 1..], group);
    var merged := MergedEntry(g.rows[p]);
    WithoutAroundFirst(g.rows, group);
    WithoutKeepsPairs(g.rows, group);
    WithoutMembers(g.rows[p + 1..], group);
    SameGroupSameCamera(g, group);
    PairsOfRemoval(g.rows, p);
    forall x, y | x in pre + post && y in [merged] ensures PairOk(x, y) {
      assert x in g.rows[..p] + g.rows[p + 1..];
    }
    PairsOfReplace(pre, [merged], post);
  }

  lemma MergeKeepsComplete(g: GridState, group: int)
    requires Inv(g) && group >= 1 && FirstOf(g.rows, group) < |g.rows|
    ensures Complete(MergeRows(g.rows, group))
  {
    var p := FirstOf(g.rows, group);
    var pre, post := g.rows[..p], Without(g.rows[p + 1..], group);
    var merged := MergedEntry(g.rows[p]);
    WithoutAroundFirst(g.rows, group);
    WithoutMembers(g.rows, group);
    SameGroupSameCamera(g, group);
    assert HasTile([merged], merged.cameraId, 0);
    ReplaceKeepsComplete(g.rows, pre, merged, post, [merged]);
  }

  lemma MergeKeepsInv(g: GridState, row: int)
    requires Inv(g) && CanMerge(g.rows, row)
    ensures Inv(Merge(g, row).grid)
  {
    var group := g.rows[row].splitGroupId;
    var p := FirstOf(g.rows, group);
    var after := Merge(g, row).grid;
    assert g.rows[row] in g.rows && g.rows[p] in g.rows;
    MergeKeepsPairs(g, group);
    MergeKeepsComplete(g, group);
    WithoutMembers(g.rows[p + 1..], group);
    forall s | s in after.autoSplitApplied ensures Live(after.rows, s) {
      MergeKeepsLive(g.rows, group, s);
    }
  }

  /** A merge removes exactly the other slots of the group. */
  lemma MergeKeepsLive(rows: seq<Entry>, group: int, s: int)
    requires FirstOf(rows, group) < |rows|
    ensures Live(MergeRows(rows, group), s) || !Live(rows, s) || s in RemovedSlots(rows, group)
  {
    var p := FirstOf(rows, group);
    var after := MergeRows(rows, group);
    WithoutMembers(rows[p + 1..], group);
    if Live(rows, s) && s !in RemovedSlots(rows, group) {
      var q :| 0 <= q < |rows| && rows[q].slotId == s;
      if q <= p {
        assert after[q].slotId == s && after[q] in after;
      } else {
        assert rows[q] in rows[p + 1..];
        assert rows[q] in Without(rows[p + 1..], group);
        assert rows[q] in after;
      }
    }
  }

  /** In a grid that keeps the invariant a merge takes the marks of exactly the slots whose rows it removes. */
  lemma MergeMarks(g: GridState, row: int)
    requires Inv(g) && CanMerge(g.rows, row)
    ensures var after := Merge(g, row).grid;
            after.autoSplitApplied
            == set s | s in g.autoSplitApplied && Live(after.rows, s)
  {
    var group := g.rows[row].splitGroupId;
    var after := Merge(g, row).grid;
    assert FirstOf(g.rows, group) < |g.rows|;
    forall s | s in g.autoSplitApplied ensures Live(after.rows, s) <==> s !in RemovedSlots(g.rows, group) {
      assert Live(g.rows, s);
      MergeKeepsLive(g.rows, group, s);
      if s in RemovedSlots(g.rows, group) {
        RemovedAreGone(g, group, s);
      }
    }
  }

  /** Every row behind a merge has the slot of a row before it that the merge did not remove. */
  lemma MergedFrom(rows: seq<Entry>, group: int, e: Entry) returns (i: nat)
    requires FirstOf(rows, group) < |rows| && e in MergeRows(rows, group)
    ensures i < |rows| && rows[i].slotId == e.slotId
    ensures i <= FirstOf(rows, group) || rows[i].splitGroupId != group
  {
    var p := FirstOf(rows, group);
    var rest := rows[p + 1..];
    if e in rows[..p] {
      i :| i < p && rows[i] == e;
    } else if e in Without(rest, group) {
      WithoutMembers(rest, group);
      var j: nat :| j < |rest| && rest[j] == e;
      i := p + 1 + j;
    } else {
      i := p;
    }
  }

  lemma RemovedAreGone(g: GridState, group: int, s: int)
    requires Inv(g) && FirstOf(g.rows, group) < |g.rows| && s in RemovedSlots(g.rows, group)
    ensures !Live(MergeRows(g.rows, group), s)
  {
    var p := FirstOf(g.rows, group);
    var gone :| gone in g.rows[p + 1..] && gone.splitGroupId == group && gone.slotId == s;
    var j :| p < j < |g.rows| && g.rows[j] == gone;
    forall e | e in MergeRows(g.rows, group) ensures e.slotId != s {
      var i := MergedFrom(g.rows, group, e);
      assert PairOk(g.rows[i], g.rows[j]);
    }
  }

  // --------------------------------------------------------------- auto-split

  lemma AutoSplitKeepsInv(g: GridState, row: int, table: TileTable)
    requires Inv(g)
    ensures Inv(AutoSplit(g, row, table).grid)
  {
    if 0 <= row < |g.rows| && CanSplit(g, row, table(g.rows[row].cameraId), Col) {
      SplitKeepsInv(g, row, table(g.rows[row].cameraId), Col, true);
    }
  }

  lemma {:induction false} AutoSplitAllKeepsInv(g: GridState, slots: seq<int>, table: TileTable)
    requires Inv(g)
    ensures Inv(AutoSplitAll(g, slots, table).grid)
    decreases |slots|
  {
    if slots != [] {
      AutoSplitKeepsInv(g, IndexBySlotId(g.rows, slots[0]), table);
      AutoSplitAllKeepsInv(AutoSplitSlot(g, slots[0], table).grid, slots[1..], table);
    }
  }

  // ------------------------------------------------------------- store update

  /** The keyed snapshot has exactly the non-empty ids of the list, each with the last camera of that id. */
  lemma {:induction false} SnapshotKeys(snapshot: seq<CameraData>)
    ensures var m := ByCameraId(snapshot);
            && "" !in m
            && (forall c :: c in m ==> m[c].cameraId == c)
            && (forall i :: 0 <= i < |snapshot| && snapshot[i].cameraId != "" ==> snapshot[i].cameraId in m)
            && (forall c :: c in m ==> exists i :: 0 <= i < |snapshot| && m[c] == snapshot[i]
                                                  && forall j :: i < j < |snapshot| ==> snapshot[j].cameraId != c)
  {
    if snapshot != [] {
      var init := snapshot[..|snapshot| - 1];
      SnapshotKeys(init);
      forall c | c in ByCameraId(snapshot)
        ensures exists i :: 0 <= i < |snapshot| && ByCameraId(snapshot)[c] == snapshot[i]
                            && forall j :: i < j < |snapshot| ==> snapshot[j].cameraId != c
      {
        if snapshot[|snapshot| - 1].cameraId == c {
          assert ByCameraId(snapshot)[c] == snapshot[|snapshot| - 1];
        } else {
          var i :| 0 <= i < |init| && ByCameraId(init)[c] == init[i]
                   && forall j :: i < j < |init| ==> init[j].cameraId != c;
          assert ByCameraId(snapshot)[c] == snapshot[i];
          forall j | i < j < |snapshot| ensures snapshot[j].cameraId != c {
            assert j < |init| ==> init[j] == snapshot[j];
          }
        }
      }
    }
  }

  lemma RefreshKeepsInv(g: GridState, byCid: map<string, CameraData>)
    requires Inv(g)
    ensures Inv(g.(rows := Refresh(g.rows, byCid)))
  {
    ShapeKeepsInv(g, Refresh(g.rows, byCid));
  }

  ghost predicate Fresh(added: seq<Entry>, rows: seq<Entry>, order: seq<string>, byCid: map<string, CameraData>, firstSlot: int)
    requires forall c :: c in order ==> c in byCid
  {
    forall i :: 0 <= i < |added| ==>
      added[i].cameraId in order && !Represented(rows, added[i].cameraId)
      && added[i] == NewRow(firstSlot + i, byCid[added[i].cameraId])
  }

  lemma {:induction false} NewRowsFresh(rows: seq<Entry>, order: seq<string>, byCid: map<string, CameraData>, firstSlot: int)
    requires forall c :: c in order ==> c in byCid && byCid[c].cameraId == c
    ensures Fresh(NewRows(rows, order, byCid, firstSlot), rows, order, byCid, firstSlot)
  {
    if order != [] {
      assert order == order[..|order| - 1] + [order[|order| - 1]];
      NewRowsFresh(rows, order[..|order| - 1], byCid, firstSlot);
    }
  }

  lemma {:induction false} NewRowsCover(rows: seq<Entry>, order: seq<string>, byCid: map<string, CameraData>,
                                        firstSlot: int, c: string)
    requires forall d :: d in order ==> d in byCid && byCid[d].cameraId == d
    requires c in order && !Represented(rows, c)
    ensures Represented(NewRows(rows, order, byCid, firstSlot), c)
  {
    var n := |order| - 1;
    var before, whole := NewRows(rows, order[..n], byCid, firstSlot), NewRows(rows, order, byCid, firstSlot);
    assert order == order[..n] + [order[n]];
    if order[n] == c {
      assert whole[|before|].cameraId == c;
    } else {
      NewRowsCover(rows, order[..n], byCid, firstSlot, c);
      var i :| 0 <= i < |before| && before[i].cameraId == c;
      assert whole[i] == before[i];
    }
  }

  ghost predicate DistinctCameras(rows: seq<Entry>) {
    forall i, j :: 0 <= i < j < |rows| ==> rows[i].cameraId != rows[j].cameraId
  }

  lemma {:induction false} NewRowsDistinct(rows: seq<Entry>, order: seq<string>, byCid: map<string, CameraData>, firstSlot: int)
    requires forall c :: c in order ==> c in byCid && byCid[c].cameraId == c
    requires forall i, j :: 0 <= i < j < |order| ==> order[i] != order[j]
    ensures DistinctCameras(NewRows(rows, order, byCid, firstSlot))
  {
    if order != [] {
      var n := |order| - 1;
      var before := NewRows(rows, order[..n], byCid, firstSlot);
      NewRowsDistinct(rows, order[..n], byCid, firstSlot);
      NewRowsFresh(rows, order[..n], byCid, firstSlot);
      assert order[n] in order && order[n] !in order[..n];
      forall i | 0 <= i < |before| ensures before[i].cameraId != order[n] {
        assert before[i].cameraId in order[..n];
      }
    }
  }

  /** The new rows: one per missing camera of `order`, in order, with consecutive fresh slots. */
  lemma NewRowsAre(rows: seq<Entry>, order: seq<string>, byCid: map<string, CameraData>, firstSlot: int)
    requires forall c :: c in order ==> c in byCid && byCid[c].cameraId == c
    requires forall i, j :: 0 <= i < j < |order| ==> order[i] != order[j]
    ensures var added := NewRows(rows, order, byCid, firstSlot);
            && Fresh(added, rows, order, byCid, firstSlot) && DistinctCameras(added)
            && (forall c :: c in order && !Represented(rows, c) ==> Represented(added, c))
  {
    NewRowsFresh(rows, order, byCid, firstSlot);
    NewRowsDistinct(rows, order, byCid, firstSlot);
    forall c | c in order && !Represented(rows, c) ensures Represented(NewRows(rows, order, byCid, firstSlot), c) {
      NewRowsCover(rows, order, byCid, firstSlot, c);
    }
  }

  lemma AbsorbKeepsInv(g: GridState, byCid: map<string, CameraData>, order: seq<string>)
    requires Inv(g) && Enumerates(order, byCid)
    requires "" !in byCid && forall c :: c in byCid ==> byCid[c].cameraId == c
    ensures Inv(Absorb(g, byCid, order))
  {
    var kept := g.(rows := Refresh(g.rows, byCid));
    var added := NewRows(g.rows, order, byCid, g.nextSlotId);
    var after := Absorb(g, byCid, order);
    RefreshKeepsInv(g, byCid);
    NewRowsAre(g.rows, order, byCid, g.nextSlotId);
    forall e | e in after.rows ensures RowOk(e, after.nextSlotId, after.nextSplitGroupId) {
      if e in kept.rows {
        assert RowOk(e, kept.nextSlotId, kept.nextSplitGroupId);
      } else {
        var i :| 0 <= i < |added| && added[i] == e;
      }
    }
    forall i | 0 <= i < |kept.rows| ensures Represented(g.rows, kept.rows[i].cameraId) {
      assert g.rows[i].cameraId == kept.rows[i].cameraId;
    }
    PairsOfConcat(kept.rows, added);
    forall e, k | e in after.rows && 0 <= k < e.splitCount ensures HasTile(after.rows, e.cameraId, k) {
      if e in kept.rows {
        assert HasTile(kept.rows, e.cameraId, k);
      } else {
        assert e in added && k == e.splitIndex;
      }
    }
    forall s | s in after.autoSplitApplied ensures Live(after.rows, s) {
      assert Live(kept.rows, s);
    }
  }

  // --------------------------------------------------------------------- runs

  lemma StepKeepsInv(g: GridState, op: Op, table: TileTable)
    requires Inv(g) && op.Possible()
    ensures Inv(Step(g, op, table).grid)
  {
    match op
    case SwapOp(a, b) =>
      if CanSwap(g.rows, a, b) { SwapKeepsInv(g, a, b); }
    case SplitOp(row, n, d) =>
      if CanSplit(g, row, n, DirectionOf(d)) { SplitKeepsInv(g, row, n, DirectionOf(d), false); }
    case MergeOp(row) =>
      if CanMerge(g.rows, row) { MergeKeepsInv(g, row); }
    case AutoSplitOp(slotId) =>
      AutoSplitKeepsInv(g, IndexBySlotId(g.rows, slotId), table);
    case StoreOp(snapshot, order) =>
      var absorbed := Absorb(g, ByCameraId(snapshot), order);
      SnapshotKeys(snapshot);
      AbsorbKeepsInv(g, ByCameraId(snapshot), order);
      AutoSplitAllKeepsInv(absorbed, Candidates(absorbed.rows), table);
    case SetDataOp(row, edit) =>
      if 0 <= row < |g.rows| { ShapeKeepsInv(g, SetData(g, row, edit).grid.rows); }
    case SensorOp(cid, info) =>
      ShapeKeepsInv(g, UpdateSensorInfo(g, cid, info).grid.rows);
    case ClearOp =>
  }

  lemma {:induction false} RunKeepsInv(g: GridState, ops: seq<Op>, table: TileTable)
    requires Inv(g) && AllPossible(ops)
    ensures Inv(Run(g, ops, table))
  {
    if ops != [] {
      RunKeepsInv(g, ops[..|ops| - 1], table);
      StepKeepsInv(Run(g, ops[..|ops| - 1], table), ops[|ops| - 1], table);
    }
  }
}
