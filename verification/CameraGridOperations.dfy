/** What each call on the grid does to the rows and marks, told field by field, and when it refuses. */
module CameraGridOperations {
  import opened CropGeometry
  import opened Strings
  import opened CameraGrid
  import opened CameraGridInvariant

  // --------------------------------------------------------------------- swap

  /** A swap happens for two different rows of the list; otherwise nothing changes and nothing is announced. */
  lemma SwapRefusesIff(g: GridState, a: int, b: int)
    ensures Swap(g, a, b).ok <==> 0 <= a < |g.rows| && 0 <= b < |g.rows| && a != b
    ensures !Swap(g, a, b).ok ==> Swap(g, a, b) == Outcome(g, false, [])
  {
  }

  /** The row shows what the other row showed: all but slot and sensors. */
  predicate ShowsAs(e: Entry, other: Entry) {
    && e.title == other.title && e.cameraId == other.cameraId && e.isOnline == other.isOnline
    && e.cameraType == other.cameraType && e.description == other.description
    && e.splitCount == other.splitCount && e.splitDirection == other.splitDirection && e.cropRect == other.cropRect
    && e.splitGroupId == other.splitGroupId && e.splitIndex == other.splitIndex
    && e.width == other.width && e.height == other.height
  }

  lemma SwapExchanges(g: GridState, a: int, b: int)
    requires 0 <= a < |g.rows| && 0 <= b < |g.rows| && a != b
    ensures var after := Swap(g, a, b).grid;
            && |after.rows| == |g.rows|
            && ShowsAs(after.rows[a], g.rows[b]) && ShowsAs(after.rows[b], g.rows[a])
            && (forall i :: 0 <= i < |g.rows| ==> after.rows[i].slotId == g.rows[i].slotId
                                                  && after.rows[i].deviceInfo == g.rows[i].deviceInfo)
            && (forall i :: 0 <= i < |g.rows| && i != a && i != b ==> after.rows[i] == g.rows[i])
            && after == g.(rows := after.rows)
  {
  }

  // -------------------------------------------------------------------- split

  predicate AllowedSplit(n: int, direction: SplitDirection) {
    (direction == Col && 2 <= n <= 4) || (direction == Row && (n == 2 || n == 3)) || (direction == Grid && n == 4)
  }

  /** A split happens for an unsplit online row and two to four columns, two or three rows, or a grid of four. */
  lemma SplitRefusesIff(g: GridState, row: int, n: int, direction: SplitDirection, autoSplit: bool)
    ensures var o := Split(g, row, n, direction, autoSplit);
            && (o.ok <==> 0 <= row < |g.rows| && g.rows[row].splitCount == 1 && g.rows[row].isOnline
                          && AllowedSplit(n, direction))
            && (!o.ok ==> o == Outcome(g, false, []))
  {
  }

  predicate IsTile(e: Entry, original: Entry, slotId: int, group: int, k: nat, n: nat, direction: SplitDirection) {
    && e.slotId == slotId && e.splitGroupId == group && e.splitIndex == k && e.splitCount == n
    && e.splitDirection == direction && e.cropRect == ComputeCropRect(k, n, direction)
    && e.title == original.title + " [" + Digit(k + 1) + "/" + Digit(n) + "]"
    && e.cameraId == original.cameraId && e.isOnline == original.isOnline
    && e.cameraType == original.cameraType && e.description == original.description
    && e.width == 320 && e.height == 240 && e.deviceInfo == NO_SENSORS
  }

  /** The tiles stand in order where the row stood, and all other rows stay. */
  lemma SplitMakes(g: GridState, row: int, n: int, direction: SplitDirection, autoSplit: bool)
    requires Split(g, row, n, direction, autoSplit).ok
    ensures var rows := Split(g, row, n, direction, autoSplit).grid.rows;
            && |rows| == |g.rows| + n - 1
            && (forall i :: 0 <= i < row ==> rows[i] == g.rows[i])
            && (forall k :: row <= k < row + n ==>
                  IsTile(rows[k], g.rows[row], g.nextSlotId + k - row, g.nextSplitGroupId, k - row, n, direction))
            && (forall i :: row + n <= i < |rows| ==> rows[i] == g.rows[i - n + 1])
  {
    var rows := Split(g, row, n, direction, autoSplit).grid.rows;
    var tiles := Tiles(g.rows[row], g.nextSlotId, g.nextSplitGroupId, n, direction);
    assert rows == g.rows[..row] + tiles + g.rows[row + 1..];
    forall k | row <= k < row + n
      ensures IsTile(rows[k], g.rows[row], g.nextSlotId + k - row, g.nextSplitGroupId, k - row, n, direction)
    {
      TileIs(g.rows[row], g.nextSlotId, g.nextSplitGroupId, k - row, n, direction);
      assert rows[k] == tiles[k - row];
    }
  }

  lemma TileIs(original: Entry, firstSlot: int, group: int, k: nat, n: nat, direction: SplitDirection)
    ensures IsTile(Tile(original, firstSlot, group, k, n, direction), original, firstSlot + k, group, k, n, direction)
  {
    assert original.title + TileMarker(k, n) == original.title + " [" + Digit(k + 1) + "/" + Digit(n) + "]";
  }

  /** The counters move on by the ids given out, and the marks lose the row's slot and gain the tiles' slots when the
      split was automatic. */
  lemma SplitCounts(g: GridState, row: int, n: int, direction: SplitDirection, autoSplit: bool)
    requires Split(g, row, n, direction, autoSplit).ok
    ensures var after := Split(g, row, n, direction, autoSplit).grid;
            && after.nextSlotId == g.nextSlotId + n && after.nextSplitGroupId == g.nextSplitGroupId + 1
            && (forall s :: s in after.autoSplitApplied <==>
                  s != g.rows[row].slotId
                  && (s in g.autoSplitApplied || (autoSplit && g.nextSlotId <= s < g.nextSlotId + n)))
  {
  }

  /** The integer directions: 1 stacks the tiles, 2 puts four in a grid, everything else sets them side by side. */
  lemma DirectionsMean(g: GridState, row: int, n: int, direction: int, table: TileTable, k: nat)
    requires Step(g, SplitOp(row, n, direction), table).ok && k < n
    ensures var r := Step(g, SplitOp(row, n, direction), table).grid.rows[row + k].cropRect;
            if direction == 1 then r.x == 0.0 && r.w == 1.0 && (k == 0 <==> r.y == 0.0) && r.h < 1.0
            else if direction == 2 then
              n == 4 && r == Rect((k % 2) as real * 0.5, (k / 2) as real * 0.5, 0.5, 0.5)
            else r.y == 0.0 && r.h == 1.0 && (k == 0 <==> r.x == 0.0) && r.w < 1.0
  {
    var d := DirectionOf(direction);
    SplitMakes(g, row, n, d, false);
    assert Step(g, SplitOp(row, n, direction), table).grid.rows[row + k].cropRect == ComputeCropRect(k, n, d);
    RectangleOf(k, n, d);
  }

  lemma RectangleOf(k: nat, n: nat, direction: SplitDirection)
    requires AllowedSplit(n, direction) && k < n
    ensures var r := ComputeCropRect(k, n, direction);
            match direction
            case Row => r.x == 0.0 && r.w == 1.0 && (k == 0 <==> r.y == 0.0) && r.h < 1.0
            case Grid => r == Rect((k % 2) as real * 0.5, (k / 2) as real * 0.5, 0.5, 0.5)
            case Col => r.y == 0.0 && r.h == 1.0 && (k == 0 <==> r.x == 0.0) && r.w < 1.0
            case NoSplit => false
  {
    if n == 2 {
    } else if n == 3 {
    } else {
    }
  }

  /** Counts and directions no split allows give the whole frame. */
  lemma OtherwiseFullFrame(k: nat, n: nat, direction: SplitDirection)
    requires !AllowedSplit(n, direction)
    ensures ComputeCropRect(k, n, direction) == Rect(0.0, 0.0, 1.0, 1.0)
  {
  }

  // -------------------------------------------------------------------- merge

  /** With the invariant a merge happens at exactly the split rows of the list. */
  lemma MergeRefusesIff(g: GridState, row: int)
    requires Inv(g)
    ensures var o := Merge(g, row);
            && (o.ok <==> 0 <= row < |g.rows| && g.rows[row].splitCount > 1)
            && (!o.ok ==> o == Outcome(g, false, []))
  {
    if 0 <= row < |g.rows| && g.rows[row].splitCount > 1 {
      var e := g.rows[row];
      assert e in g.rows;
      assert HasTile(g.rows, e.cameraId, 0) && HasTile(g.rows, e.cameraId, 1);
      var i :| 0 <= i < |g.rows| && g.rows[i].cameraId == e.cameraId && g.rows[i].splitIndex == 0;
      var j :| 0 <= j < |g.rows| && g.rows[j].cameraId == e.cameraId && g.rows[j].splitIndex == 1;
      assert i != row ==> PairOk(g.rows[i], g.rows[row]);
      assert j != row ==> PairOk(g.rows[j], g.rows[row]);
      TwoGone(g.rows, i, j, e.splitGroupId);
    }
  }

  lemma {:induction false} TwoGone(rows: seq<Entry>, i: int, j: int, group: int)
    requires 0 <= i < |rows| && 0 <= j < |rows| && i != j
    requires rows[i].splitGroupId == group && rows[j].splitGroupId == group
    ensures |Without(rows, group)| + 2 <= |rows|
  {
    var a, b := if i < j then i else j, if i < j then j else i;
    assert rows == rows[..a] + ([rows[a]] + (rows[a + 1..b] + ([rows[b]] + rows[b + 1..])));
    WithoutConcat(rows[..a], [rows[a]] + (rows[a + 1..b] + ([rows[b]] + rows[b + 1..])), group);
    WithoutConcat([rows[a]], rows[a + 1..b] + ([rows[b]] + rows[b + 1..]), group);
    WithoutConcat(rows[a + 1..b], [rows[b]] + rows[b + 1..], group);
    WithoutConcat([rows[b]], rows[b + 1..], group);
    WithoutAll([rows[a]], group);
    WithoutAll([rows[b]], group);
  }

  /** What stands before the last " [" of a title that ends in a bracket, if that is something; else the title. */
  lemma StripIs(title: string, before: string, rest: string)
    requires title == before + " [" + rest + "]" && before != ""
    requires forall i :: |before| < i ==> !Matches(title, " [", i)
    ensures StripMarker(title) == before
  {
    assert title[|before|..|before| + 2] == " [";
    assert Matches(title, " [", |before|);
    assert LastIndexOf(title, " [") == |before|;
  }

  lemma StripKeeps(title: string)
    requires forall before, rest :: title == before + " [" + rest + "]" ==> before == ""
    ensures StripMarker(title) == title
  {
    var p := LastIndexOf(title, " [");
    if p > 0 && title[|title| - 1] == ']' {
      assert title[p..p + 2] == " [";
      assert title[p + 1] == '[';
      assert title == title[..p] + " [" + title[p + 2..|title| - 1] + "]";
      assert title[..p] != "";
    }
  }

  /** The row is the tile as a full frame under its stripped title; slot, camera, flags and sensors stay. */
  predicate IsMerged(e: Entry, tile: Entry) {
    && e.slotId == tile.slotId && e.cameraId == tile.cameraId && e.isOnline == tile.isOnline
    && e.cameraType == tile.cameraType && e.description == tile.description
    && e.width == tile.width && e.height == tile.height && e.deviceInfo == tile.deviceInfo
    && e.title == StripMarker(tile.title)
    && e.splitCount == 1 && e.splitGroupId == -1 && e.splitIndex == 0 && e.splitDirection == Col
    && e.cropRect == Rect(0.0, 0.0, 1.0, 1.0)
  }

  /** The merged row is the group's first tile, and the rows before it and the counters stay. */
  lemma MergeMakes(g: GridState, row: int)
    requires Merge(g, row).ok
    ensures var after, p := Merge(g, row).grid, FirstOf(g.rows, g.rows[row].splitGroupId);
            && p < |after.rows| && p < |g.rows| && IsMerged(after.rows[p], g.rows[p])
            && after.rows[..p] == g.rows[..p]
            && after.rows[p + 1..] == Without(g.rows[p + 1..], g.rows[row].splitGroupId)
            && after.nextSlotId == g.nextSlotId && after.nextSplitGroupId == g.nextSplitGroupId
  {
  }

  // --------------------------------------------------------------- auto-split

  predicate Splittable(g: GridState, e: Entry, table: TileTable) {
    e.isOnline && e.splitCount == 1 && e.slotId !in g.autoSplitApplied && 2 <= table(e.cameraId) <= 4
  }

  lemma SlotIsUnique(rows: seq<Entry>, i: int, j: int)
    requires PairsOk(rows) && 0 <= i < |rows| && 0 <= j < |rows| && rows[i].slotId == rows[j].slotId
    ensures i == j
  {
  }

  lemma AutoSplitAt(g: GridState, row: int, table: TileTable)
    ensures var o := AutoSplit(g, row, table);
            && (o.ok <==> 0 <= row < |g.rows| && Splittable(g, g.rows[row], table))
            && (o.ok ==> o == Split(g, row, table(g.rows[row].cameraId), Col, true))
            && (!o.ok ==> o == Outcome(g, false, []))
  {
  }

  /** Auto-split of a slot splits its row into the configured columns and marks them, if and only if the row is there,
      online, unsplit, not marked, and its camera has a count of two to four. */
  lemma AutoSplitIff(g: GridState, slotId: int, table: TileTable)
    ensures var o, row := AutoSplitSlot(g, slotId, table), IndexBySlotId(g.rows, slotId);
            && (o.ok <==> row >= 0 && Splittable(g, g.rows[row], table))
            && (o.ok ==> o == Split(g, row, table(g.rows[row].cameraId), Col, true))
            && (!o.ok ==> o == Outcome(g, false, []))
    ensures PairsOk(g.rows) ==>
              forall i :: 0 <= i < |g.rows| && g.rows[i].slotId == slotId ==> i == IndexBySlotId(g.rows, slotId)
  {
    var row := IndexBySlotId(g.rows, slotId);
    AutoSplitAt(g, row, table);
    if PairsOk(g.rows) {
      forall i | 0 <= i < |g.rows| && g.rows[i].slotId == slotId ensures i == row {
        SlotIsUnique(g.rows, i, row);
      }
    }
  }

  /** The candidates of a pass are the slots of the unsplit online rows, in row order. */
  lemma {:induction false} CandidatesOn(rows: seq<Entry>, e: Entry)
    ensures Candidates([]) == []
    ensures Candidates(rows + [e]) == Candidates(rows) + if e.splitCount == 1 && e.isOnline then [e.slotId] else []
  {
    assert (rows + [e])[..|rows|] == rows;
  }

  // ------------------------------------------------------------ smaller edits

  /** An edit writes the one field and announces its role, if and only if the row is in the list. */
  lemma EditsWrite(g: GridState, row: int, text: string, online: bool)
    ensures var inList := 0 <= row < |g.rows|;
            && SetData(g, row, EditTitle(text))
               == (if inList then Outcome(g.(rows := g.rows[row := g.rows[row].(title := text)]), true,
                                          [DataChanged(row, {TitleRole})]) else Outcome(g, false, []))
            && SetData(g, row, EditOnline(online))
               == (if inList then Outcome(g.(rows := g.rows[row := g.rows[row].(isOnline := online)]), true,
                                          [DataChanged(row, {IsOnlineRole})]) else Outcome(g, false, []))
            && SetData(g, row, EditCameraType(text))
               == (if inList then Outcome(g.(rows := g.rows[row := g.rows[row].(cameraType := text)]), true,
                                          [DataChanged(row, {CameraTypeRole})]) else Outcome(g, false, []))
  {
  }

  /** A sensor batch goes to every row of the camera and to no other, and is announced if there is such a row. */
  lemma SensorsReach(g: GridState, cid: string, info: DeviceInfo)
    ensures var o := UpdateSensorInfo(g, cid, info);
            && |o.grid.rows| == |g.rows| && o.grid == g.(rows := o.grid.rows)
            && (forall i :: 0 <= i < |g.rows| ==>
                  o.grid.rows[i] == if g.rows[i].cameraId == cid then g.rows[i].(deviceInfo := info) else g.rows[i])
            && (forall s :: s in o.signals ==> s == SensorDataUpdated(cid))
            && |o.signals| == (if exists i :: 0 <= i < |g.rows| && g.rows[i].cameraId == cid then 1 else 0)
  {
    assert Represented(g.rows, cid) <==> exists i :: 0 <= i < |g.rows| && g.rows[i].cameraId == cid;
  }

  lemma ClearStartsAnew(g: GridState)
    ensures ClearAll(g).grid == GridState([], 0, 1, {})
  {
  }

  // ------------------------------------------------------------- store update

  /** What an update makes of a row that is there: only online flag, type and title can change. */
  lemma RefreshMakes(e: Entry, byCid: map<string, CameraData>)
    ensures var r := RefreshRow(e, byCid);
            && r == e.(isOnline := r.isOnline, cameraType := r.cameraType, title := r.title)
            && r.isOnline == (e.cameraId in byCid && byCid[e.cameraId].isOnline)
            && r.cameraType == (if e.cameraId in byCid then byCid[e.cameraId].cameraType else e.cameraType)
            && r.title == (if e.cameraId in byCid && e.splitCount == 1 then byCid[e.cameraId].title else e.title)
  {
  }

  /** A new camera's row: a full frame with the snapshot's title, type and online flag, no sensors, no description. */
  lemma NewRowMakes(slotId: int, snap: CameraData)
    ensures NewRow(slotId, snap)
         == Entry(slotId, snap.title, snap.cameraId, snap.isOnline, snap.cameraType, 1, NoSplit,
                  Rect(0.0, 0.0, 1.0, 1.0), -1, 0, "", 320, 240, NO_SENSORS)
  {
  }
}
