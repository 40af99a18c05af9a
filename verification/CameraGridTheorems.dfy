/** Properties of the slot grid over whole runs. */
module CameraGridTheorems {
  import opened CropGeometry
  import opened CameraGrid
  import opened CameraGridInvariant

  /** A grid some sequence of calls produces from the empty one. */
  ghost predicate Reachable(g: GridState, table: TileTable) {
    exists ops :: AllPossible(ops) && g == Run(EMPTY_GRID, ops, table)
  }

  lemma ReachableInv(g: GridState, table: TileTable)
    requires Reachable(g, table)
    ensures Inv(g)
  {
    var ops :| AllPossible(ops) && g == Run(EMPTY_GRID, ops, table);
    RunKeepsInv(EMPTY_GRID, ops, table);
  }

  // ---------------------------------------------------------- what is shown

  predicate Shows(e: Entry, cid: string, x: real, y: real) {
    e.cameraId == cid && Covers(e.cropRect, x, y)
  }

  /** In every reachable grid, every point of the frame of every camera on the grid
      is shown by exactly one row. */
  lemma EveryPointShownOnce(g: GridState, table: TileTable, cid: string, x: real, y: real)
    requires Reachable(g, table) && Represented(g.rows, cid) && InFrame(x, y)
    ensures exists i :: 0 <= i < |g.rows| && Shows(g.rows[i], cid, x, y)
                        && forall j :: 0 <= j < |g.rows| && Shows(g.rows[j], cid, x, y) ==> j == i
  {
    ReachableInv(g, table);
    var r :| 0 <= r < |g.rows| && g.rows[r].cameraId == cid;
    var e := g.rows[r];
    assert e in g.rows;
    var k := if e.splitCount == 1 then 0 else TileAt(x, y, e.splitCount, e.splitDirection);
    assert HasTile(g.rows, cid, k);
    var i :| 0 <= i < |g.rows| && g.rows[i].cameraId == cid && g.rows[i].splitIndex == k;
    forall j | 0 <= j < |g.rows| && g.rows[j].cameraId == cid
      ensures Shows(g.rows[j], cid, x, y) <==> j == i
    {
      assert g.rows[j] in g.rows;
      assert j != i ==> PairOk(g.rows[j], g.rows[i]);
      assert j != r ==> PairOk(g.rows[j], g.rows[r]);
      if e.splitCount != 1 {
        TilesPartitionFrame(e.splitCount, e.splitDirection, g.rows[j].splitIndex, x, y);
      }
    }
    assert Shows(g.rows[i], cid, x, y);
  }

  /** A camera owns either one full-frame row or exactly the `n` tiles of one group that nobody else is in. */
  lemma OneRowOrOneGroup(g: GridState, table: TileTable, r: int)
    requires Reachable(g, table) && 0 <= r < |g.rows|
    ensures var e := g.rows[r];
            e.splitCount == 1 ==>
              e.cropRect == FULL_FRAME && e.splitGroupId == -1
              && forall j :: 0 <= j < |g.rows| && g.rows[j].cameraId == e.cameraId ==> j == r
    ensures var e := g.rows[r];
            e.splitCount != 1 ==>
              && ValidSplit(e.splitCount, e.splitDirection) && e.splitGroupId >= 1
              && (forall j :: 0 <= j < |g.rows| ==>
                    (g.rows[j].cameraId == e.cameraId <==> g.rows[j].splitGroupId == e.splitGroupId))
              && (forall j :: 0 <= j < |g.rows| && g.rows[j].cameraId == e.cameraId ==>
                    && g.rows[j].splitCount == e.splitCount && g.rows[j].splitDirection == e.splitDirection
                    && 0 <= g.rows[j].splitIndex < e.splitCount
                    && g.rows[j].cropRect == ComputeCropRect(g.rows[j].splitIndex, e.splitCount, e.splitDirection))
              && (forall k :: 0 <= k < e.splitCount ==> HasTile(g.rows, e.cameraId, k))
              && (forall i, j :: 0 <= i < j < |g.rows| && g.rows[i].cameraId == e.cameraId == g.rows[j].cameraId ==>
                    g.rows[i].splitIndex != g.rows[j].splitIndex)
  {
    ReachableInv(g, table);
    forall j | 0 <= j < |g.rows|
      ensures g.rows[j] in g.rows && (j != r ==> PairOk(g.rows[j], g.rows[r]))
    {
    }
  }

  // ---------------------------------------------------------- slot identity

  ghost predicate HasGroup(rows: seq<Entry>, group: int) {
    exists e :: e in rows && e.splitGroupId == group
  }

  /** The ids of `e` are either new since `g` or still in use there. */
  ghost predicate Inherits(g: GridState, e: Entry) {
    && (g.nextSlotId <= e.slotId || Live(g.rows, e.slotId))
    && (e.splitGroupId == -1 || g.nextSplitGroupId <= e.splitGroupId || HasGroup(g.rows, e.splitGroupId))
  }

  /** `h` came from `g` without giving any used-up slot or group id out again. */
  ghost predicate Succeeds(g: GridState, h: GridState) {
    && g.nextSlotId <= h.nextSlotId
    && g.nextSplitGroupId <= h.nextSplitGroupId
    && forall e :: e in h.rows ==> Inherits(g, e)
  }

  lemma SucceedsTransitive(f: GridState, g: GridState, h: GridState)
    requires Succeeds(f, g) && Succeeds(g, h)
    ensures Succeeds(f, h)
  {
    forall e | e in h.rows ensures Inherits(f, e) {
      assert Inherits(g, e);
      if Live(g.rows, e.slotId) {
        var d :| d in g.rows && d.slotId == e.slotId;
        assert Inherits(f, d);
      }
      if HasGroup(g.rows, e.splitGroupId) {
        var d :| d in g.rows && d.splitGroupId == e.splitGroupId;
        assert Inherits(f, d);
      }
    }
  }

  lemma SplitSucceeds(g: GridState, row: int, n: int, direction: SplitDirection, autoSplit: bool)
    ensures Succeeds(g, Split(g, row, n, direction, autoSplit).grid)
  {
    var h := Split(g, row, n, direction, autoSplit).grid;
    forall e | e in h.rows ensures Inherits(g, e) {
      if e in g.rows {
        assert Live(g.rows, e.slotId) && HasGroup(g.rows, e.splitGroupId);
      }
    }
  }

  lemma AutoSplitSucceeds(g: GridState, row: int, table: TileTable)
    ensures Succeeds(g, AutoSplit(g, row, table).grid)
  {
    if 0 <= row < |g.rows| {
      SplitSucceeds(g, row, table(g.rows[row].cameraId), Col, true);
    }
    SplitSucceeds(g, -1, 0, Col, true);
  }

  lemma {:induction false} AutoSplitAllSucceeds(g: GridState, slots: seq<int>, table: TileTable)
    ensures Succeeds(g, AutoSplitAll(g, slots, table).grid)
    decreases |slots|
  {
    if slots == [] {
      SplitSucceeds(g, -1, 0, Col, true);
    } else {
      var first := AutoSplitSlot(g, slots[0], table).grid;
      AutoSplitSucceeds(g, IndexBySlotId(g.rows, slots[0]), table);
      AutoSplitAllSucceeds(first, slots[1..], table);
      SucceedsTransitive(g, first, AutoSplitAll(g, slots, table).grid);
    }
  }

  lemma SwapSucceeds(g: GridState, a: int, b: int)
    requires CanSwap(g.rows, a, b)
    ensures Succeeds(g, Swap(g, a, b).grid)
  {
    var h := Swap(g, a, b).grid;
    SwapMovesContent(g.rows, a, b);
    forall e | e in h.rows ensures Inherits(g, e) {
      var i :| 0 <= i < |g.rows| && h.rows[i] == e;
      assert g.rows[i] in g.rows && g.rows[Moved(i, a, b)] in g.rows;
      assert Live(g.rows, e.slotId) && HasGroup(g.rows, e.splitGroupId);
    }
  }

  lemma MergeSucceeds(g: GridState, row: int)
    ensures Succeeds(g, Merge(g, row).grid)
  {
    var h := Merge(g, row).grid;
    if CanMerge(g.rows, row) {
      var group := g.rows[row].splitGroupId;
      WithoutMembers(g.rows[FirstOf(g.rows, group) + 1..], group);
    }
    forall e | e in h.rows ensures Inherits(g, e) {
      if e in g.rows {
        assert Live(g.rows, e.slotId) && HasGroup(g.rows, e.splitGroupId);
      } else {
        var p := FirstOf(g.rows, g.rows[row].splitGroupId);
        assert e.slotId == g.rows[p].slotId && g.rows[p] in g.rows;
        assert Live(g.rows, e.slotId);
      }
    }
  }

  lemma ShapeSucceeds(g: GridState, rows: seq<Entry>)
    requires |rows| == |g.rows| && forall i :: 0 <= i < |rows| ==> SameShape(g.rows[i], rows[i])
    ensures Succeeds(g, g.(rows := rows))
  {
    forall e | e in rows ensures Inherits(g, e) {
      var i :| 0 <= i < |rows| && rows[i] == e;
      assert g.rows[i] in g.rows;
      assert Live(g.rows, e.slotId) && HasGroup(g.rows, e.splitGroupId);
    }
  }

  lemma AbsorbSucceeds(g: GridState, byCid: map<string, CameraData>, order: seq<string>)
    requires Enumerates(order, byCid) && forall c :: c in byCid ==> byCid[c].cameraId == c
    ensures Succeeds(g, Absorb(g, byCid, order))
  {
    var refreshed := Refresh(g.rows, byCid);
    NewRowsAre(g.rows, order, byCid, g.nextSlotId);
    ShapeSucceeds(g, refreshed);
    forall e | e in Absorb(g, byCid, order).rows && e !in refreshed ensures Inherits(g, e) {
      assert e in NewRows(g.rows, order, byCid, g.nextSlotId);
    }
  }

  lemma StepSucceeds(g: GridState, op: Op, table: TileTable)
    requires op.Possible() && !op.ClearOp?
    ensures Succeeds(g, Step(g, op, table).grid)
  {
    SplitSucceeds(g, -1, 0, Col, false);
    match op
    case SwapOp(a, b) =>
      if CanSwap(g.rows, a, b) { SwapSucceeds(g, a, b); }
    case SplitOp(row, n, d) =>
      SplitSucceeds(g, row, n, DirectionOf(d), false);
    case MergeOp(row) =>
      MergeSucceeds(g, row);
    case AutoSplitOp(slotId) =>
      AutoSplitSucceeds(g, IndexBySlotId(g.rows, slotId), table);
    case StoreOp(snapshot, order) =>
      var absorbed := Absorb(g, ByCameraId(snapshot), order);
      SnapshotKeys(snapshot);
      AbsorbSucceeds(g, ByCameraId(snapshot), order);
      AutoSplitAllSucceeds(absorbed, Candidates(absorbed.rows), table);
      SucceedsTransitive(g, absorbed, Step(g, op, table).grid);
    case SetDataOp(row, edit) =>
      ShapeSucceeds(g, SetData(g, row, edit).grid.rows);
    case SensorOp(cid, info) =>
      ShapeSucceeds(g, UpdateSensorInfo(g, cid, info).grid.rows);
  }

  /** Until the next clear, a slot or group that was given out and is gone stays gone. */
  lemma {:induction false} RemovedIdsStayGone(g: GridState, ops: seq<Op>, table: TileTable)
    requires AllPossible(ops) && forall i :: 0 <= i < |ops| ==> !ops[i].ClearOp?
    ensures Succeeds(g, Run(g, ops, table))
    ensures var h := Run(g, ops, table);
            && (forall s :: s < g.nextSlotId && !Live(g.rows, s) ==> !Live(h.rows, s))
            && (forall q :: 1 <= q < g.nextSplitGroupId && !HasGroup(g.rows, q) ==> !HasGroup(h.rows, q))
  {
    if ops != [] {
      var before := Run(g, ops[..|ops| - 1], table);
      RemovedIdsStayGone(g, ops[..|ops| - 1], table);
      StepSucceeds(before, ops[|ops| - 1], table);
      SucceedsTransitive(g, before, Run(g, ops, table));
    } else {
      SplitSucceeds(g, -1, 0, Col, false);
    }
    forall e | e in Run(g, ops, table).rows ensures Inherits(g, e) {
    }
  }

  /** Slot ids never repeat, all lie below the counter, and marks only stand on live slots. */
  lemma SlotsDistinct(g: GridState, table: TileTable)
    requires Reachable(g, table)
    ensures forall i, j :: 0 <= i < j < |g.rows| ==> g.rows[i].slotId != g.rows[j].slotId
    ensures forall i :: 0 <= i < |g.rows| ==> 0 <= g.rows[i].slotId < g.nextSlotId
    ensures forall s :: s in g.autoSplitApplied ==> exists i :: 0 <= i < |g.rows| && g.rows[i].slotId == s
  {
    ReachableInv(g, table);
    forall i | 0 <= i < |g.rows| ensures RowOk(g.rows[i], g.nextSlotId, g.nextSplitGroupId) {
      assert g.rows[i] in g.rows;
    }
    forall i, j | 0 <= i < j < |g.rows| ensures g.rows[i].slotId != g.rows[j].slotId {
      assert PairOk(g.rows[i], g.rows[j]);
    }
    forall s | s in g.autoSplitApplied ensures exists i :: 0 <= i < |g.rows| && g.rows[i].slotId == s {
      var e :| e in g.rows && e.slotId == s;
    }
  }

  /** A swap leaves the slot column alone, and doing it twice is the identity. */
  lemma SwapTwice(g: GridState, a: int, b: int)
    ensures |Swap(g, a, b).grid.rows| == |g.rows|
    ensures forall i :: 0 <= i < |g.rows| ==> Swap(g, a, b).grid.rows[i].slotId == g.rows[i].slotId
    ensures Swap(Swap(g, a, b).grid, a, b).grid == g
  {
    if CanSwap(g.rows, a, b) {
      assert SwapRows(SwapRows(g.rows, a, b), a, b) == g.rows;
    }
  }

  /** The tiles of a split carry consecutive new slot ids and a group id no row ever had. */
  lemma SplitIdsAreNew(g: GridState, table: TileTable, row: int, n: nat, direction: SplitDirection, autoSplit: bool)
    requires Reachable(g, table) && CanSplit(g, row, n, direction)
    ensures var rows := SplitGrid(g, row, n, direction, autoSplit).rows;
            forall i :: row <= i < row + n ==>
              && rows[i].slotId == g.nextSlotId + i - row && !Live(g.rows, rows[i].slotId)
              && rows[i].splitGroupId == g.nextSplitGroupId && !HasGroup(g.rows, rows[i].splitGroupId)
  {
    ReachableInv(g, table);
  }

  // ------------------------------------------------------- store agreement

  /** The row says what the snapshot says; a camera the snapshot does not list is offline. */
  ghost predicate Agrees(e: Entry, byCid: map<string, CameraData>) {
    if e.cameraId !in byCid then !e.isOnline else
    && e.isOnline == byCid[e.cameraId].isOnline
    && e.cameraType == byCid[e.cameraId].cameraType
    && (e.splitCount == 1 ==> e.title == byCid[e.cameraId].title)
  }

  ghost predicate AllAgree(rows: seq<Entry>, byCid: map<string, CameraData>) {
    && (forall e :: e in rows ==> Agrees(e, byCid))
    && (forall c :: c in byCid ==> Represented(rows, c))
  }

  lemma SplitKeepsRepresented(g: GridState, row: int, n: nat, direction: SplitDirection, autoSplit: bool, c: string)
    requires CanSplit(g, row, n, direction) && Represented(g.rows, c)
    ensures Represented(SplitGrid(g, row, n, direction, autoSplit).rows, c)
  {
    var rows := SplitGrid(g, row, n, direction, autoSplit).rows;
    var i :| 0 <= i < |g.rows| && g.rows[i].cameraId == c;
    assert rows[if i <= row then i else i - 1 + n].cameraId == c;
  }

  lemma TileAgrees(original: Entry, firstSlot: int, group: int, k: nat, n: nat, direction: SplitDirection,
                   byCid: map<string, CameraData>)
    requires Agrees(original, byCid) && n >= 2
    ensures Agrees(Tile(original, firstSlot, group, k, n, direction), byCid)
  {
  }

  lemma SplitKeepsAgreement(g: GridState, row: int, n: int, direction: SplitDirection, autoSplit: bool,
                            byCid: map<string, CameraData>)
    requires AllAgree(g.rows, byCid)
    ensures AllAgree(Split(g, row, n, direction, autoSplit).grid.rows, byCid)
  {
    if CanSplit(g, row, n, direction) {
      var rows := SplitGrid(g, row, n, direction, autoSplit).rows;
      assert g.rows[row] in g.rows;
      forall c | c in byCid ensures Represented(rows, c) {
        SplitKeepsRepresented(g, row, n, direction, autoSplit, c);
      }
      forall e | e in rows ensures Agrees(e, byCid) {
        if e !in g.rows {
          var k :| 0 <= k < n && e == Tiles(g.rows[row], g.nextSlotId, g.nextSplitGroupId, n, direction)[k];
          TileAgrees(g.rows[row], g.nextSlotId, g.nextSplitGroupId, k, n, direction, byCid);
        }
      }
    }
  }

  lemma {:induction false} AutoSplitAllKeepsAgreement(g: GridState, slots: seq<int>, table: TileTable,
                                                      byCid: map<string, CameraData>)
    requires AllAgree(g.rows, byCid)
    ensures AllAgree(AutoSplitAll(g, slots, table).grid.rows, byCid)
    decreases |slots|
  {
    if slots != [] {
      var row := IndexBySlotId(g.rows, slots[0]);
      if 0 <= row < |g.rows| {
        SplitKeepsAgreement(g, row, table(g.rows[row].cameraId), Col, true, byCid);
      }
      AutoSplitAllKeepsAgreement(AutoSplitSlot(g, slots[0], table).grid, slots[1..], table, byCid);
    }
  }

  lemma RefreshedAgrees(e: Entry, byCid: map<string, CameraData>)
    ensures Agrees(RefreshRow(e, byCid), byCid)
  {
  }

  lemma AbsorbRepresents(g: GridState, byCid: map<string, CameraData>, order: seq<string>, c: string)
    requires Enumerates(order, byCid) && (forall d :: d in byCid ==> byCid[d].cameraId == d) && c in byCid
    ensures Represented(Absorb(g, byCid, order).rows, c)
  {
    var rows, added := Absorb(g, byCid, order).rows, NewRows(g.rows, order, byCid, g.nextSlotId);
    if Represented(g.rows, c) {
      var i :| 0 <= i < |g.rows| && g.rows[i].cameraId == c;
      assert rows[i].cameraId == c;
    } else {
      NewRowsAre(g.rows, order, byCid, g.nextSlotId);
      assert c in order;
      var i :| 0 <= i < |added| && added[i].cameraId == c;
      assert rows[|g.rows| + i].cameraId == c;
    }
  }

  lemma AbsorbAgrees(g: GridState, byCid: map<string, CameraData>, order: seq<string>)
    requires Enumerates(order, byCid) && forall c :: c in byCid ==> byCid[c].cameraId == c
    ensures AllAgree(Absorb(g, byCid, order).rows, byCid)
  {
    var rows, added := Absorb(g, byCid, order).rows, NewRows(g.rows, order, byCid, g.nextSlotId);
    NewRowsAre(g.rows, order, byCid, g.nextSlotId);
    forall e | e in rows ensures Agrees(e, byCid) {
      var i :| 0 <= i < |rows| && rows[i] == e;
      if i < |g.rows| {
        RefreshedAgrees(g.rows[i], byCid);
      } else {
        assert e == added[i - |g.rows|];
      }
    }
    forall c | c in byCid ensures Represented(rows, c) {
      AbsorbRepresents(g, byCid, order, c);
    }
  }

  /** After a store update every row agrees with the snapshot and every camera of the snapshot has a row. */
  lemma StoreUpdateAgrees(g: GridState, snapshot: seq<CameraData>, order: seq<string>, table: TileTable)
    requires Enumerates(order, ByCameraId(snapshot))
    ensures AllAgree(StoreUpdated(g, snapshot, order, table).grid.rows, ByCameraId(snapshot))
  {
    var byCid := ByCameraId(snapshot);
    var absorbed := Absorb(g, byCid, order);
    SnapshotKeys(snapshot);
    AbsorbAgrees(g, byCid, order);
    AutoSplitAllKeepsAgreement(absorbed, Candidates(absorbed.rows), table, byCid);
  }

  /** An unsplit online row that the auto-split pass has nothing left to do for. */
  ghost predicate Settled(g: GridState, e: Entry, table: TileTable) {
    e.splitCount != 1 || !e.isOnline || e.slotId in g.autoSplitApplied || !ValidSplit(table(e.cameraId), Col)
  }

  /** The slots still to be visited are the only unsettled ones. */
  ghost predicate SettledExcept(g: GridState, slots: seq<int>, table: TileTable) {
    forall e :: e in g.rows && !Settled(g, e, table) ==> e.slotId in slots
  }

  lemma SlotAt(g: GridState, i: int)
    requires Inv(g) && 0 <= i < |g.rows|
    ensures IndexBySlotId(g.rows, g.rows[i].slotId) == i
  {
  }

  lemma UnsettledSplits(g: GridState, i: int, table: TileTable)
    requires Inv(g) && 0 <= i < |g.rows| && !Settled(g, g.rows[i], table)
    ensures CanSplit(g, i, table(g.rows[i].cameraId), Col)
    ensures AutoSplitSlot(g, g.rows[i].slotId, table).grid == SplitGrid(g, i, table(g.rows[i].cameraId), Col, true)
  {
    SlotAt(g, i);
  }

  /** A split leaves nothing of its row unsettled, and settles no other row. */
  lemma SplitSettles(g: GridState, i: int, n: nat, table: TileTable, e: Entry)
    requires Inv(g) && CanSplit(g, i, n, Col)
    requires var h := SplitGrid(g, i, n, Col, true); e in h.rows && !Settled(h, e, table)
    ensures e in g.rows && e.slotId != g.rows[i].slotId && !Settled(g, e, table)
  {
    PairsOfRemoval(g.rows, i);
    assert e in g.rows[..i] + g.rows[i + 1..];
  }

  lemma AutoSplitSettles(g: GridState, slots: seq<int>, table: TileTable)
    requires Inv(g) && slots != [] && SettledExcept(g, slots, table)
    ensures SettledExcept(AutoSplitSlot(g, slots[0], table).grid, slots[1..], table)
  {
    var h := AutoSplitSlot(g, slots[0], table).grid;
    var row := IndexBySlotId(g.rows, slots[0]);
    forall e | e in h.rows && !Settled(h, e, table) ensures e.slotId in slots[1..] {
      if h == g {
        var i :| 0 <= i < |g.rows| && g.rows[i] == e;
        if e.slotId == slots[0] {
          UnsettledSplits(g, i, table);
          assert false;
        }
      } else {
        SplitSettles(g, row, table(g.rows[row].cameraId), table, e);
      }
    }
  }

  lemma {:induction false} AutoSplitAllSettles(g: GridState, slots: seq<int>, table: TileTable)
    requires Inv(g) && SettledExcept(g, slots, table)
    ensures SettledExcept(AutoSplitAll(g, slots, table).grid, [], table)
    decreases |slots|
  {
    if slots != [] {
      AutoSplitSettles(g, slots, table);
      AutoSplitKeepsInv(g, IndexBySlotId(g.rows, slots[0]), table);
      AutoSplitAllSettles(AutoSplitSlot(g, slots[0], table).grid, slots[1..], table);
    }
  }

  lemma {:induction false} SettledStays(g: GridState, slots: seq<int>, table: TileTable)
    requires SettledExcept(g, [], table)
    ensures AutoSplitAll(g, slots, table) == Outcome(g, true, [])
    decreases |slots|
  {
    if slots != [] {
      var row := IndexBySlotId(g.rows, slots[0]);
      assert 0 <= row < |g.rows| ==> g.rows[row] in g.rows;
      SettledStays(g, slots[1..], table);
    }
  }

  lemma {:induction false} CandidateListed(rows: seq<Entry>, e: Entry)
    requires e in rows && e.splitCount == 1 && e.isOnline
    ensures e.slotId in Candidates(rows)
  {
    var init := rows[..|rows| - 1];
    assert rows == init + [rows[|rows| - 1]];
    if e in init {
      CandidateListed(init, e);
    }
  }

  lemma CandidatesCover(g: GridState, table: TileTable)
    ensures SettledExcept(g, Candidates(g.rows), table)
  {
    forall e | e in g.rows && !Settled(g, e, table) ensures e.slotId in Candidates(g.rows) {
      CandidateListed(g.rows, e);
    }
  }

  lemma AgreeingAbsorbsNothing(g: GridState, byCid: map<string, CameraData>, order: seq<string>)
    requires AllAgree(g.rows, byCid) && Enumerates(order, byCid)
    ensures Absorb(g, byCid, order) == g
  {
    assert forall i :: 0 <= i < |g.rows| ==> g.rows[i] in g.rows;
    assert Refresh(g.rows, byCid) == g.rows;
    NothingNew(g.rows, order, byCid, g.nextSlotId);
  }

  lemma {:induction false} NothingNew(rows: seq<Entry>, order: seq<string>, byCid: map<string, CameraData>, firstSlot: int)
    requires forall c :: c in order ==> c in byCid && Represented(rows, c)
    ensures NewRows(rows, order, byCid, firstSlot) == []
  {
    if order != [] {
      NothingNew(rows, order[..|order| - 1], byCid, firstSlot);
    }
  }

  /** Applying the same snapshot again changes nothing at all, whatever order the hash iterates in. */
  lemma StoreUpdateIdempotent(g: GridState, snapshot: seq<CameraData>, order: seq<string>, order': seq<string>, table: TileTable)
    requires Reachable(g, table)
    requires Enumerates(order, ByCameraId(snapshot)) && Enumerates(order', ByCameraId(snapshot))
    ensures var once := StoreUpdated(g, snapshot, order, table).grid;
            StoreUpdated(once, snapshot, order', table).grid == once
  {
    ReachableInv(g, table);
    var byCid := ByCameraId(snapshot);
    var absorbed := Absorb(g, byCid, order);
    var once := StoreUpdated(g, snapshot, order, table).grid;
    StoreUpdateAgrees(g, snapshot, order, table);
    AgreeingAbsorbsNothing(once, byCid, order');
    SnapshotKeys(snapshot);
    AbsorbKeepsInv(g, byCid, order);
    CandidatesCover(absorbed, table);
    AutoSplitAllSettles(absorbed, Candidates(absorbed.rows), table);
    SettledStays(once, Candidates(once.rows), table);
  }
}
