/** The slot grid as the object the program keeps: each method updates the fields in place,
    and is proved to do what the value-level operation of CameraGrid says. */
module CameraModel {
  import opened Strings
  import opened CropGeometry
  import opened CameraGrid
  import opened CameraGridInvariant

  class CameraModel {
    var cameras: seq<Entry>
    var nextSlotId: int
    var nextSplitGroupId: int
    var autoSplitAppliedSlotIds: set<int>
    /** Every signal emitted so far, in order. */
    var emitted: seq<Signal>
    /** The deployment's camera id to tile count table. */
    const autoSplitTileCount: TileTable

    constructor (table: TileTable)
      ensures State() == EMPTY_GRID && emitted == [] && autoSplitTileCount == table
    {
      cameras, nextSlotId, nextSplitGroupId, autoSplitAppliedSlotIds := [], 0, 1, {};
      emitted := [];
      autoSplitTileCount := table;
    }

    ghost function State(): GridState
      reads this
    {
      GridState(cameras, nextSlotId, nextSplitGroupId, autoSplitAppliedSlotIds)
    }

    /** The object went from `before` to `o.grid`, emitting `o.signals` after what was there. */
    ghost predicate Did(o: Outcome, emittedBefore: seq<Signal>)
      reads this
    {
      State() == o.grid && emitted == emittedBefore + o.signals
    }

    method SwapSlots(a: int, b: int)
      modifies this
      ensures Did(Swap(old(State()), a, b), old(emitted))
    {
      if a < 0 || b < 0 || a >= |cameras| || b >= |cameras| || a == b {
        return;
      }
      var x, y := cameras[a], cameras[b];
      var x' := x.(title := y.title, cameraId := y.cameraId, isOnline := y.isOnline, cameraType := y.cameraType,
                   description := y.description, splitCount := y.splitCount, splitDirection := y.splitDirection,
                   cropRect := y.cropRect, splitGroupId := y.splitGroupId, splitIndex := y.splitIndex,
                   width := y.width, height := y.height);
      var y' := y.(title := x.title, cameraId := x.cameraId, isOnline := x.isOnline, cameraType := x.cameraType,
                   description := x.description, splitCount := x.splitCount, splitDirection := x.splitDirection,
                   cropRect := x.cropRect, splitGroupId := x.splitGroupId, splitIndex := x.splitIndex,
                   width := x.width, height := x.height);
      cameras := cameras[a := x'][b := y'];
      EmitSlotsUpdated();
      emitted := emitted + [DataChanged(a, SWAP_ROLES)];
      emitted := emitted + [DataChanged(b, SWAP_ROLES)];
    }

    method SplitSlotAtIndex(row: int, tileCount: int, direction: SplitDirection, autoSplit: bool) returns (ok: bool)
      modifies this
      ensures Did(Split(old(State()), row, tileCount, direction, autoSplit), old(emitted))
      ensures ok == Split(old(State()), row, tileCount, direction, autoSplit).ok
    {
      if row < 0 || row >= |cameras| {
        return false;
      }
      var validCount := false;
      if direction == Col { validCount := tileCount >= 2 && tileCount <= 4; }
      if direction == Row { validCount := tileCount == 2 || tileCount == 3; }
      if direction == Grid { validCount := tileCount == 4; }
      if !validCount {
        return false;
      }
      if cameras[row].splitCount != 1 {
        return false;
      }
      if !cameras[row].isOnline {
        return false;
      }
      var original := cameras[row];
      var group := nextSplitGroupId;
      nextSplitGroupId := nextSplitGroupId + 1;
      cameras := cameras[..row] + cameras[row + 1..];
      InsertTiles(row, original, group, tileCount, direction, autoSplit);
      assert old(cameras)[..row] == cameras[..row];
      autoSplitAppliedSlotIds := autoSplitAppliedSlotIds - {original.slotId};
      EmitSlotsUpdated();
      return true;
    }

    method InsertTiles(row: nat, original: Entry, group: int, tileCount: nat, direction: SplitDirection, autoSplit: bool)
      requires row <= |cameras|
      modifies this`cameras, this`nextSlotId, this`autoSplitAppliedSlotIds
      ensures cameras == old(cameras)[..row] + Tiles(original, old(nextSlotId), group, tileCount, direction) + old(cameras)[row..]
      ensures nextSlotId == old(nextSlotId) + tileCount
      ensures autoSplitAppliedSlotIds
              == old(autoSplitAppliedSlotIds) + (if autoSplit then NewSlots(old(nextSlotId), tileCount) else {})
    {
      ghost var rows, first := cameras, nextSlotId;
      ghost var tiles := Tiles(original, first, group, tileCount, direction);
      var i := 0;
      while i < tileCount
        invariant 0 <= i <= tileCount
        invariant cameras == rows[..row] + tiles[..i] + rows[row..]
        invariant nextSlotId == first + i
        invariant autoSplitAppliedSlotIds == old(autoSplitAppliedSlotIds) + (if autoSplit then NewSlots(first, i) else {})
      {
        var e := MakeTile(original, nextSlotId, group, i, tileCount, direction);
        nextSlotId := nextSlotId + 1;
        assert e == tiles[i];
        InsertAfter(rows[..row], tiles[..i], rows[row..], e);
        cameras := cameras[..row + i] + [e] + cameras[row + i..];
        assert tiles[..i] + [e] == tiles[..i + 1];
        if autoSplit {
          autoSplitAppliedSlotIds := autoSplitAppliedSlotIds + {e.slotId};
        }
        i := i + 1;
      }
      assert tiles[..i] == tiles;
    }

    method MergeGroupByIndex(row: int) returns (ok: bool)
      modifies this
      ensures Did(Merge(old(State()), row), old(emitted))
      ensures ok == Merge(old(State()), row).ok
    {
      if row < 0 || row >= |cameras| {
        return false;
      }
      var target := cameras[row];
      if target.splitCount <= 1 || target.splitGroupId < 0 {
        return false;
      }
      var groupIndices := GroupIndices(cameras, target.splitGroupId);
      if |groupIndices| < 2 {
        return false;
      }
      MergeListed(target.splitGroupId, groupIndices);
      return true;
    }

    /** Keeps the first row of the group as the merged one. */
    method MergeListed(group: int, groupIndices: seq<int>)
      requires |groupIndices| >= 1 && ListsGroup(cameras, group, groupIndices, |cameras|)
      modifies this`cameras, this`autoSplitAppliedSlotIds, this`emitted
      ensures FirstOf(old(cameras), group) < |old(cameras)|
      ensures cameras == MergeRows(old(cameras), group)
      ensures autoSplitAppliedSlotIds == old(autoSplitAppliedSlotIds) - RemovedSlots(old(cameras), group)
      ensures emitted == old(emitted) + ([DataChanged(FirstOf(old(cameras), group), ALL_ROLES)] + SlotSignals(cameras))
    {
      Collapse(group, groupIndices);
      AnnounceMerge(groupIndices[0]);
    }

    method Collapse(group: int, groupIndices: seq<int>)
      requires |groupIndices| >= 1 && ListsGroup(cameras, group, groupIndices, |cameras|)
      modifies this`cameras, this`autoSplitAppliedSlotIds
      ensures groupIndices[0] == FirstOf(old(cameras), group) < |old(cameras)|
      ensures cameras == MergeRows(old(cameras), group)
      ensures autoSplitAppliedSlotIds == old(autoSplitAppliedSlotIds) - RemovedSlots(old(cameras), group)
    {
      RemoveOthers(group, groupIndices);
      TrimmedMerged(old(cameras), group);
      MergeInPlace(groupIndices[0]);
    }

    method AnnounceMerge(firstPos: int)
      modifies this`emitted
      ensures emitted == old(emitted) + ([DataChanged(firstPos, ALL_ROLES)] + SlotSignals(cameras))
    {
      emitted := emitted + [DataChanged(firstPos, ALL_ROLES)];
      EmitSlotsUpdated();
    }

    method MergeInPlace(pos: int)
      requires 0 <= pos < |cameras|
      modifies this`cameras
      ensures cameras == old(cameras)[pos := MergedEntry(old(cameras)[pos])]
    {
      var merged := cameras[pos];
      var newTitle := merged.title;
      var marker := LastIndexOf(newTitle, " [");
      if marker > 0 && newTitle[|newTitle| - 1] == ']' {
        newTitle := newTitle[..marker];
      }
      merged := merged.(title := newTitle, splitCount := 1, cropRect := FULL_FRAME,
                        splitGroupId := -1, splitIndex := 0, splitDirection := Col);
      cameras := cameras[pos := merged];
    }

    /** Removes the group's rows but the first, from the last one backwards. */
    method RemoveOthers(group: int, groupIndices: seq<int>)
      requires |groupIndices| >= 1 && ListsGroup(cameras, group, groupIndices, |cameras|)
      modifies this`cameras, this`autoSplitAppliedSlotIds
      ensures groupIndices[0] == FirstOf(old(cameras), group) < |old(cameras)|
      ensures cameras == Trimmed(old(cameras), group, groupIndices[0])
      ensures autoSplitAppliedSlotIds == old(autoSplitAppliedSlotIds) - RemovedSlots(old(cameras), group)
    {
      ghost var rows, marked := cameras, autoSplitAppliedSlotIds;
      NothingToTrim(rows, marked, group, groupIndices);
      RemoveBackwards(rows, marked, group, groupIndices);
      FirstIsListedFirst(rows, group, groupIndices);
    }

    method RemoveBackwards(ghost rows: seq<Entry>, ghost marked: set<int>, group: int, groupIndices: seq<int>)
      requires |groupIndices| >= 1 && ListsGroup(rows, group, groupIndices, |rows|)
      requires (cameras, autoSplitAppliedSlotIds) == TrimmedTo(rows, marked, group, groupIndices[|groupIndices| - 1])
      modifies this`cameras, this`autoSplitAppliedSlotIds
      ensures (cameras, autoSplitAppliedSlotIds) == TrimmedTo(rows, marked, group, groupIndices[0])
    {
      var i := |groupIndices| - 1;
      while i > 0
        invariant 0 <= i < |groupIndices|
        invariant (cameras, autoSplitAppliedSlotIds) == TrimmedTo(rows, marked, group, groupIndices[i])
      {
        RemoveListed(rows, marked, group, groupIndices, i);
        i := i - 1;
      }
    }

    method RemoveListed(ghost rows: seq<Entry>, ghost marked: set<int>, group: int, groupIndices: seq<int>, i: int)
      requires ListsGroup(rows, group, groupIndices, |rows|) && 0 < i < |groupIndices|
      requires (cameras, autoSplitAppliedSlotIds) == TrimmedTo(rows, marked, group, groupIndices[i])
      modifies this`cameras, this`autoSplitAppliedSlotIds
      ensures (cameras, autoSplitAppliedSlotIds) == TrimmedTo(rows, marked, group, groupIndices[i - 1])
    {
      RemoveRow(groupIndices[i]);
      TrimBoth(rows, marked, group, groupIndices, i);
    }

    method RemoveRow(pos: int)
      requires 0 <= pos < |cameras|
      modifies this`cameras, this`autoSplitAppliedSlotIds
      ensures cameras == old(cameras)[..pos] + old(cameras)[pos + 1..]
      ensures autoSplitAppliedSlotIds == old(autoSplitAppliedSlotIds) - {old(cameras)[pos].slotId}
    {
      autoSplitAppliedSlotIds := autoSplitAppliedSlotIds - {cameras[pos].slotId};
      cameras := cameras[..pos] + cameras[pos + 1..];
    }

    method AutoSplitForIndex(row: int) returns (ok: bool)
      modifies this
      ensures Did(AutoSplit(old(State()), row, autoSplitTileCount), old(emitted))
      ensures ok == AutoSplit(old(State()), row, autoSplitTileCount).ok
    {
      if row < 0 || row >= |cameras| {
        return false;
      }
      var entry := cameras[row];
      if !entry.isOnline || entry.splitCount != 1 {
        return false;
      }
      if entry.slotId in autoSplitAppliedSlotIds {
        return false;
      }
      var tileCount := autoSplitTileCount(entry.cameraId);
      ok := SplitSlotAtIndex(row, tileCount, Col, true);
    }

    method RowForSlot(slotId: int) returns (p: int)
      ensures p == IndexBySlotId(cameras, slotId)
    {
      var i := 0;
      while i < |cameras|
        invariant 0 <= i <= |cameras|
        invariant forall j :: 0 <= j < i ==> cameras[j].slotId != slotId
      {
        if cameras[i].slotId == slotId {
          return i;
        }
        i := i + 1;
      }
      return -1;
    }

    method ApplyAutoSplitForSlot(slotId: int) returns (ok: bool)
      modifies this
      ensures Did(AutoSplitSlot(old(State()), slotId, autoSplitTileCount), old(emitted))
      ensures ok == AutoSplitSlot(old(State()), slotId, autoSplitTileCount).ok
    {
      var row := RowForSlot(slotId);
      ok := AutoSplitForIndex(row);
    }

    method SplitSlot(row: int, tileCount: int, direction: int)
      modifies this
      ensures Did(Split(old(State()), row, tileCount, DirectionOf(direction), false), old(emitted))
    {
      var dir := Col;
      if direction == 1 { dir := Row; }
      if direction == 2 { dir := Grid; }
      var _ := SplitSlotAtIndex(row, tileCount, dir, false);
    }

    method MergeSlots(row: int)
      modifies this
      ensures Did(Merge(old(State()), row), old(emitted))
    {
      var _ := MergeGroupByIndex(row);
    }

    method ClearAll()
      modifies this
      ensures Did(CameraGrid.ClearAll(old(State())), old(emitted))
    {
      cameras := [];
      autoSplitAppliedSlotIds := {};
      nextSlotId := 0;
      nextSplitGroupId := 1;
      EmitSlotsUpdated();
    }

    /** The hash iterates in some order of its own, which the caller learns from `order`. */
    method OnStoreUpdated(snapshot: seq<CameraData>) returns (order: seq<string>)
      modifies this
      ensures Enumerates(order, ByCameraId(snapshot))
      ensures Did(StoreUpdated(old(State()), snapshot, order, autoSplitTileCount), old(emitted))
    {
      var byCid := CollectSnapshot(snapshot);
      SnapshotKeys(snapshot);
      order := AbsorbSnapshot(byCid);
      ghost var absorbed := State();
      var candidates := CollectCandidates();
      AutoSplitCandidates(candidates);
      Regroup(old(emitted), RefreshSignals(old(cameras), byCid, |old(cameras)|) + SlotSignals(absorbed.rows),
              AutoSplitAll(absorbed, candidates, autoSplitTileCount).signals);
    }

    method AbsorbSnapshot(byCid: map<string, CameraData>) returns (order: seq<string>)
      requires forall c :: c in byCid ==> byCid[c].cameraId == c
      modifies this
      ensures Enumerates(order, byCid)
      ensures State() == Absorb(old(State()), byCid, order)
      ensures emitted == old(emitted) + (RefreshSignals(old(cameras), byCid, |old(cameras)|) + SlotSignals(cameras))
    {
      ghost var before := cameras;
      var represented := RefreshRows(byCid);
      order := AppendMissing(before, byCid, represented);
      EmitSlotsUpdated();
    }

    method AutoSplitCandidates(candidates: seq<int>)
      modifies this
      ensures Did(AutoSplitAll(old(State()), candidates, autoSplitTileCount), old(emitted))
    {
      ghost var g, was := State(), emitted;
      var i := 0;
      while i < |candidates|
        invariant 0 <= i <= |candidates|
        invariant Did(AutoSplitAll(g, candidates[..i], autoSplitTileCount), was)
      {
        assert candidates[..i + 1] == candidates[..i] + [candidates[i]];
        AutoSplitAllStep(g, candidates[..i], candidates[i], autoSplitTileCount);
        AutoSplitNext(AutoSplitAll(g, candidates[..i], autoSplitTileCount), was, candidates[i]);
        i := i + 1;
      }
      assert candidates[..i] == candidates;
    }

    method AutoSplitNext(ghost o: Outcome, ghost was: seq<Signal>, slot: int)
      requires Did(o, was)
      modifies this
      ensures var one := AutoSplitSlot(o.grid, slot, autoSplitTileCount);
              Did(Outcome(one.grid, true, o.signals + one.signals), was)
    {
      var _ := ApplyAutoSplitForSlot(slot);
      Regroup(was, o.signals, AutoSplitSlot(o.grid, slot, autoSplitTileCount).signals);
    }

    method RefreshRows(byCid: map<string, CameraData>) returns (represented: set<string>)
      modifies this`cameras, this`emitted
      ensures cameras == Refresh(old(cameras), byCid)
      ensures emitted == old(emitted) + RefreshSignals(old(cameras), byCid, |old(cameras)|)
      ensures forall c :: c in represented <==> c in byCid && Represented(old(cameras), c)
    {
      ghost var rows, was := cameras, emitted;
      represented := {};
      var i := 0;
      while i < |cameras|
        invariant RefreshedTo(rows, was, byCid, i)
        invariant forall c :: c in represented <==> c in byCid && Represented(rows[..i], c)
        decreases |rows| - i
      {
        var listed := RefreshAt(i, byCid, rows, was);
        if listed {
          represented := represented + {cameras[i].cameraId};
        }
        RepresentedNext(rows, i);
        i := i + 1;
      }
      assert rows[..i] == rows;
    }

    /** Rows below `i` are brought up to date and announced. */
    ghost predicate RefreshedTo(rows: seq<Entry>, was: seq<Signal>, byCid: map<string, CameraData>, i: int)
      reads this
    {
      && 0 <= i <= |rows| == |cameras|
      && (forall j :: 0 <= j < i ==> cameras[j] == RefreshRow(rows[j], byCid))
      && (forall j :: i <= j < |rows| ==> cameras[j] == rows[j])
      && emitted == was + RefreshSignals(rows, byCid, i)
    }

    method RefreshAt(i: int, byCid: map<string, CameraData>, ghost rows: seq<Entry>, ghost was: seq<Signal>)
      returns (listed: bool)
      requires RefreshedTo(rows, was, byCid, i) && i < |rows|
      modifies this`cameras, this`emitted
      ensures RefreshedTo(rows, was, byCid, i + 1)
      ensures cameras[i].cameraId == rows[i].cameraId && (listed <==> rows[i].cameraId in byCid)
    {
      var entry, signals := RefreshEntry(i, cameras[i], byCid);
      listed := entry.cameraId in byCid;
      cameras := cameras[i := entry];
      emitted := emitted + signals;
    }

    method AppendMissing(ghost before: seq<Entry>, byCid: map<string, CameraData>, represented: set<string>)
      returns (order: seq<string>)
      requires forall c :: c in byCid ==> byCid[c].cameraId == c
      requires forall c :: c in represented <==> c in byCid && Represented(before, c)
      modifies this`cameras, this`nextSlotId
      ensures Enumerates(order, byCid)
      ensures var added := NewRows(before, order, byCid, old(nextSlotId));
              cameras == old(cameras) + added && nextSlotId == old(nextSlotId) + |added|
    {
      var newEntries: seq<Entry> := [];
      var left := byCid.Keys;
      order := [];
      while left != {}
        invariant left <= byCid.Keys
        invariant forall c :: c in order <==> c in byCid && c !in left
        invariant forall i, j :: 0 <= i < j < |order| ==> order[i] != order[j]
        invariant newEntries == NewRows(before, order, byCid, old(nextSlotId))
        invariant nextSlotId == old(nextSlotId) + |newEntries|
        invariant cameras == old(cameras)
        decreases left
      {
        var cid :| cid in left;
        left := left - {cid};
        assert (order + [cid])[..|order|] == order;
        order := order + [cid];
        if cid !in represented {
          var snap := byCid[cid];
          var e := DEFAULT_ENTRY.(slotId := nextSlotId, title := snap.title, cameraId := cid,
                                  isOnline := snap.isOnline, cameraType := snap.cameraType);
          nextSlotId := nextSlotId + 1;
          newEntries := newEntries + [e];
        }
      }
      if newEntries != [] {
        cameras := cameras + newEntries;
      }
    }

    method CollectCandidates() returns (slots: seq<int>)
      ensures slots == Candidates(cameras)
    {
      slots := [];
      var i := 0;
      while i < |cameras|
        invariant 0 <= i <= |cameras|
        invariant slots == Candidates(cameras[..i])
      {
        assert cameras[..i + 1][..i] == cameras[..i];
        if cameras[i].splitCount == 1 && cameras[i].isOnline {
          slots := slots + [cameras[i].slotId];
        }
        i := i + 1;
      }
      assert cameras[..i] == cameras;
    }

    method EmitSlotsUpdated()
      modifies this`emitted
      ensures emitted == old(emitted) + SlotSignals(cameras)
    {
      var slotList: seq<SlotInfo> := [];
      var cids: seq<string> := [];
      var i := 0;
      while i < |cameras|
        invariant 0 <= i <= |cameras|
        invariant slotList == SlotList(cameras[..i])
        invariant cids == DistinctIds(cameras[..i])
      {
        assert cameras[..i + 1][..i] == cameras[..i];
        slotList := slotList + [SlotInfo(cameras[i].slotId, cameras[i].cameraId)];
        if cameras[i].cameraId != "" && cameras[i].cameraId !in cids {
          cids := cids + [cameras[i].cameraId];
        }
        i := i + 1;
      }
      assert cameras[..i] == cameras;
      emitted := emitted + [SlotsUpdated(slotList)] + [CameraIdsUpdated(cids)];
    }

    method UpdateSensorInfo(cid: string, info: DeviceInfo)
      modifies this
      ensures Did(CameraGrid.UpdateSensorInfo(old(State()), cid, info), old(emitted))
    {
      ghost var rows := cameras;
      var updated := false;
      var i := 0;
      while i < |cameras|
        invariant 0 <= i <= |cameras| == |rows|
        invariant forall j :: 0 <= j < |rows| ==> cameras[j] == if j < i then SenseRow(rows[j], cid, info) else rows[j]
        invariant updated <==> exists j :: 0 <= j < i && rows[j].cameraId == cid
        invariant State() == old(State()).(rows := cameras) && emitted == old(emitted)
      {
        if cameras[i].cameraId == cid {
          cameras := cameras[i := cameras[i].(deviceInfo := info)];
          updated := true;
        }
        i := i + 1;
      }
      if updated {
        emitted := emitted + [SensorDataUpdated(cid)];
      }
    }

    method SetData(row: int, edit: Edit) returns (ok: bool)
      modifies this
      ensures Did(CameraGrid.SetData(old(State()), row, edit), old(emitted))
      ensures ok == CameraGrid.SetData(old(State()), row, edit).ok
    {
      if row < 0 || row >= |cameras| {
        return false;
      }
      var cam := cameras[row];
      match edit {
        case EditTitle(t) => cam := cam.(title := t);
        case EditOnline(o) => cam := cam.(isOnline := o);
        case EditCameraType(t) => cam := cam.(cameraType := t);
      }
      cameras := cameras[row := cam];
      emitted := emitted + [DataChanged(row, {EditedRole(edit)})];
      return true;
    }
  }

  // ------------------------------------------------------ loops without state

  method RefreshEntry(i: int, before: Entry, byCid: map<string, CameraData>) returns (entry: Entry, signals: seq<Signal>)
    ensures entry == RefreshRow(before, byCid)
    ensures signals == RowSignals(i, before, entry)
  {
    entry := before;
    var changedRoles: set<Role> := {};
    signals := [];
    if entry.cameraId !in byCid {
      if entry.isOnline {
        entry := entry.(isOnline := false);
        changedRoles := changedRoles + {IsOnlineRole};
      }
    } else {
      var snap := byCid[entry.cameraId];
      if entry.isOnline != snap.isOnline {
        var wasOffline := !entry.isOnline;
        entry := entry.(isOnline := snap.isOnline);
        changedRoles := changedRoles + {IsOnlineRole};
        if wasOffline && snap.isOnline {
          signals := signals + [CameraOnline(entry.cameraId)];
        }
      }
      if entry.cameraType != snap.cameraType {
        entry := entry.(cameraType := snap.cameraType);
        changedRoles := changedRoles + {CameraTypeRole};
      }
      if entry.splitCount == 1 {
        if entry.title != snap.title {
          entry := entry.(title := snap.title);
          changedRoles := changedRoles + {TitleRole};
        }
      }
    }
    if changedRoles != {} {
      signals := signals + [DataChanged(i, changedRoles)];
    }
    assert changedRoles == ChangedRoles(before, entry);
  }

  method CollectSnapshot(snapshot: seq<CameraData>) returns (byCid: map<string, CameraData>)
    ensures byCid == ByCameraId(snapshot)
  {
    byCid := map[];
    var i := 0;
    while i < |snapshot|
      invariant 0 <= i <= |snapshot|
      invariant byCid == ByCameraId(snapshot[..i])
    {
      assert snapshot[..i + 1][..i] == snapshot[..i];
      if snapshot[i].cameraId != "" {
        byCid := byCid[snapshot[i].cameraId := snapshot[i]];
      }
      i := i + 1;
    }
    assert snapshot[..i] == snapshot;
  }

  /** `indices` lists, in ascending order, the rows of `group` among the first `n`. */
  ghost predicate ListsGroup(rows: seq<Entry>, group: int, indices: seq<int>, n: int) {
    && n <= |rows|
    && (forall i :: 0 <= i < |indices| ==> 0 <= indices[i] < n)
    && (forall i, j :: 0 <= i < j < |indices| ==> indices[i] < indices[j])
    && (forall q :: 0 <= q < n ==> (q in indices <==> rows[q].splitGroupId == group))
  }

  method MakeTile(original: Entry, slotId: int, group: int, i: nat, tileCount: nat, direction: SplitDirection)
    returns (e: Entry)
    requires i < tileCount
    ensures e == Tile(original, slotId - i, group, i, tileCount, direction)
  {
    e := DEFAULT_ENTRY.(
      slotId := slotId,
      cameraId := original.cameraId,
      title := original.title + " [" + Digit(i + 1) + "/" + Digit(tileCount) + "]",
      isOnline := original.isOnline,
      cameraType := original.cameraType,
      splitCount := tileCount,
      splitDirection := direction,
      splitGroupId := group,
      splitIndex := i,
      cropRect := ComputeCropRect(i, tileCount, direction),
      description := original.description);
    assert e.title == original.title + TileMarker(i, tileCount);
  }

  lemma InsertAfter(pre: seq<Entry>, mid: seq<Entry>, post: seq<Entry>, e: Entry)
    ensures var s, at := pre + mid + post, |pre| + |mid|;
            s[..at] + [e] + s[at..] == pre + (mid + [e]) + post
  {
    var s, at := pre + mid + post, |pre| + |mid|;
    assert s[..at] == pre + mid && s[at..] == post;
  }

  method GroupIndices(rows: seq<Entry>, group: int) returns (indices: seq<int>)
    ensures ListsGroup(rows, group, indices, |rows|)
    ensures |indices| + |Without(rows, group)| == |rows|
  {
    indices := [];
    var i := 0;
    while i < |rows|
      invariant 0 <= i <= |rows|
      invariant ListsGroup(rows, group, indices, i)
      invariant |indices| + |Without(rows[..i], group)| == i
    {
      WithoutNext(rows, i, group);
      ListsNext(rows, group, indices, i);
      if rows[i].splitGroupId == group {
        indices := indices + [i];
      }
      i := i + 1;
    }
    assert rows[..i] == rows;
  }

  lemma WithoutNext(rows: seq<Entry>, i: nat, group: int)
    requires i < |rows|
    ensures |Without(rows[..i + 1], group)|
         == |Without(rows[..i], group)| + if rows[i].splitGroupId == group then 0 else 1
  {
    assert rows[..i + 1] == rows[..i] + [rows[i]];
    WithoutConcat(rows[..i], [rows[i]], group);
  }

  lemma ListsNext(rows: seq<Entry>, group: int, indices: seq<int>, i: nat)
    requires i < |rows| && ListsGroup(rows, group, indices, i)
    ensures ListsGroup(rows, group, if rows[i].splitGroupId == group then indices + [i] else indices, i + 1)
  {
  }

  ghost function SlotsOf(rows: seq<Entry>, group: int): set<int> {
    set e | e in rows && e.splitGroupId == group :: e.slotId
  }

  /** The rows with the group's members after row `q` taken out. */
  ghost function Trimmed(rows: seq<Entry>, group: int, q: int): seq<Entry>
    requires 0 <= q < |rows|
  {
    rows[..q + 1] + Without(rows[q + 1..], group)
  }

  /** Rows and marks with the group's rows behind position `q` gone. */
  ghost function TrimmedTo(rows: seq<Entry>, marked: set<int>, group: int, q: int): (seq<Entry>, set<int>)
    requires 0 <= q < |rows|
  {
    (Trimmed(rows, group, q), marked - SlotsOf(rows[q + 1..], group))
  }

  lemma NothingToTrim(rows: seq<Entry>, marked: set<int>, group: int, indices: seq<int>)
    requires |indices| >= 1 && ListsGroup(rows, group, indices, |rows|)
    ensures var q := indices[|indices| - 1];
            0 <= q < |rows| && TrimmedTo(rows, marked, group, q) == (rows, marked)
  {
    var q := indices[|indices| - 1];
    forall j | q < j < |rows| ensures rows[j].splitGroupId != group {
      assert j !in indices;
    }
    WithoutAbsent(rows[q + 1..], group);
    assert rows[..q + 1] + rows[q + 1..] == rows;
    assert SlotsOf(rows[q + 1..], group) == {};
    assert marked - {} == marked;
  }

  lemma FirstIsListedFirst(rows: seq<Entry>, group: int, indices: seq<int>)
    requires |indices| >= 1 && ListsGroup(rows, group, indices, |rows|)
    ensures indices[0] == FirstOf(rows, group) < |rows|
    ensures SlotsOf(rows[indices[0] + 1..], group) == RemovedSlots(rows, group)
  {
    assert indices[0] in indices;
    assert FirstOf(rows, group) in indices;
  }

  /** Between a row of the group and the one before it only other rows lie. */
  lemma OthersBetween(rows: seq<Entry>, group: int, indices: seq<int>, i: int)
    requires ListsGroup(rows, group, indices, |rows|) && 0 < i < |indices|
    ensures forall j :: indices[i - 1] < j < indices[i] ==> rows[j].splitGroupId != group
    ensures rows[indices[i]].splitGroupId == group
  {
    assert indices[i] in indices;
    forall j | indices[i - 1] < j < indices[i] ensures j !in indices {
    }
  }

  lemma TrimmedMerged(rows: seq<Entry>, group: int)
    requires FirstOf(rows, group) < |rows|
    ensures var p := FirstOf(rows, group);
            var t := Trimmed(rows, group, p);
            t[p] == rows[p] && t[p := MergedEntry(t[p])] == MergeRows(rows, group)
  {
  }

  lemma TrimStep(rows: seq<Entry>, group: int, indices: seq<int>, i: int)
    requires ListsGroup(rows, group, indices, |rows|) && 0 < i < |indices|
    ensures var q, pos := indices[i - 1], indices[i];
            var t := Trimmed(rows, group, pos);
            Trimmed(rows, group, q) == t[..pos] + t[pos + 1..]
  {
    var q, pos := indices[i - 1], indices[i];
    OthersBetween(rows, group, indices, i);
    assert rows[q + 1..] == rows[q + 1..pos] + ([rows[pos]] + rows[pos + 1..]);
    WithoutUpTo(rows[q + 1..pos], rows[pos], rows[pos + 1..], group);
    CutOne(rows, q, pos, Without(rows[pos + 1..], group));
  }

  lemma WithoutUpTo(between: seq<Entry>, e: Entry, tail: seq<Entry>, group: int)
    requires e.splitGroupId == group && forall f :: f in between ==> f.splitGroupId != group
    ensures Without(between + ([e] + tail), group) == between + Without(tail, group)
  {
    WithoutConcat(between, [e] + tail, group);
    WithoutAbsent(between, group);
    assert ([e] + tail)[1..] == tail;
  }

  lemma CutOne(rows: seq<Entry>, q: int, pos: int, rest: seq<Entry>)
    requires 0 <= q < pos < |rows|
    ensures var t := rows[..pos + 1] + rest;
            rows[..q + 1] + (rows[q + 1..pos] + rest) == t[..pos] + t[pos + 1..]
  {
    var t := rows[..pos + 1] + rest;
    assert t[..pos] == rows[..q + 1] + rows[q + 1..pos] && t[pos + 1..] == rest;
  }

  lemma TrimSlots(rows: seq<Entry>, group: int, indices: seq<int>, i: int)
    requires ListsGroup(rows, group, indices, |rows|) && 0 < i < |indices|
    ensures var q, pos := indices[i - 1], indices[i];
            SlotsOf(rows[q + 1..], group) == SlotsOf(rows[pos + 1..], group) + {rows[pos].slotId}
  {
    var q, pos := indices[i - 1], indices[i];
    OthersBetween(rows, group, indices, i);
    assert rows[q + 1..] == rows[q + 1..pos] + ([rows[pos]] + rows[pos + 1..]);
  }

  lemma RepresentedNext(rows: seq<Entry>, i: int)
    requires 0 <= i < |rows|
    ensures forall c :: Represented(rows[..i + 1], c) <==> Represented(rows[..i], c) || c == rows[i].cameraId
  {
    forall c ensures Represented(rows[..i + 1], c) <==> Represented(rows[..i], c) || c == rows[i].cameraId {
      assert rows[..i + 1] == rows[..i] + [rows[i]];
      if Represented(rows[..i], c) {
        var j :| 0 <= j < i && rows[..i][j].cameraId == c;
        assert rows[..i + 1][j].cameraId == c;
      }
      assert rows[..i + 1][i].cameraId == rows[i].cameraId;
    }
  }

  /** Rows and marks when one more of the group's rows is taken out. */
  lemma TrimBoth(rows: seq<Entry>, marked: set<int>, group: int, indices: seq<int>, i: int)
    requires ListsGroup(rows, group, indices, |rows|) && 0 < i < |indices|
    ensures var pos, t := indices[i], TrimmedTo(rows, marked, group, indices[i]);
            pos < |t.0|
            && TrimmedTo(rows, marked, group, indices[i - 1])
               == (t.0[..pos] + t.0[pos + 1..], t.1 - {t.0[pos].slotId})
  {
    var pos := indices[i];
    TrimStep(rows, group, indices, i);
    TrimSlots(rows, group, indices, i);
    MinusTwice(marked, SlotsOf(rows[pos + 1..], group), rows[pos].slotId);
  }

  lemma MinusTwice(a: set<int>, b: set<int>, x: int)
    ensures a - b - {x} == a - (b + {x})
  {
  }

  lemma {:induction false} AutoSplitAllStep(g: GridState, slots: seq<int>, slot: int, table: TileTable)
    ensures var before := AutoSplitAll(g, slots, table);
            var one := AutoSplitSlot(before.grid, slot, table);
            AutoSplitAll(g, slots + [slot], table) == Outcome(one.grid, true, before.signals + one.signals)
    decreases |slots|
  {
    if slots == [] {
      AutoSplitOne(g, slot, table);
    } else {
      var first := AutoSplitSlot(g, slots[0], table);
      assert (slots + [slot])[1..] == slots[1..] + [slot];
      AutoSplitAllStep(first.grid, slots[1..], slot, table);
      var before := AutoSplitAll(first.grid, slots[1..], table);
      Regroup(first.signals, before.signals, AutoSplitSlot(before.grid, slot, table).signals);
    }
  }

  lemma AutoSplitOne(g: GridState, slot: int, table: TileTable)
    ensures var one := AutoSplitSlot(g, slot, table);
            AutoSplitAll(g, [slot], table) == Outcome(one.grid, true, one.signals)
  {
    var one := AutoSplitSlot(g, slot, table);
    assert ([slot])[1..] == [];
    assert AutoSplitAll(one.grid, [], table) == Outcome(one.grid, true, []);
    assert one.signals + [] == one.signals;
  }

  lemma Regroup(a: seq<Signal>, b: seq<Signal>, c: seq<Signal>)
    ensures a + (b + c) == a + b + c && [] + c == c
  {
  }
}
