/** The slot index and the decoder workers that follow the grid, and the streams that look them up. */
module VideoManager {
  import opened Strings
  import CropGeometry
  import opened CameraGrid
  import opened CameraGridInvariant
  import opened CameraGridTheorems

  /** A worker is known by the number it was created under. */
  datatype Videos = Videos(workers: map<string, nat>, nextWorker: nat, slotToCameraId: map<int, string>)

  const NO_VIDEOS: Videos := Videos(map[], 0, map[])

  // ------------------------------------------------------------- operations

  function SlotMap(slots: seq<SlotInfo>): map<int, string> {
    if slots == [] then map[] else
    var last := slots[|slots| - 1];
    SlotMap(slots[..|slots| - 1])[last.slotId := last.cameraId]
  }

  function AddWorker(v: Videos, id: string): Videos {
    if id == "" || id in v.workers then v else
    v.(workers := v.workers[id := v.nextWorker], nextWorker := v.nextWorker + 1)
  }

  function AddWorkers(v: Videos, ids: seq<string>): Videos {
    if ids == [] then v else AddWorker(AddWorkers(v, ids[..|ids| - 1]), ids[|ids| - 1])
  }

  function CameraIds(slots: seq<SlotInfo>): seq<string> {
    seq(|slots|, i requires 0 <= i < |slots| => slots[i].cameraId)
  }

  function RegisterSlots(v: Videos, slots: seq<SlotInfo>): Videos {
    AddWorkers(v.(slotToCameraId := SlotMap(slots)), CameraIds(slots))
  }

  /** What the manager does on each signal of the grid it is connected to. */
  function OnSignal(v: Videos, signal: Signal): Videos {
    match signal
    case SlotsUpdated(slots) => RegisterSlots(v, slots)
    case CameraIdsUpdated(ids) => AddWorkers(v, ids)
    case CameraOnline(id) => AddWorker(v, id)
    case DataChanged(_, _) => v
    case SensorDataUpdated(_) => v
  }

  function OnSignals(v: Videos, signals: seq<Signal>): Videos
    decreases |signals|
  {
    if signals == [] then v else OnSignals(OnSignal(v, signals[0]), signals[1..])
  }

  /** The object itself. */
  class VideoManager {
    var workers: map<string, nat>
    var nextWorker: nat
    var slotToCameraId: map<int, string>

    constructor ()
      ensures State() == NO_VIDEOS
    {
      workers, nextWorker, slotToCameraId := map[], 0, map[];
    }

    ghost function State(): Videos
      reads this
    {
      Videos(workers, nextWorker, slotToCameraId)
    }

    method RegisterSlots(slots: seq<SlotInfo>)
      modifies this
      ensures State() == OnSignal(old(State()), SlotsUpdated(slots))
    {
      slotToCameraId := map[];
      var i := 0;
      while i < |slots|
        invariant 0 <= i <= |slots|
        invariant State() == old(State()).(slotToCameraId := SlotMap(slots[..i]))
      {
        assert slots[..i + 1][..i] == slots[..i];
        slotToCameraId := slotToCameraId[slots[i].slotId := slots[i].cameraId];
        i := i + 1;
      }
      assert slots[..i] == slots;
      ghost var ids := CameraIds(slots);
      ghost var indexed := State();
      i := 0;
      while i < |slots|
        invariant 0 <= i <= |slots|
        invariant State() == AddWorkers(indexed, ids[..i])
      {
        assert ids[..i + 1][..i] == ids[..i];
        if slots[i].cameraId != "" && slots[i].cameraId !in workers {
          workers := workers[slots[i].cameraId := nextWorker];
          nextWorker := nextWorker + 1;
        }
        i := i + 1;
      }
      assert ids[..i] == ids;
    }

    method RegisterCameraIds(ids: seq<string>)
      modifies this
      ensures State() == OnSignal(old(State()), CameraIdsUpdated(ids))
    {
      var i := 0;
      while i < |ids|
        invariant 0 <= i <= |ids|
        invariant State() == AddWorkers(old(State()), ids[..i])
      {
        assert ids[..i + 1][..i] == ids[..i];
        if ids[i] != "" && ids[i] !in workers {
          workers := workers[ids[i] := nextWorker];
          nextWorker := nextWorker + 1;
        }
        i := i + 1;
      }
      assert ids[..i] == ids;
    }

    /** Restarting an existing worker keeps the worker. */
    method RestartWorker(id: string)
      modifies this
      ensures State() == OnSignal(old(State()), CameraOnline(id))
    {
      if id !in workers {
        if id == "" {
          return;
        }
        workers := workers[id := nextWorker];
        nextWorker := nextWorker + 1;
      }
    }

    method ClearAll()
      modifies this
      ensures State() == old(State()).(workers := map[], slotToCameraId := map[])
    {
      workers := map[];
      slotToCameraId := map[];
    }
  }

  // -------------------------------------------------------------- coherence

  /** The slot map is the grid's slot and camera columns, and every camera shown has a worker. */
  ghost predicate Coherent(rows: seq<Entry>, v: Videos) {
    && v.slotToCameraId == SlotMap(SlotList(rows))
    && forall e :: e in rows && e.cameraId != "" ==> e.cameraId in v.workers
  }

  /** Distinct cameras have distinct workers, numbered below the counter. */
  ghost predicate WorkersOk(v: Videos) {
    && "" !in v.workers
    && (forall c :: c in v.workers ==> v.workers[c] < v.nextWorker)
    && (forall c, d :: c in v.workers && d in v.workers && v.workers[c] == v.workers[d] ==> c == d)
  }

  lemma {:induction false} AddWorkersKeeps(v: Videos, ids: seq<string>)
    requires WorkersOk(v)
    ensures var w := AddWorkers(v, ids);
            && WorkersOk(w)
            && w.slotToCameraId == v.slotToCameraId
            && (forall c :: c in v.workers ==> c in w.workers && w.workers[c] == v.workers[c])
            && (forall c :: c in ids && c != "" ==> c in w.workers)
  {
    if ids != [] {
      AddWorkersKeeps(v, ids[..|ids| - 1]);
      assert ids == ids[..|ids| - 1] + [ids[|ids| - 1]];
    }
  }

  lemma OneSignal(v: Videos, signal: Signal)
    requires WorkersOk(v)
    ensures var w := OnSignal(v, signal);
            WorkersOk(w) && forall c :: c in v.workers ==> c in w.workers && w.workers[c] == v.workers[c]
  {
    match signal
    case SlotsUpdated(slots) => AddWorkersKeeps(v.(slotToCameraId := SlotMap(slots)), CameraIds(slots));
    case CameraIdsUpdated(ids) => AddWorkersKeeps(v, ids);
    case CameraOnline(_) =>
    case DataChanged(_, _) =>
    case SensorDataUpdated(_) =>
  }

  /** No signal takes a worker away or replaces one. */
  lemma {:induction false} SignalsKeepWorkers(v: Videos, signals: seq<Signal>)
    requires WorkersOk(v)
    ensures var w := OnSignals(v, signals);
            WorkersOk(w) && forall c :: c in v.workers ==> c in w.workers && w.workers[c] == v.workers[c]
    decreases |signals|
  {
    if signals != [] {
      OneSignal(v, signals[0]);
      SignalsKeepWorkers(OnSignal(v, signals[0]), signals[1..]);
    }
  }

  /** The signal speaks of the camera. */
  ghost predicate Names(signal: Signal, c: string) {
    match signal
    case SlotsUpdated(slots) => exists i :: 0 <= i < |slots| && slots[i].cameraId == c
    case CameraIdsUpdated(ids) => c in ids
    case CameraOnline(id) => c == id
    case DataChanged(_, _) => false
    case SensorDataUpdated(_) => false
  }

  lemma {:induction false} AddWorkersAre(v: Videos, ids: seq<string>, c: string)
    ensures c in AddWorkers(v, ids).workers <==> c in v.workers || (c != "" && c in ids)
  {
    if ids != [] {
      AddWorkersAre(v, ids[..|ids| - 1], c);
      assert ids == ids[..|ids| - 1] + [ids[|ids| - 1]];
    }
  }

  lemma SignalWorkersAre(v: Videos, signal: Signal, c: string)
    ensures c in OnSignal(v, signal).workers <==> c in v.workers || (c != "" && Names(signal, c))
  {
    match signal
    case SlotsUpdated(slots) =>
      AddWorkersAre(v.(slotToCameraId := SlotMap(slots)), CameraIds(slots), c);
      if i: int :| 0 <= i < |slots| && slots[i].cameraId == c {
        assert CameraIds(slots)[i] == c;
      }
    case CameraIdsUpdated(ids) => AddWorkersAre(v, ids, c);
    case CameraOnline(_) =>
    case DataChanged(_, _) =>
    case SensorDataUpdated(_) =>
  }

  /** After any signals there is a worker for exactly the cameras that had one before and those a signal named: listed
      in a slot, listed by id, or back online. */
  lemma {:induction false} WorkersAreThoseNamed(v: Videos, signals: seq<Signal>, c: string)
    ensures c in OnSignals(v, signals).workers
       <==> c in v.workers || (c != "" && exists s :: s in signals && Names(s, c))
    decreases |signals|
  {
    if signals != [] {
      var first, rest := signals[0], signals[1..];
      SignalWorkersAre(v, first, c);
      WorkersAreThoseNamed(OnSignal(v, first), rest, c);
      assert signals == [first] + rest;
    }
  }

  lemma {:induction false} OnSignalsConcat(v: Videos, a: seq<Signal>, b: seq<Signal>)
    ensures OnSignals(v, a + b) == OnSignals(OnSignals(v, a), b)
    decreases |a|
  {
    if a == [] {
      assert a + b == b;
    } else {
      assert (a + b)[1..] == a[1..] + b;
      OnSignalsConcat(OnSignal(v, a[0]), a[1..], b);
    }
  }

  lemma OnSlotSignals(rows: seq<Entry>, v: Videos)
    ensures OnSignals(v, SlotSignals(rows)) == AddWorkers(RegisterSlots(v, SlotList(rows)), DistinctIds(rows))
  {
    var first, second := SlotsUpdated(SlotList(rows)), CameraIdsUpdated(DistinctIds(rows));
    var u := OnSignal(v, first);
    assert SlotSignals(rows)[1..] == [second];
    assert [second][1..] == [];
    assert OnSignals(u, [second]) == OnSignals(OnSignal(u, second), []);
  }

  /** Whatever the manager knew before, one emission of the slots makes it coherent. */
  lemma SlotSignalsCohere(rows: seq<Entry>, v: Videos)
    requires WorkersOk(v)
    ensures Coherent(rows, OnSignals(v, SlotSignals(rows)))
  {
    var slots := SlotList(rows);
    var w := OnSignal(v, SlotsUpdated(slots));
    AddWorkersKeeps(v.(slotToCameraId := SlotMap(slots)), CameraIds(slots));
    AddWorkersKeeps(w, DistinctIds(rows));
    OnSlotSignals(rows, v);
    forall e | e in rows && e.cameraId != "" ensures e.cameraId in w.workers {
      var i :| 0 <= i < |rows| && rows[i] == e;
      assert CameraIds(slots)[i] == e.cameraId;
    }
  }

  ghost predicate Quiet(signal: Signal) {
    !signal.SlotsUpdated?
  }

  lemma {:induction false} QuietKeepsSlots(v: Videos, signals: seq<Signal>)
    requires WorkersOk(v) && forall s :: s in signals ==> Quiet(s)
    ensures OnSignals(v, signals).slotToCameraId == v.slotToCameraId
    decreases |signals|
  {
    if signals != [] {
      if signals[0].CameraIdsUpdated? {
        AddWorkersKeeps(v, signals[0].cameraIds);
      }
      OneSignal(v, signals[0]);
      assert signals[0] in signals && Quiet(signals[0]);
      QuietKeepsSlots(OnSignal(v, signals[0]), signals[1..]);
    }
  }

  /** Signals that end in an emission of the slots of `rows`, quiet ones aside. */
  lemma EmissionCoheres(v: Videos, before: seq<Signal>, rows: seq<Entry>, after: seq<Signal>)
    requires WorkersOk(v) && forall s :: s in after ==> Quiet(s)
    ensures Coherent(rows, OnSignals(v, before + SlotSignals(rows) + after))
  {
    OnSignalsConcat(v, before + SlotSignals(rows), after);
    OnSignalsConcat(v, before, SlotSignals(rows));
    SignalsKeepWorkers(v, before);
    var u := OnSignals(v, before);
    SlotSignalsCohere(rows, u);
    SignalsKeepWorkers(u, SlotSignals(rows));
    QuietKeepsSlots(OnSignals(u, SlotSignals(rows)), after);
    SignalsKeepWorkers(OnSignals(u, SlotSignals(rows)), after);
  }

  /** Edits that leave the slot and camera columns alone need no new index. */
  lemma SameColumnsCohere(rows: seq<Entry>, rows': seq<Entry>, v: Videos)
    requires Coherent(rows, v) && |rows'| == |rows|
    requires forall i :: 0 <= i < |rows| ==> SameShape(rows[i], rows'[i])
    ensures Coherent(rows', v)
  {
    assert SlotList(rows') == SlotList(rows);
    forall e | e in rows' && e.cameraId != "" ensures e.cameraId in v.workers {
      var i :| 0 <= i < |rows'| && rows'[i] == e;
      assert rows[i] in rows;
    }
  }

  lemma SplitCoheres(g: GridState, row: int, n: int, direction: CropGeometry.SplitDirection, autoSplit: bool, v: Videos)
    requires WorkersOk(v) && Coherent(g.rows, v)
    ensures var o := Split(g, row, n, direction, autoSplit); Coherent(o.grid.rows, OnSignals(v, o.signals))
  {
    var o := Split(g, row, n, direction, autoSplit);
    if o.ok {
      SlotSignalsCohere(o.grid.rows, v);
    }
  }

  lemma {:induction false} AutoSplitAllCoheres(g: GridState, slots: seq<int>, table: TileTable, v: Videos)
    requires WorkersOk(v) && Coherent(g.rows, v)
    ensures var o := AutoSplitAll(g, slots, table); Coherent(o.grid.rows, OnSignals(v, o.signals))
    decreases |slots|
  {
    if slots != [] {
      var row := IndexBySlotId(g.rows, slots[0]);
      var first := AutoSplitSlot(g, slots[0], table);
      if 0 <= row < |g.rows| {
        SplitCoheres(g, row, table(g.rows[row].cameraId), CropGeometry.Col, true, v);
      }
      SignalsKeepWorkers(v, first.signals);
      AutoSplitAllCoheres(first.grid, slots[1..], table, OnSignals(v, first.signals));
      OnSignalsConcat(v, first.signals, AutoSplitAll(first.grid, slots[1..], table).signals);
    }
  }

  lemma {:induction false} RefreshIsQuiet(rows: seq<Entry>, byCid: map<string, CameraData>, n: nat)
    requires n <= |rows|
    ensures forall s :: s in RefreshSignals(rows, byCid, n) ==> Quiet(s)
  {
    if n > 0 {
      RefreshIsQuiet(rows, byCid, n - 1);
    }
  }

  lemma SwapCoheres(g: GridState, a: int, b: int, v: Videos)
    requires WorkersOk(v) && Coherent(g.rows, v)
    ensures var o := Swap(g, a, b); Coherent(o.grid.rows, OnSignals(v, o.signals))
  {
    var o := Swap(g, a, b);
    if o.ok {
      EmissionCoheres(v, [], o.grid.rows, [DataChanged(a, SWAP_ROLES), DataChanged(b, SWAP_ROLES)]);
      assert [] + SlotSignals(o.grid.rows) == SlotSignals(o.grid.rows);
    }
  }

  lemma MergeCoheres(g: GridState, row: int, v: Videos)
    requires WorkersOk(v) && Coherent(g.rows, v)
    ensures var o := Merge(g, row); Coherent(o.grid.rows, OnSignals(v, o.signals))
  {
    var o := Merge(g, row);
    if o.ok {
      var first := [DataChanged(FirstOf(g.rows, g.rows[row].splitGroupId), ALL_ROLES)];
      EmissionCoheres(v, first, o.grid.rows, []);
      assert first + SlotSignals(o.grid.rows) + [] == o.signals;
    }
  }

  lemma StoreCoheres(g: GridState, snapshot: seq<CameraData>, order: seq<string>, table: TileTable, v: Videos)
    requires WorkersOk(v) && Coherent(g.rows, v) && Enumerates(order, ByCameraId(snapshot))
    ensures var o := StoreUpdated(g, snapshot, order, table); Coherent(o.grid.rows, OnSignals(v, o.signals))
  {
    var byCid := ByCameraId(snapshot);
    var absorbed := Absorb(g, byCid, order);
    var slots := Candidates(absorbed.rows);
    var first := RefreshSignals(g.rows, byCid, |g.rows|);
    var head := first + SlotSignals(absorbed.rows);
    EmissionCoheres(v, first, absorbed.rows, []);
    assert head + [] == head;
    SignalsKeepWorkers(v, head);
    AutoSplitAllCoheres(absorbed, slots, table, OnSignals(v, head));
    OnSignalsConcat(v, head, AutoSplitAll(absorbed, slots, table).signals);
  }

  /** An edit that sends at most one signal, and not about slots. */
  lemma EditCoheres(rows: seq<Entry>, rows': seq<Entry>, signals: seq<Signal>, v: Videos)
    requires Coherent(rows, v) && |rows'| == |rows|
    requires forall i :: 0 <= i < |rows| ==> SameShape(rows[i], rows'[i])
    requires forall s :: s in signals ==> Quiet(s)
    requires WorkersOk(v)
    ensures Coherent(rows', OnSignals(v, signals))
  {
    SameColumnsCohere(rows, rows', v);
    QuietKeepsSlots(v, signals);
    SignalsKeepWorkers(v, signals);
  }

  lemma AutoSplitCoheres(g: GridState, slotId: int, table: TileTable, v: Videos)
    requires WorkersOk(v) && Coherent(g.rows, v)
    ensures var o := AutoSplitSlot(g, slotId, table); Coherent(o.grid.rows, OnSignals(v, o.signals))
  {
    var row := IndexBySlotId(g.rows, slotId);
    if 0 <= row < |g.rows| {
      SplitCoheres(g, row, table(g.rows[row].cameraId), CropGeometry.Col, true, v);
    }
  }

  lemma StepCoheres(g: GridState, op: Op, table: TileTable, v: Videos)
    requires op.Possible() && WorkersOk(v) && Coherent(g.rows, v)
    ensures var o := Step(g, op, table); Coherent(o.grid.rows, OnSignals(v, o.signals))
  {
    var o := Step(g, op, table);
    match op
    case SwapOp(a, b) => SwapCoheres(g, a, b, v);
    case SplitOp(row, n, d) => SplitCoheres(g, row, n, DirectionOf(d), false, v);
    case MergeOp(row) => MergeCoheres(g, row, v);
    case AutoSplitOp(slotId) => AutoSplitCoheres(g, slotId, table, v);
    case StoreOp(snapshot, order) => StoreCoheres(g, snapshot, order, table, v);
    case SetDataOp(row, edit) => EditCoheres(g.rows, o.grid.rows, o.signals, v);
    case SensorOp(cid, info) => EditCoheres(g.rows, o.grid.rows, o.signals, v);
    case ClearOp => SlotSignalsCohere([], v);
  }

  /** Besides the calls on the grid there is the logout, which clears the manager and then the grid. */
  datatype WorldOp = GridCall(op: Op) | Logout

  datatype World = World(grid: GridState, videos: Videos)

  ghost predicate WorldPossible(ops: seq<WorldOp>) {
    forall i :: 0 <= i < |ops| && ops[i].GridCall? ==> ops[i].op.Possible()
  }

  function WorldStep(w: World, op: WorldOp, table: TileTable): World
    requires op.GridCall? ==> op.op.Possible()
  {
    match op
    case GridCall(gridOp) =>
      var o := Step(w.grid, gridOp, table);
      World(o.grid, OnSignals(w.videos, o.signals))
    case Logout =>
      var o := ClearAll(w.grid);
      World(o.grid, OnSignals(w.videos.(workers := map[], slotToCameraId := map[]), o.signals))
  }

  function WorldRun(ops: seq<WorldOp>, table: TileTable): World
    requires WorldPossible(ops)
  {
    if ops == [] then World(EMPTY_GRID, NO_VIDEOS) else
    WorldStep(WorldRun(ops[..|ops| - 1], table), ops[|ops| - 1], table)
  }

  /** After every operation the slot map is the grid's, and every camera on the grid has a worker of its own. */
  lemma {:induction false} VideosFollowGrid(ops: seq<WorldOp>, table: TileTable)
    requires WorldPossible(ops)
    ensures var w := WorldRun(ops, table);
            Coherent(w.grid.rows, w.videos) && WorkersOk(w.videos) && Inv(w.grid)
  {
    if ops != [] {
      var before := WorldRun(ops[..|ops| - 1], table);
      VideosFollowGrid(ops[..|ops| - 1], table);
      match ops[|ops| - 1] {
        case GridCall(op) =>
          StepCoheres(before.grid, op, table, before.videos);
          SignalsKeepWorkers(before.videos, Step(before.grid, op, table).signals);
          StepKeepsInv(before.grid, op, table);
        case Logout =>
          var emptied := before.videos.(workers := map[], slotToCameraId := map[]);
          SlotSignalsCohere([], emptied);
          SignalsKeepWorkers(emptied, SlotSignals([]));
      }
    }
  }

  /** With distinct slots the slot map answers every row's camera, and knows no other slot. */
  lemma {:induction false} SlotMapIsGrid(rows: seq<Entry>)
    requires forall i, j :: 0 <= i < j < |rows| ==> rows[i].slotId != rows[j].slotId
    ensures var m := SlotMap(SlotList(rows));
            && (forall i :: 0 <= i < |rows| ==> rows[i].slotId in m && m[rows[i].slotId] == rows[i].cameraId)
            && (forall s :: s in m ==> exists i :: 0 <= i < |rows| && rows[i].slotId == s)
  {
    if rows != [] {
      var init := rows[..|rows| - 1];
      SlotMapIsGrid(init);
      var last := rows[|rows| - 1];
      assert SlotList(rows)[..|rows| - 1] == SlotList(init);
      assert SlotMap(SlotList(rows)) == SlotMap(SlotList(init))[last.slotId := last.cameraId];
      forall s | s in SlotMap(SlotList(rows)) ensures exists i :: 0 <= i < |rows| && rows[i].slotId == s {
        if s != rows[|rows| - 1].slotId {
          var i :| 0 <= i < |init| && init[i].slotId == s;
          assert rows[i].slotId == s;
        }
      }
    }
  }

  // ---------------------------------------------------------------- streams

  /** The QML side of one card: bound to a row, attached to a worker. */
  datatype Stream = Stream(slotId: int, cameraId: string, worker: Option<nat>)

  function GetWorker(v: Videos, id: string): Option<nat> {
    if id in v.workers then Some(v.workers[id]) else None
  }

  function GetWorkerBySlot(v: Videos, slotId: int): Option<nat> {
    GetWorker(v, if slotId in v.slotToCameraId then v.slotToCameraId[slotId] else "")
  }

  function TryAttach(v: Videos, s: Stream): Stream {
    var bySlot := if s.slotId >= 0 then GetWorkerBySlot(v, s.slotId) else None;
    s.(worker := if bySlot.None? && s.cameraId != "" then GetWorker(v, s.cameraId) else bySlot)
  }

  /** A stream is attached to the worker of the camera its slot shows; failing that, or without a slot, to the worker of
      its own camera; failing that, to none. */
  lemma AttachesTo(v: Videos, s: Stream)
    requires "" !in v.workers
    ensures var t := TryAttach(v, s);
            && t == s.(worker := t.worker)
            && (if s.slotId >= 0 && s.slotId in v.slotToCameraId && v.slotToCameraId[s.slotId] in v.workers then
                  t.worker == Some(v.workers[v.slotToCameraId[s.slotId]])
                else if s.cameraId in v.workers then t.worker == Some(v.workers[s.cameraId])
                else t.worker == None)
  {
  }

  function SetCameraId(v: Videos, s: Stream, id: string): Stream {
    if s.cameraId == id then s else TryAttach(v, s.(cameraId := id))
  }

  /** The manager and one stream per row, after one signal of a grid whose rows are `rows`. */
  datatype Screen = Screen(videos: Videos, streams: seq<Stream>)

  function ShowSignal(rows: seq<Entry>, s: Screen, signal: Signal): Screen
    requires |s.streams| == |rows|
  {
    match signal
    case DataChanged(row, roles) =>
      if CameraIdRole in roles && 0 <= row < |rows|
      then s.(streams := s.streams[row := SetCameraId(s.videos, s.streams[row], rows[row].cameraId)])
      else s
    case _ => s.(videos := OnSignal(s.videos, signal))
  }

  function ShowSignals(rows: seq<Entry>, s: Screen, signals: seq<Signal>): (r: Screen)
    requires |s.streams| == |rows|
    ensures |r.streams| == |rows|
    decreases |signals|
  {
    if signals == [] then s else ShowSignals(rows, ShowSignal(rows, s, signals[0]), signals[1..])
  }

  /** Every stream is bound to its row and attached to the worker of the row's camera. */
  ghost predicate Attached(rows: seq<Entry>, s: Screen) {
    && |s.streams| == |rows|
    && forall i :: 0 <= i < |rows| ==>
         s.streams[i] == Stream(rows[i].slotId, rows[i].cameraId, GetWorker(s.videos, rows[i].cameraId))
  }

  /** Telling a card its row's camera attaches it to that camera's worker. */
  lemma CardAttaches(rows: seq<Entry>, v: Videos, i: int, s: Stream)
    requires 0 <= i < |rows| && Coherent(rows, v) && PairsOk(rows)
    requires rows[i].slotId >= 0 && rows[i].cameraId != ""
    requires s.slotId == rows[i].slotId && s.worker == GetWorker(v, s.cameraId)
    ensures SetCameraId(v, s, rows[i].cameraId) == Stream(rows[i].slotId, rows[i].cameraId, GetWorker(v, rows[i].cameraId))
  {
    assert forall j, k :: 0 <= j < k < |rows| ==> PairOk(rows[j], rows[k]);
    SlotMapIsGrid(rows);
    assert rows[i] in rows;
  }

  /** The signals of a swap, unrolled: first the index, then the two cards. */
  lemma SwapScreen(rows: seq<Entry>, s: Screen, a: int, b: int)
    requires |s.streams| == |rows| && CanSwap(rows, a, b)
    ensures var v := OnSignals(s.videos, SlotSignals(rows));
            ShowSignals(rows, s, SlotSignals(rows) + [DataChanged(a, SWAP_ROLES), DataChanged(b, SWAP_ROLES)])
            == Screen(v, s.streams[a := SetCameraId(v, s.streams[a], rows[a].cameraId)]
                                  [b := SetCameraId(v, s.streams[b], rows[b].cameraId)])
  {
    var cards := [DataChanged(a, SWAP_ROLES), DataChanged(b, SWAP_ROLES)];
    ShowSlotSignals(rows, s, cards);
    var t := s.(videos := OnSignals(s.videos, SlotSignals(rows)));
    assert cards[1..] == [DataChanged(b, SWAP_ROLES)];
    assert cards[1..][1..] == [];
    var u := ShowSignal(rows, t, cards[0]);
    assert ShowSignals(rows, u, cards[1..]) == ShowSignals(rows, ShowSignal(rows, u, cards[1]), []);
  }

  lemma ShowSlotSignals(rows: seq<Entry>, s: Screen, rest: seq<Signal>)
    requires |s.streams| == |rows|
    ensures ShowSignals(rows, s, SlotSignals(rows) + rest)
            == ShowSignals(rows, s.(videos := OnSignals(s.videos, SlotSignals(rows))), rest)
  {
    var first, second := SlotsUpdated(SlotList(rows)), CameraIdsUpdated(DistinctIds(rows));
    OnSlotSignals(rows, s.videos);
    assert (SlotSignals(rows) + rest)[1..] == [second] + rest;
    assert ([second] + rest)[1..] == rest;
    var t := ShowSignal(rows, s, first);
    assert ShowSignals(rows, t, [second] + rest) == ShowSignals(rows, ShowSignal(rows, t, second), rest);
  }

  ghost predicate KeepsWorkers(v: Videos, w: Videos) {
    forall c :: c in v.workers ==> c in w.workers && w.workers[c] == v.workers[c]
  }

  /** Rows as they are in every reachable grid. */
  ghost predicate Named(rows: seq<Entry>) {
    PairsOk(rows) && forall e :: e in rows ==> e.slotId >= 0 && e.cameraId != ""
  }

  lemma ReachableIsNamed(g: GridState)
    requires Inv(g)
    ensures Named(g.rows)
  {
    forall e | e in g.rows ensures e.slotId >= 0 && e.cameraId != "" {
      assert RowOk(e, g.nextSlotId, g.nextSplitGroupId);
    }
  }

  /** A card that was attached keeps its worker when workers are only added. */
  lemma StaysAttached(rows: seq<Entry>, s: Screen, w: Videos, i: int)
    requires Coherent(rows, s.videos) && Named(rows) && Attached(rows, s) && KeepsWorkers(s.videos, w)
    requires 0 <= i < |rows|
    ensures s.streams[i] == Stream(rows[i].slotId, rows[i].cameraId, GetWorker(w, rows[i].cameraId))
  {
    assert rows[i] in rows;
  }

  lemma SwapAttaches(before: seq<Entry>, a: int, b: int, s: Screen, w: Videos)
    requires CanSwap(before, a, b) && Named(before) && Coherent(before, s.videos) && Attached(before, s)
    requires var rows := SwapRows(before, a, b); Named(rows) && Coherent(rows, w)
    requires KeepsWorkers(s.videos, w)
    ensures var rows := SwapRows(before, a, b);
            Attached(rows, Screen(w, s.streams[a := SetCameraId(w, s.streams[a], rows[a].cameraId)]
                                              [b := SetCameraId(w, s.streams[b], rows[b].cameraId)]))
  {
    var rows := SwapRows(before, a, b);
    SwapMovesContent(before, a, b);
    forall i | 0 <= i < |rows|
      ensures s.streams[i] == Stream(rows[i].slotId, before[i].cameraId, GetWorker(w, before[i].cameraId))
    {
      StaysAttached(before, s, w, i);
    }
    assert rows[a] in rows && rows[b] in rows;
    CardAttaches(rows, w, a, s.streams[a]);
    CardAttaches(rows, w, b, s.streams[b]);
  }

  /** A stream attached before a swap is attached to its slot's new camera after it. */
  lemma SwapReattaches(g: GridState, table: TileTable, a: int, b: int, s: Screen)
    requires Reachable(g, table) && CanSwap(g.rows, a, b)
    requires WorkersOk(s.videos) && Coherent(g.rows, s.videos) && Attached(g.rows, s)
    ensures var o := Swap(g, a, b);
            var after := ShowSignals(o.grid.rows, s, o.signals);
            Coherent(o.grid.rows, after.videos) && Attached(o.grid.rows, after)
  {
    ReachableInv(g, table);
    SwapKeepsInv(g, a, b);
    ReachableIsNamed(g);
    var rows := SwapRows(g.rows, a, b);
    ReachableIsNamed(g.(rows := rows));
    var w := OnSignals(s.videos, SlotSignals(rows));
    SlotSignalsCohere(rows, s.videos);
    SignalsKeepWorkers(s.videos, SlotSignals(rows));
    SwapAttaches(g.rows, a, b, s, w);
    SwapScreen(rows, s, a, b);
  }

  lemma CardFirstScreen(rows: seq<Entry>, s: Screen, a: int)
    requires |s.streams| == |rows| && 0 <= a < |rows|
    ensures ShowSignals(rows, s, [DataChanged(a, SWAP_ROLES)] + SlotSignals(rows))
         == Screen(OnSignals(s.videos, SlotSignals(rows)),
                   s.streams[a := SetCameraId(s.videos, s.streams[a], rows[a].cameraId)])
  {
    var card := DataChanged(a, SWAP_ROLES);
    var told := ShowSignal(rows, s, card);
    assert ([card] + SlotSignals(rows))[1..] == SlotSignals(rows) == SlotSignals(rows) + [];
    ShowSlotSignals(rows, told, []);
  }

  /** The order matters: were the cards told before the index, the first card would be attached
      correctly only if both rows showed the same camera. */
  lemma CardsFirstMisattaches(g: GridState, table: TileTable, a: int, b: int, s: Screen)
    requires Reachable(g, table) && CanSwap(g.rows, a, b)
    requires WorkersOk(s.videos) && Coherent(g.rows, s.videos) && Attached(g.rows, s)
    ensures var rows := Swap(g, a, b).grid.rows;
            var after := ShowSignals(rows, s, [DataChanged(a, SWAP_ROLES)] + SlotSignals(rows));
            after.streams[a].worker == GetWorker(after.videos, rows[a].cameraId)
            <==> g.rows[a].cameraId == g.rows[b].cameraId
  {
    ReachableInv(g, table);
    ReachableIsNamed(g);
    SwapMovesContent(g.rows, a, b);
    var rows := SwapRows(g.rows, a, b);
    CardFirstScreen(rows, s, a);
    SignalsKeepWorkers(s.videos, SlotSignals(rows));
    FirstCardIff(g.rows, a, b, s, OnSignals(s.videos, SlotSignals(rows)));
  }

  lemma FirstCardIff(rows: seq<Entry>, a: int, b: int, s: Screen, w: Videos)
    requires Named(rows) && Coherent(rows, s.videos) && Attached(rows, s)
    requires 0 <= a < |rows| && 0 <= b < |rows|
    requires WorkersOk(w) && KeepsWorkers(s.videos, w)
    ensures SetCameraId(s.videos, s.streams[a], rows[b].cameraId).worker == GetWorker(w, rows[b].cameraId)
       <==> rows[a].cameraId == rows[b].cameraId
  {
    assert rows[a] in rows && rows[b] in rows;
    StaysAttached(rows, s, w, a);
    StaleAttach(rows, s.videos, a, s.streams[a].(cameraId := rows[b].cameraId));
  }

  /** Before the index is told, a card is attached to the camera its slot used to show. */
  lemma StaleAttach(rows: seq<Entry>, v: Videos, i: int, s: Stream)
    requires 0 <= i < |rows| && Coherent(rows, v) && PairsOk(rows)
    requires rows[i].slotId >= 0 && rows[i].cameraId != "" && s.slotId == rows[i].slotId
    ensures TryAttach(v, s).worker == GetWorker(v, rows[i].cameraId)
  {
    assert forall j, k :: 0 <= j < k < |rows| ==> PairOk(rows[j], rows[k]);
    SlotMapIsGrid(rows);
    assert rows[i] in rows;
  }
}
