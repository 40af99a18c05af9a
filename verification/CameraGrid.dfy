/** The camera slot grid as a value: what each operation of `CameraModel` makes of it. */
module CameraGrid {
  import opened CropGeometry
  import opened Strings

  datatype DeviceInfo = DeviceInfo(hum: real, light: real, tilt: real, tmp: real)

  const NO_SENSORS: DeviceInfo := DeviceInfo(0.0, 0.0, 0.0, 0.0)

  /** One camera of a store snapshot. */
  datatype CameraData = CameraData(title: string, cameraType: string, isOnline: bool, cameraId: string, deviceInfo: DeviceInfo)

  /** One row of the grid. */
  datatype Entry = Entry(
    slotId: int,
    title: string,
    cameraId: string,
    isOnline: bool,
    cameraType: string,
    splitCount: int,
    splitDirection: SplitDirection,
    cropRect: Rect,
    splitGroupId: int,
    splitIndex: int,
    description: string,
    width: int,
    height: int,
    deviceInfo: DeviceInfo)

  const DEFAULT_ENTRY: Entry :=
    Entry(-1, "", "", false, "", 1, NoSplit, FULL_FRAME, -1, 0, "", 320, 240, NO_SENSORS)

  datatype GridState = GridState(rows: seq<Entry>, nextSlotId: int, nextSplitGroupId: int, autoSplitApplied: set<int>)

  const EMPTY_GRID: GridState := GridState([], 0, 1, {})

  datatype Role = TitleRole | IsOnlineRole | DescriptionRole | CameraTypeRole | CropRectRole
                | SplitCountRole | SplitDirectionRole | CameraIdRole | OtherRole

  const SWAP_ROLES: set<Role> := {TitleRole, IsOnlineRole, DescriptionRole, CameraTypeRole, CropRectRole,
                                  SplitCountRole, SplitDirectionRole, CameraIdRole}
  const ALL_ROLES: set<Role> := SWAP_ROLES + {OtherRole}

  datatype SlotInfo = SlotInfo(slotId: int, cameraId: string)

  /** The signals of the model, in the order they are emitted. */
  datatype Signal =
    | SlotsUpdated(slots: seq<SlotInfo>)
    | CameraIdsUpdated(cameraIds: seq<string>)
    | DataChanged(row: int, roles: set<Role>)
    | CameraOnline(cameraId: string)
    | SensorDataUpdated(cameraId: string)

  /** The grid after a call, the boolean the call returns and the signals it emits. */
  datatype Outcome = Outcome(grid: GridState, ok: bool, signals: seq<Signal>)

  // ---------------------------------------------------------------- signals

  function SlotList(rows: seq<Entry>): (slots: seq<SlotInfo>) {
    seq(|rows|, i requires 0 <= i < |rows| => SlotInfo(rows[i].slotId, rows[i].cameraId))
  }

  /** The non-empty camera ids in order of first appearance. */
  function DistinctIds(rows: seq<Entry>): (ids: seq<string>) {
    if rows == [] then [] else
    var before := DistinctIds(rows[..|rows| - 1]);
    var c := rows[|rows| - 1].cameraId;
    if c == "" || c in before then before else before + [c]
  }

  function SlotSignals(rows: seq<Entry>): seq<Signal> {
    [SlotsUpdated(SlotList(rows)), CameraIdsUpdated(DistinctIds(rows))]
  }

  // ------------------------------------------------------------------- swap

  /** Everything of `from` except the slot identity and the sensor batch, which stay with the slot. */
  function TakeContent(keep: Entry, from: Entry): Entry {
    from.(slotId := keep.slotId, deviceInfo := keep.deviceInfo)
  }

  predicate CanSwap(rows: seq<Entry>, a: int, b: int) {
    0 <= a < |rows| && 0 <= b < |rows| && a != b
  }

  function SwapRows(rows: seq<Entry>, a: int, b: int): (r: seq<Entry>)
    requires CanSwap(rows, a, b)
  {
    rows[a := TakeContent(rows[a], rows[b])][b := TakeContent(rows[b], rows[a])]
  }

  function Swap(g: GridState, a: int, b: int): Outcome {
    if !CanSwap(g.rows, a, b) then Outcome(g, false, []) else
    var rows := SwapRows(g.rows, a, b);
    Outcome(g.(rows := rows), true, SlotSignals(rows) + [DataChanged(a, SWAP_ROLES), DataChanged(b, SWAP_ROLES)])
  }

  // ------------------------------------------------------------------ split

  predicate CanSplit(g: GridState, row: int, tileCount: int, direction: SplitDirection) {
    && 0 <= row < |g.rows|
    && ValidSplit(tileCount, direction)
    && g.rows[row].splitCount == 1
    && g.rows[row].isOnline
  }

  function TileMarker(k: int, n: int): string {
    " [" + Digit(k + 1) + "/" + Digit(n) + "]"
  }

  /** Tile `k` of the `n` tiles that replace `original`. */
  function Tile(original: Entry, firstSlot: int, group: int, k: nat, n: int, direction: SplitDirection): Entry {
    DEFAULT_ENTRY.(
      slotId := firstSlot + k,
      title := original.title + TileMarker(k, n),
      cameraId := original.cameraId,
      isOnline := original.isOnline,
      cameraType := original.cameraType,
      splitCount := n,
      splitDirection := direction,
      cropRect := ComputeCropRect(k, n, direction),
      splitGroupId := group,
      splitIndex := k,
      description := original.description)
  }

  function Tiles(original: Entry, firstSlot: int, group: int, n: nat, direction: SplitDirection): seq<Entry> {
    seq(n, k requires 0 <= k < n => Tile(original, firstSlot, group, k, n, direction))
  }

  /** The next `n` slot ids. */
  function NewSlots(first: int, n: nat): (slots: set<int>)
    ensures forall s :: s in slots <==> first <= s < first + n
  {
    if n == 0 then {} else NewSlots(first, n - 1) + {first + n - 1}
  }

  function SplitGrid(g: GridState, row: int, tileCount: nat, direction: SplitDirection, autoSplit: bool): GridState
    requires CanSplit(g, row, tileCount, direction)
  {
    var original := g.rows[row];
    var tiles := Tiles(original, g.nextSlotId, g.nextSplitGroupId, tileCount, direction);
    var marked := if autoSplit then NewSlots(g.nextSlotId, tileCount) else {};
    GridState(g.rows[..row] + tiles + g.rows[row + 1..], g.nextSlotId + tileCount, g.nextSplitGroupId + 1,
              (g.autoSplitApplied + marked) - {original.slotId})
  }

  function Split(g: GridState, row: int, tileCount: int, direction: SplitDirection, autoSplit: bool): Outcome {
    if !CanSplit(g, row, tileCount, direction) then Outcome(g, false, []) else
    var after := SplitGrid(g, row, tileCount, direction, autoSplit);
    Outcome(after, true, SlotSignals(after.rows))
  }

  /** The integer directions of the QML interface. */
  function DirectionOf(direction: int): SplitDirection {
    if direction == 1 then Row else if direction == 2 then Grid else Col
  }

  // ------------------------------------------------------------------ merge

  /** The rows outside `group`, in order. */
  function Without(rows: seq<Entry>, group: int): (r: seq<Entry>)
    ensures |r| <= |rows|
  {
    if rows == [] then []
    else if rows[0].splitGroupId == group then Without(rows[1..], group)
    else [rows[0]] + Without(rows[1..], group)
  }

  /** Position of the first row of `group`, |rows| when it has none. */
  function FirstOf(rows: seq<Entry>, group: int): (p: nat)
    ensures p <= |rows|
    ensures forall i :: 0 <= i < p ==> rows[i].splitGroupId != group
    ensures p < |rows| ==> rows[p].splitGroupId == group
  {
    if rows == [] || rows[0].splitGroupId == group then 0 else 1 + FirstOf(rows[1..], group)
  }

  predicate CanMerge(rows: seq<Entry>, row: int) {
    && 0 <= row < |rows|
    && rows[row].splitCount > 1
    && rows[row].splitGroupId >= 0
    && |Without(rows, rows[row].splitGroupId)| + 2 <= |rows|
  }

  /** Cuts the tile marker off, but only when something stands before it. */
  function StripMarker(title: string): string {
    var marker := LastIndexOf(title, " [");
    if marker > 0 && title[|title| - 1] == ']' then title[..marker] else title
  }

  function MergedEntry(tile: Entry): Entry {
    tile.(title := StripMarker(tile.title), splitCount := 1, cropRect := FULL_FRAME,
          splitGroupId := -1, splitIndex := 0, splitDirection := Col)
  }

  function MergeRows(rows: seq<Entry>, group: int): seq<Entry>
    requires FirstOf(rows, group) < |rows|
  {
    var first := FirstOf(rows, group);
    rows[..first] + [MergedEntry(rows[first])] + Without(rows[first + 1..], group)
  }

  /** The slots of a group that a merge removes. */
  function RemovedSlots(rows: seq<Entry>, group: int): set<int>
    requires FirstOf(rows, group) < |rows|
  {
    set e | e in rows[FirstOf(rows, group) + 1..] && e.splitGroupId == group :: e.slotId
  }

  function Merge(g: GridState, row: int): Outcome {
    if !CanMerge(g.rows, row) then Outcome(g, false, []) else
    var group := g.rows[row].splitGroupId;
    var rows := MergeRows(g.rows, group);
    Outcome(g.(rows := rows, autoSplitApplied := g.autoSplitApplied - RemovedSlots(g.rows, group)), true,
            [DataChanged(FirstOf(g.rows, group), ALL_ROLES)] + SlotSignals(rows))
  }

  // ------------------------------------------------------------- auto-split

  function IndexBySlotId(rows: seq<Entry>, slotId: int): (p: int)
    ensures p == -1 || (0 <= p < |rows| && rows[p].slotId == slotId)
    ensures forall i :: 0 <= i < (if p == -1 then |rows| else p) ==> rows[i].slotId != slotId
  {
    if rows == [] then -1
    else if rows[0].slotId == slotId then 0
    else var p := IndexBySlotId(rows[1..], slotId); if p == -1 then -1 else p + 1
  }

  /** `table` gives the configured tile count of each camera id. */
  type TileTable = string -> int

  function AutoSplit(g: GridState, row: int, table: TileTable): Outcome {
    if !(0 <= row < |g.rows|) then Outcome(g, false, []) else
    var e := g.rows[row];
    if !e.isOnline || e.splitCount != 1 || e.slotId in g.autoSplitApplied then Outcome(g, false, []) else
    Split(g, row, table(e.cameraId), Col, true)
  }

  function AutoSplitSlot(g: GridState, slotId: int, table: TileTable): Outcome {
    AutoSplit(g, IndexBySlotId(g.rows, slotId), table)
  }

  function AutoSplitAll(g: GridState, slots: seq<int>, table: TileTable): Outcome
    decreases |slots|
  {
    if slots == [] then Outcome(g, true, []) else
    var first := AutoSplitSlot(g, slots[0], table);
    var rest := AutoSplitAll(first.grid, slots[1..], table);
    Outcome(rest.grid, true, first.signals + rest.signals)
  }

  /** The slots that are considered for auto-split after an update, in row order. */
  function Candidates(rows: seq<Entry>): (slots: seq<int>) {
    if rows == [] then [] else
    var before := Candidates(rows[..|rows| - 1]);
    var e := rows[|rows| - 1];
    if e.splitCount == 1 && e.isOnline then before + [e.slotId] else before
  }

  // ----------------------------------------------------------- store update

  /** The snapshot keyed by camera id: empty ids skipped, later duplicates win. */
  function ByCameraId(snapshot: seq<CameraData>): (m: map<string, CameraData>) {
    if snapshot == [] then map[] else
    var before := ByCameraId(snapshot[..|snapshot| - 1]);
    var cam := snapshot[|snapshot| - 1];
    if cam.cameraId == "" then before else before[cam.cameraId := cam]
  }

  function RefreshRow(e: Entry, byCid: map<string, CameraData>): Entry {
    if e.cameraId !in byCid then e.(isOnline := false) else
    var snap := byCid[e.cameraId];
    e.(isOnline := snap.isOnline, cameraType := snap.cameraType,
       title := if e.splitCount == 1 then snap.title else e.title)
  }

  function Refresh(rows: seq<Entry>, byCid: map<string, CameraData>): seq<Entry> {
    seq(|rows|, i requires 0 <= i < |rows| => RefreshRow(rows[i], byCid))
  }

  function ChangedRoles(before: Entry, after: Entry): set<Role> {
    (if before.isOnline != after.isOnline then {IsOnlineRole} else {})
    + (if before.cameraType != after.cameraType then {CameraTypeRole} else {})
    + (if before.title != after.title then {TitleRole} else {})
  }

  /** A row that comes back online announces it first; a row that changed at all announces its changed roles. */
  function RowSignals(i: int, before: Entry, after: Entry): seq<Signal> {
    (if !before.isOnline && after.isOnline then [CameraOnline(before.cameraId)] else [])
    + (if before != after then [DataChanged(i, ChangedRoles(before, after))] else [])
  }

  function RefreshSignals(rows: seq<Entry>, byCid: map<string, CameraData>, n: nat): seq<Signal>
    requires n <= |rows|
  {
    if n == 0 then [] else
    RefreshSignals(rows, byCid, n - 1) + RowSignals(n - 1, rows[n - 1], RefreshRow(rows[n - 1], byCid))
  }

  /** `order` lists the keys of the hash, each once, in whatever order the hash iterates. */
  ghost predicate Enumerates(order: seq<string>, byCid: map<string, CameraData>) {
    && (forall c :: c in order <==> c in byCid)
    && (forall i, j :: 0 <= i < j < |order| ==> order[i] != order[j])
  }

  predicate Represented(rows: seq<Entry>, cid: string) {
    exists i :: 0 <= i < |rows| && rows[i].cameraId == cid
  }

  function NewRow(slotId: int, snap: CameraData): Entry {
    DEFAULT_ENTRY.(slotId := slotId, title := snap.title, cameraId := snap.cameraId,
                   isOnline := snap.isOnline, cameraType := snap.cameraType)
  }

  /** The rows for the cameras of `order` that `rows` does not show yet. */
  function NewRows(rows: seq<Entry>, order: seq<string>, byCid: map<string, CameraData>, firstSlot: int): seq<Entry>
    requires forall c :: c in order ==> c in byCid
  {
    if order == [] then [] else
    var c := order[|order| - 1];
    var before := NewRows(rows, order[..|order| - 1], byCid, firstSlot);
    if Represented(rows, c) then before else before + [NewRow(firstSlot + |before|, byCid[c])]
  }

  /** The first two phases of a store update: existing rows refreshed, missing cameras appended. */
  function Absorb(g: GridState, byCid: map<string, CameraData>, order: seq<string>): GridState
    requires Enumerates(order, byCid)
  {
    var added := NewRows(g.rows, order, byCid, g.nextSlotId);
    g.(rows := Refresh(g.rows, byCid) + added, nextSlotId := g.nextSlotId + |added|)
  }

  function StoreUpdated(g: GridState, snapshot: seq<CameraData>, order: seq<string>, table: TileTable): Outcome
    requires Enumerates(order, ByCameraId(snapshot))
  {
    var byCid := ByCameraId(snapshot);
    var absorbed := Absorb(g, byCid, order);
    var split := AutoSplitAll(absorbed, Candidates(absorbed.rows), table);
    Outcome(split.grid, true,
            RefreshSignals(g.rows, byCid, |g.rows|) + SlotSignals(absorbed.rows) + split.signals)
  }

  // ------------------------------------------------------ the smaller edits

  datatype Edit = EditTitle(title: string) | EditOnline(online: bool) | EditCameraType(cameraType: string)

  function EditRow(e: Entry, edit: Edit): Entry {
    match edit
    case EditTitle(t) => e.(title := t)
    case EditOnline(o) => e.(isOnline := o)
    case EditCameraType(t) => e.(cameraType := t)
  }

  function EditedRole(edit: Edit): Role {
    match edit
    case EditTitle(_) => TitleRole
    case EditOnline(_) => IsOnlineRole
    case EditCameraType(_) => CameraTypeRole
  }

  function SetData(g: GridState, row: int, edit: Edit): Outcome {
    if !(0 <= row < |g.rows|) then Outcome(g, false, []) else
    Outcome(g.(rows := g.rows[row := EditRow(g.rows[row], edit)]), true, [DataChanged(row, {EditedRole(edit)})])
  }

  function SenseRow(e: Entry, cid: string, info: DeviceInfo): Entry {
    if e.cameraId == cid then e.(deviceInfo := info) else e
  }

  function UpdateSensorInfo(g: GridState, cid: string, info: DeviceInfo): Outcome {
    var rows := seq(|g.rows|, i requires 0 <= i < |g.rows| => SenseRow(g.rows[i], cid, info));
    Outcome(g.(rows := rows), true, if Represented(g.rows, cid) then [SensorDataUpdated(cid)] else [])
  }

  function ClearAll(g: GridState): Outcome {
    Outcome(EMPTY_GRID, true, SlotSignals([]))
  }

  // ------------------------------------------------------------------- runs

  datatype Op =
    | SwapOp(a: int, b: int)
    | SplitOp(row: int, tileCount: int, direction: int)
    | MergeOp(row: int)
    | AutoSplitOp(slotId: int)
    | StoreOp(snapshot: seq<CameraData>, order: seq<string>)
    | SetDataOp(row: int, edit: Edit)
    | SensorOp(cid: string, info: DeviceInfo)
    | ClearOp
  {
    /** The only side condition: a hash is iterated over its own keys. */
    ghost predicate Possible() {
      StoreOp? ==> Enumerates(order, ByCameraId(snapshot))
    }
  }

  function Step(g: GridState, op: Op, table: TileTable): Outcome
    requires op.Possible()
  {
    match op
    case SwapOp(a, b) => Swap(g, a, b)
    case SplitOp(row, n, d) => Split(g, row, n, DirectionOf(d), false)
    case MergeOp(row) => Merge(g, row)
    case AutoSplitOp(slotId) => AutoSplitSlot(g, slotId, table)
    case StoreOp(snapshot, order) => StoreUpdated(g, snapshot, order, table)
    case SetDataOp(row, edit) => SetData(g, row, edit)
    case SensorOp(cid, info) => UpdateSensorInfo(g, cid, info)
    case ClearOp => ClearAll(g)
  }

  ghost predicate AllPossible(ops: seq<Op>) {
    forall i :: 0 <= i < |ops| ==> ops[i].Possible()
  }

  /** The grid after the calls `ops`, starting from `g`. */
  function Run(g: GridState, ops: seq<Op>, table: TileTable): GridState
    requires AllPossible(ops)
  {
    if ops == [] then g else
    Step(Run(g, ops[..|ops| - 1], table), ops[|ops| - 1], table).grid
  }
}
