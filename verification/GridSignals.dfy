/** What the grid announces, and in which order. */
module GridSignals {
  import opened Strings
  import opened CropGeometry
  import opened CameraGrid
  import opened CameraGridInvariant

  // ----------------------------------------------------- the slots announced

  predicate SlotsSignal(s: Signal) {
    s.SlotsUpdated? || s.CameraIdsUpdated?
  }

  /** An id appears in the announced list if and only if a row shows it and it is not empty; it appears once, and ids
      appear in the order of their first rows. */
  lemma {:induction false} DistinctIdsAre(rows: seq<Entry>)
    ensures forall c :: c in DistinctIds(rows) <==> c != "" && Represented(rows, c)
    ensures forall i, j :: 0 <= i < j < |DistinctIds(rows)| ==> DistinctIds(rows)[i] != DistinctIds(rows)[j]
  {
    if rows != [] {
      var n := |rows| - 1;
      DistinctIdsAre(rows[..n]);
      forall c ensures Represented(rows, c) <==> Represented(rows[..n], c) || rows[n].cameraId == c {
        if Represented(rows, c) && rows[n].cameraId != c {
          var i :| 0 <= i < |rows| && rows[i].cameraId == c;
          assert rows[..n][i].cameraId == c;
        }
        if Represented(rows[..n], c) {
          var i :| 0 <= i < n && rows[..n][i].cameraId == c;
          assert rows[i].cameraId == c;
        }
        assert rows[n].cameraId == c ==> Represented(rows, c);
      }
    }
  }

  lemma DistinctIdsGrow(rows: seq<Entry>, e: Entry)
    ensures DistinctIds(rows) <= DistinctIds(rows + [e])
  {
    assert (rows + [e])[..|rows|] == rows;
  }

  /** An emission: every row's slot and camera in row order, and then the distinct ids. */
  lemma EmissionIs(rows: seq<Entry>)
    ensures var s := SlotSignals(rows);
            && |s| == 2 && s[0].SlotsUpdated? && s[1] == CameraIdsUpdated(DistinctIds(rows))
            && |s[0].slots| == |rows|
            && forall i :: 0 <= i < |rows| ==> s[0].slots[i] == SlotInfo(rows[i].slotId, rows[i].cameraId)
  {
  }

  predicate RolesOfContent(roles: set<Role>) {
    roles == {TitleRole, IsOnlineRole, DescriptionRole, CameraTypeRole, CropRectRole, SplitCountRole,
              SplitDirectionRole, CameraIdRole}
  }

  /** A swap announces the slots and then the two rows with all roles of their content. */
  lemma SwapAnnounces(g: GridState, a: int, b: int)
    requires Swap(g, a, b).ok
    ensures var o := Swap(g, a, b);
            && |o.signals| == 4 && o.signals[..2] == SlotSignals(o.grid.rows)
            && o.signals[2].DataChanged? && o.signals[2].row == a && RolesOfContent(o.signals[2].roles)
            && o.signals[3].DataChanged? && o.signals[3].row == b && RolesOfContent(o.signals[3].roles)
  {
  }

  const EVERY_ROLE: set<Role> := {TitleRole, IsOnlineRole, DescriptionRole, CameraTypeRole, CropRectRole, SplitCountRole,
                                  SplitDirectionRole, CameraIdRole, OtherRole}

  /** A split announces the slots; a merge announces its row with every role and then the slots; so does a clear. */
  lemma OthersAnnounce(g: GridState, row: int, n: int, direction: SplitDirection, autoSplit: bool)
    ensures var o := Split(g, row, n, direction, autoSplit); o.ok ==> o.signals == SlotSignals(o.grid.rows)
    ensures var o := Merge(g, row);
            o.ok ==> && |o.signals| == 3 && o.signals[1..] == SlotSignals(o.grid.rows)
                     && o.signals[0] == DataChanged(FirstOf(g.rows, g.rows[row].splitGroupId), EVERY_ROLE)
    ensures ClearAll(g).signals == [SlotsUpdated([]), CameraIdsUpdated([])]
  {
    assert ALL_ROLES == EVERY_ROLE && SlotList([]) == [] && DistinctIds([]) == [];
    var o := Merge(g, row);
    if o.ok {
      assert o.signals[1..] == SlotSignals(o.grid.rows);
    }
  }

  // ------------------------------------------------------------ store update

  /** What the snapshot says of a row's online flag; a camera it does not list is offline. */
  predicate SaysOnline(e: Entry, byCid: map<string, CameraData>) {
    e.cameraId in byCid && byCid[e.cameraId].isOnline
  }

  predicate ComesOnline(e: Entry, byCid: map<string, CameraData>) {
    !e.isOnline && SaysOnline(e, byCid)
  }

  /** Whether the snapshot disagrees with the row about the role. */
  predicate Differs(e: Entry, byCid: map<string, CameraData>, role: Role) {
    match role
    case IsOnlineRole => e.isOnline != SaysOnline(e, byCid)
    case CameraTypeRole => e.cameraId in byCid && byCid[e.cameraId].cameraType != e.cameraType
    case TitleRole => e.cameraId in byCid && e.splitCount == 1 && byCid[e.cameraId].title != e.title
    case _ => false
  }

  function DifferingRoles(e: Entry, byCid: map<string, CameraData>): set<Role> {
    set r | r in {IsOnlineRole, CameraTypeRole, TitleRole} && Differs(e, byCid, r)
  }

  /** What must be announced of row `i`: its return first, then the roles that change, if any. */
  function Announcement(i: int, e: Entry, byCid: map<string, CameraData>): seq<Signal> {
    (if ComesOnline(e, byCid) then [CameraOnline(e.cameraId)] else [])
    + (if DifferingRoles(e, byCid) != {} then [DataChanged(i, DifferingRoles(e, byCid))] else [])
  }

  function Announcements(rows: seq<Entry>, byCid: map<string, CameraData>, n: nat): seq<Signal>
    requires n <= |rows|
  {
    if n == 0 then [] else Announcements(rows, byCid, n - 1) + Announcement(n - 1, rows[n - 1], byCid)
  }

  lemma RowAnnounces(i: int, e: Entry, byCid: map<string, CameraData>)
    ensures RowSignals(i, e, RefreshRow(e, byCid)) == Announcement(i, e, byCid)
  {
    var r := RefreshRow(e, byCid);
    assert ChangedRoles(e, r) == DifferingRoles(e, byCid);
    if e == r {
      assert DifferingRoles(e, byCid) == {};
    } else {
      assert exists role :: role in {IsOnlineRole, CameraTypeRole, TitleRole} && Differs(e, byCid, role) by {
        assert Differs(e, byCid, IsOnlineRole) || Differs(e, byCid, CameraTypeRole) || Differs(e, byCid, TitleRole);
      }
    }
  }

  lemma {:induction false} RefreshAnnounces(rows: seq<Entry>, byCid: map<string, CameraData>, n: nat)
    requires n <= |rows|
    ensures RefreshSignals(rows, byCid, n) == Announcements(rows, byCid, n)
  {
    if n > 0 {
      RefreshAnnounces(rows, byCid, n - 1);
      RowAnnounces(n - 1, rows[n - 1], byCid);
    }
  }

  lemma {:induction false} AutoSplitAnnouncesSlots(g: GridState, slots: seq<int>, table: TileTable)
    ensures forall s :: s in AutoSplitAll(g, slots, table).signals ==> SlotsSignal(s)
    decreases |slots|
  {
    if slots != [] {
      AutoSplitAnnouncesSlots(AutoSplitSlot(g, slots[0], table).grid, slots[1..], table);
    }
  }

  /** How many of the first `n` rows show the camera and come back online. */
  function Returning(rows: seq<Entry>, byCid: map<string, CameraData>, n: nat, c: string): nat
    requires n <= |rows|
  {
    if n == 0 then 0 else
    Returning(rows, byCid, n - 1, c) + if rows[n - 1].cameraId == c && ComesOnline(rows[n - 1], byCid) then 1 else 0
  }

  /** How often a signal was sent. */
  function Count(signals: seq<Signal>, s: Signal): nat {
    if signals == [] then 0 else (if signals[0] == s then 1 else 0) + Count(signals[1..], s)
  }

  lemma {:induction false} CountsAdd(a: seq<Signal>, b: seq<Signal>, s: Signal)
    ensures Count(a + b, s) == Count(a, s) + Count(b, s)
  {
    if a == [] {
      assert a + b == b;
    } else {
      assert (a + b)[1..] == a[1..] + b;
      CountsAdd(a[1..], b, s);
    }
  }

  lemma {:induction false} CountedIff(signals: seq<Signal>, s: Signal)
    ensures Count(signals, s) > 0 <==> s in signals
  {
    if signals != [] {
      CountedIff(signals[1..], s);
    }
  }

  lemma CountOne(t: Signal, s: Signal)
    ensures Count([t], s) == (if t == s then 1 else 0) && Count([], s) == 0
  {
    assert [t][1..] == [];
  }

  lemma AnnouncedReturn(i: int, e: Entry, byCid: map<string, CameraData>, c: string)
    ensures Count(Announcement(i, e, byCid), CameraOnline(c))
         == if e.cameraId == c && ComesOnline(e, byCid) then 1 else 0
  {
    CountsAdd(if ComesOnline(e, byCid) then [CameraOnline(e.cameraId)] else [],
              if DifferingRoles(e, byCid) != {} then [DataChanged(i, DifferingRoles(e, byCid))] else [], CameraOnline(c));
    CountOne(CameraOnline(e.cameraId), CameraOnline(c));
    CountOne(DataChanged(i, DifferingRoles(e, byCid)), CameraOnline(c));
  }

  lemma {:induction false} AnnouncedReturns(rows: seq<Entry>, byCid: map<string, CameraData>, n: nat, c: string)
    requires n <= |rows|
    ensures Count(Announcements(rows, byCid, n), CameraOnline(c)) == Returning(rows, byCid, n, c)
  {
    if n > 0 {
      var before, last := Announcements(rows, byCid, n - 1), Announcement(n - 1, rows[n - 1], byCid);
      AnnouncedReturns(rows, byCid, n - 1, c);
      AnnouncedReturn(n - 1, rows[n - 1], byCid, c);
      CountsAdd(before, last, CameraOnline(c));
      assert Announcements(rows, byCid, n) == before + last;
    }
  }

  lemma {:induction false} ReturningIff(rows: seq<Entry>, byCid: map<string, CameraData>, n: nat, c: string)
    requires n <= |rows|
    ensures Returning(rows, byCid, n, c) > 0
       <==> exists i :: 0 <= i < n && rows[i].cameraId == c && ComesOnline(rows[i], byCid)
  {
    if n > 0 {
      ReturningIff(rows, byCid, n - 1, c);
    }
  }

  lemma AnnouncedChange(i: int, e: Entry, byCid: map<string, CameraData>, row: int, roles: set<Role>)
    ensures Count(Announcement(i, e, byCid), DataChanged(row, roles))
         == if row == i && roles == DifferingRoles(e, byCid) != {} then 1 else 0
  {
    CountsAdd(if ComesOnline(e, byCid) then [CameraOnline(e.cameraId)] else [],
              if DifferingRoles(e, byCid) != {} then [DataChanged(i, DifferingRoles(e, byCid))] else [],
              DataChanged(row, roles));
    CountOne(CameraOnline(e.cameraId), DataChanged(row, roles));
    CountOne(DataChanged(i, DifferingRoles(e, byCid)), DataChanged(row, roles));
  }

  lemma {:induction false} AnnouncedChanges(rows: seq<Entry>, byCid: map<string, CameraData>, n: nat, row: int, roles: set<Role>)
    requires n <= |rows|
    ensures Count(Announcements(rows, byCid, n), DataChanged(row, roles))
         == if 0 <= row < n && roles == DifferingRoles(rows[row], byCid) != {} then 1 else 0
  {
    if n > 0 {
      var before, last := Announcements(rows, byCid, n - 1), Announcement(n - 1, rows[n - 1], byCid);
      AnnouncedChanges(rows, byCid, n - 1, row, roles);
      AnnouncedChange(n - 1, rows[n - 1], byCid, row, roles);
      CountsAdd(before, last, DataChanged(row, roles));
      assert Announcements(rows, byCid, n) == before + last;
    }
  }

  /** An update announces, row by row, the camera's return and then the roles that differ; then the slots, and from there
      on nothing but slots. */
  lemma StoreAnnounces(g: GridState, snapshot: seq<CameraData>, order: seq<string>, table: TileTable)
    requires Enumerates(order, ByCameraId(snapshot))
    ensures var signals := StoreUpdated(g, snapshot, order, table).signals;
            var head := Announcements(g.rows, ByCameraId(snapshot), |g.rows|);
            && head <= signals && |signals| >= |head| + 2
            && signals[|head|].SlotsUpdated? && signals[|head| + 1].CameraIdsUpdated?
            && (forall i :: |head| <= i < |signals| ==> SlotsSignal(signals[i]))
            && (forall s: Signal :: !SlotsSignal(s) ==> (s in signals <==> s in head))
  {
    var byCid := ByCameraId(snapshot);
    var absorbed := Absorb(g, byCid, order);
    var slots := Candidates(absorbed.rows);
    RefreshAnnounces(g.rows, byCid, |g.rows|);
    AutoSplitAnnouncesSlots(absorbed, slots, table);
    HeadAndRest(Announcements(g.rows, byCid, |g.rows|), SlotSignals(absorbed.rows), AutoSplitAll(absorbed, slots, table).signals);
  }

  /** A camera's return is announced by an update if and only if some row shows it offline and its last entry in the
      snapshot is online. */
  lemma ReturnAnnouncedIff(g: GridState, snapshot: seq<CameraData>, order: seq<string>, table: TileTable, c: string)
    requires Enumerates(order, ByCameraId(snapshot))
    ensures CameraOnline(c) in StoreUpdated(g, snapshot, order, table).signals
       <==> exists i, k :: 0 <= i < |g.rows| && g.rows[i].cameraId == c && !g.rows[i].isOnline
                           && LastEntry(snapshot, c, k) && snapshot[k].isOnline
  {
    var byCid, n := ByCameraId(snapshot), |g.rows|;
    StoreAnnounces(g, snapshot, order, table);
    AnnouncedReturns(g.rows, byCid, n, c);
    ReturningIff(g.rows, byCid, n, c);
    var head := Announcements(g.rows, byCid, n);
    CountedIff(head, CameraOnline(c));
    LastEntryIs(snapshot, c);
  }

  /** The snapshot's last entry of a camera; an empty id is nobody's. */
  predicate LastEntry(snapshot: seq<CameraData>, c: string, k: int) {
    && c != "" && 0 <= k < |snapshot| && snapshot[k].cameraId == c
    && forall j :: k < j < |snapshot| ==> snapshot[j].cameraId != c
  }

  lemma {:induction false} LastEntryIs(snapshot: seq<CameraData>, c: string)
    ensures forall k :: LastEntry(snapshot, c, k) ==> c in ByCameraId(snapshot) && ByCameraId(snapshot)[c] == snapshot[k]
    ensures c in ByCameraId(snapshot) ==> exists k :: LastEntry(snapshot, c, k)
  {
    if snapshot != [] {
      var n := |snapshot| - 1;
      LastEntryIs(snapshot[..n], c);
      forall k | LastEntry(snapshot, c, k)
        ensures c in ByCameraId(snapshot) && ByCameraId(snapshot)[c] == snapshot[k]
      {
        if k < n {
          assert LastEntry(snapshot[..n], c, k);
        }
      }
      if c in ByCameraId(snapshot) {
        if snapshot[n].cameraId == c {
          assert LastEntry(snapshot, c, n);
        } else {
          var k :| LastEntry(snapshot[..n], c, k);
          assert LastEntry(snapshot, c, k);
        }
      }
    }
  }

  /** Ahead of the slots each returning row is announced once, and each row whose flag, type or title differs is announced
      once, with exactly those roles. */
  lemma ChangesAnnouncedOnce(g: GridState, snapshot: seq<CameraData>, order: seq<string>, table: TileTable,
                             c: string, row: int, roles: set<Role>) returns (h: nat)
    requires Enumerates(order, ByCameraId(snapshot))
    ensures var byCid, n, signals := ByCameraId(snapshot), |g.rows|, StoreUpdated(g, snapshot, order, table).signals;
            && h < |signals| && signals[h].SlotsUpdated? && (forall i :: 0 <= i < h ==> !SlotsSignal(signals[i]))
            && Count(signals[..h], CameraOnline(c)) == Returning(g.rows, byCid, n, c)
            && Count(signals[..h], DataChanged(row, roles))
               == (if 0 <= row < n && roles == DifferingRoles(g.rows[row], byCid) != {} then 1 else 0)
  {
    var byCid, n, signals := ByCameraId(snapshot), |g.rows|, StoreUpdated(g, snapshot, order, table).signals;
    var head := Announcements(g.rows, byCid, n);
    StoreAnnounces(g, snapshot, order, table);
    AnnouncedReturns(g.rows, byCid, n, c);
    AnnouncedChanges(g.rows, byCid, n, row, roles);
    NoSlotsAhead(g.rows, byCid, n);
    h := |head|;
    assert signals[..h] == head;
    forall i | 0 <= i < h ensures !SlotsSignal(signals[i]) {
      assert signals[i] == head[i] && head[i] in head;
    }
  }

  lemma {:induction false} NoSlotsAhead(rows: seq<Entry>, byCid: map<string, CameraData>, n: nat)
    requires n <= |rows|
    ensures forall s :: s in Announcements(rows, byCid, n) ==> !SlotsSignal(s)
  {
    if n > 0 {
      NoSlotsAhead(rows, byCid, n - 1);
    }
  }

  lemma HeadAndRest(head: seq<Signal>, slots: seq<Signal>, rest: seq<Signal>)
    requires |slots| == 2 && slots[0].SlotsUpdated? && slots[1].CameraIdsUpdated?
    requires forall s :: s in rest ==> SlotsSignal(s)
    ensures var signals := head + slots + rest;
            && head <= signals && signals[|head|] == slots[0] && signals[|head| + 1] == slots[1]
            && (forall i :: |head| <= i < |signals| ==> SlotsSignal(signals[i]))
            && (forall s: Signal :: !SlotsSignal(s) ==> (s in signals <==> s in head))
  {
    var signals := head + slots + rest;
    forall i | |head| <= i < |signals| ensures SlotsSignal(signals[i]) {
      if i >= |head| + 2 {
        assert signals[i] == rest[i - |head| - 2] && signals[i] in rest;
      }
    }
  }
}
