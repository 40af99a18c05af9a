/** The list model of the devices, with its index by ip. */
module DeviceModel {
  import opened Strings
  import opened DeviceStore
  import opened DeviceTheorems

  /** The index answers exactly the rows: `byIp` is the inverse of the row list. */
  ghost predicate Inverse(rows: seq<Device>, byIp: map<string, int>) {
    && (forall i :: 0 <= i < |rows| ==> rows[i].ip in byIp && byIp[rows[i].ip] == i)
    && (forall ip :: ip in byIp ==> 0 <= byIp[ip] < |rows| && rows[byIp[ip]].ip == ip)
  }

  /** One entry of a snapshot: it replaces the row the index points to, or becomes a new last row. */
  function Absorb(rows: seq<Device>, byIp: map<string, int>, snap: Device): seq<Device> {
    if snap.ip in byIp && 0 <= byIp[snap.ip] < |rows|
    then rows[byIp[snap.ip] := snap.(ip := rows[byIp[snap.ip]].ip)]
    else rows + [snap]
  }

  /** The index is only rebuilt when all entries are in. */
  function AbsorbAll(rows: seq<Device>, byIp: map<string, int>, snapshot: seq<Device>): seq<Device> {
    if snapshot == [] then rows else
    Absorb(AbsorbAll(rows, byIp, snapshot[..|snapshot| - 1]), byIp, snapshot[|snapshot| - 1])
  }

  function IndexOf(rows: seq<Device>): map<string, int> {
    if rows == [] then map[] else IndexOf(rows[..|rows| - 1])[rows[|rows| - 1].ip := |rows| - 1]
  }

  class DeviceModel {
    var devices: seq<Device>
    var byIp: map<string, int>

    constructor ()
      ensures devices == [] && byIp == map[] && Valid() && InBounds()
    {
      devices, byIp := [], map[];
    }

    ghost predicate Valid()
      reads this
    {
      Inverse(devices, byIp)
    }

    /** The least that keeps lookups in bounds. */
    ghost predicate InBounds()
      reads this
    {
      forall ip :: ip in byIp ==> 0 <= byIp[ip] < |devices|
    }

    method FindIndexByIp(ip: string) returns (p: int)
      ensures p == if ip in byIp then byIp[ip] else -1
      ensures Valid() && p != -1 ==> 0 <= p < |devices| && devices[p].ip == ip
    {
      p := if ip in byIp then byIp[ip] else -1;
    }

    method OnStoreUpdated(snapshot: seq<Device>)
      requires InBounds()
      modifies this
      ensures InBounds()
      ensures devices == AbsorbAll(old(devices), old(byIp), snapshot)
      ensures byIp == IndexOf(devices)
    {
      var i := 0;
      while i < |snapshot|
        invariant 0 <= i <= |snapshot|
        invariant byIp == old(byIp) && |devices| >= |old(devices)|
        invariant devices == AbsorbAll(old(devices), byIp, snapshot[..i])
      {
        assert snapshot[..i + 1][..i] == snapshot[..i];
        var snap := snapshot[i];
        var idx := FindIndexByIp(snap.ip);
        if idx >= 0 {
          var entry := devices[idx];
          entry := entry.(cameraId := snap.cameraId, kind := snap.kind, isOnline := snap.isOnline,
                          cpu := snap.cpu, memory := snap.memory, temp := snap.temp, uptime := snap.uptime,
                          lastUpdate := snap.lastUpdate,
                          hasMotor := snap.hasMotor, hasIr := snap.hasIr, hasHeater := snap.hasHeater,
                          history := snap.history);
          devices := devices[idx := entry];
        } else {
          devices := devices + [snap];
        }
        i := i + 1;
      }
      assert snapshot[..i] == snapshot;
      RebuildIndex();
      IndexOfIs(devices);
    }

    method RebuildIndex()
      modifies this`byIp
      ensures byIp == IndexOf(devices)
    {
      byIp := map[];
      var i := 0;
      while i < |devices|
        invariant 0 <= i <= |devices|
        invariant byIp == IndexOf(devices[..i])
      {
        assert devices[..i + 1][..i] == devices[..i];
        byIp := byIp[devices[i].ip := i];
        i := i + 1;
      }
      assert devices[..i] == devices;
    }

    method ClearAll()
      modifies this
      ensures devices == [] && byIp == map[] && Valid() && InBounds()
    {
      devices, byIp := [], map[];
    }
  }

  /** The rebuilt index holds the last row of every ip, so it stays within the list. */
  lemma {:induction false} IndexOfIs(rows: seq<Device>)
    ensures var m := IndexOf(rows);
            && (forall ip :: ip in m ==> 0 <= m[ip] < |rows| && rows[m[ip]].ip == ip)
            && (forall i :: 0 <= i < |rows| ==> rows[i].ip in m && i <= m[rows[i].ip])
  {
    if rows != [] {
      IndexOfIs(rows[..|rows| - 1]);
      assert forall i :: 0 <= i < |rows| - 1 ==> rows[..|rows| - 1][i] == rows[i];
    }
  }

  /** The rebuilt index is the inverse of the list exactly when no ip has two rows. */
  lemma IndexIsInverseIff(rows: seq<Device>)
    ensures Inverse(rows, IndexOf(rows)) <==> Distinct(rows)
  {
    IndexOfIs(rows);
    var m := IndexOf(rows);
    if Distinct(rows) {
      forall i | 0 <= i < |rows| ensures m[rows[i].ip] == i {
        assert rows[m[rows[i].ip]].ip == rows[i].ip;
      }
    }
  }

  /** No ip the index does not know is listed twice. */
  ghost predicate NewOnesDistinct(byIp: map<string, int>, snapshot: seq<Device>) {
    forall i, j :: 0 <= i < j < |snapshot| && snapshot[i].ip !in byIp ==> snapshot[i].ip != snapshot[j].ip
  }

  /** While entries go in, the old rows keep their ips and the new ones are unknown to the index. */
  lemma {:induction false} AbsorbAllRows(rows: seq<Device>, byIp: map<string, int>, snapshot: seq<Device>)
    requires Inverse(rows, byIp)
    ensures var after := AbsorbAll(rows, byIp, snapshot);
            && |after| >= |rows|
            && (forall i :: 0 <= i < |rows| ==> after[i].ip == rows[i].ip)
            && (forall i :: |rows| <= i < |after| ==> after[i].ip !in byIp)
  {
    if snapshot != [] {
      AbsorbAllRows(rows, byIp, snapshot[..|snapshot| - 1]);
    }
  }

  lemma SameIpsSameLookup(rows: seq<Device>, p: nat, d: Device, ip: string)
    requires p < |rows| && d.ip == rows[p].ip
    ensures Lookup(rows[p := d], ip).Some? <==> Lookup(rows, ip).Some?
    ensures Distinct(rows[p := d]) <==> Distinct(rows)
  {
    assert forall i :: 0 <= i < |rows| ==> rows[p := d][i].ip == rows[i].ip;
    var q, r := FindIndexByIp(rows, ip), FindIndexByIp(rows[p := d], ip);
    if q != -1 {
      assert rows[p := d][q].ip == ip;
    }
  }

  lemma {:induction false} UnknownLookup(rows: seq<Device>, byIp: map<string, int>, ip: string)
    requires Inverse(rows, byIp)
    ensures ip !in byIp ==> Lookup(rows, ip).None?
    ensures Distinct(rows)
  {
    forall i, j | 0 <= i < j < |rows| ensures rows[i].ip != rows[j].ip {
      assert byIp[rows[i].ip] == i && byIp[rows[j].ip] == j;
    }
  }

  /** An unknown ip gets a row exactly when the snapshot lists it. */
  lemma {:induction false} AbsorbAllAdds(rows: seq<Device>, byIp: map<string, int>, snapshot: seq<Device>, ip: string)
    requires Inverse(rows, byIp) && ip !in byIp
    ensures Lookup(AbsorbAll(rows, byIp, snapshot), ip).Some? <==> exists i :: 0 <= i < |snapshot| && snapshot[i].ip == ip
  {
    if snapshot == [] {
      UnknownLookup(rows, byIp, ip);
    } else {
      var init, snap := snapshot[..|snapshot| - 1], snapshot[|snapshot| - 1];
      var before := AbsorbAll(rows, byIp, init);
      AbsorbAllRows(rows, byIp, init);
      AbsorbAllAdds(rows, byIp, init, ip);
      assert forall i :: 0 <= i < |init| ==> init[i] == snapshot[i];
      if snap.ip in byIp {
        SameIpsSameLookup(before, byIp[snap.ip], snap, ip);
      } else {
        LookupAppend(before, snap, ip);
      }
    }
  }

  lemma {:induction false} AbsorbAllDistinctIff(rows: seq<Device>, byIp: map<string, int>, snapshot: seq<Device>)
    requires Inverse(rows, byIp)
    ensures Distinct(AbsorbAll(rows, byIp, snapshot)) <==> NewOnesDistinct(byIp, snapshot)
  {
    if snapshot == [] {
      UnknownLookup(rows, byIp, "");
    } else {
      var init, snap := snapshot[..|snapshot| - 1], snapshot[|snapshot| - 1];
      var before := AbsorbAll(rows, byIp, init);
      AbsorbAllRows(rows, byIp, init);
      AbsorbAllDistinctIff(rows, byIp, init);
      assert forall i :: 0 <= i < |init| ==> init[i] == snapshot[i];
      if snap.ip in byIp {
        SameIpsSameLookup(before, byIp[snap.ip], snap, "");
      } else {
        AbsorbAllAdds(rows, byIp, init, snap.ip);
        DistinctAppend(before, snap);
        assert snapshot[|init|] == snap;
      }
    }
  }

  /** A store update keeps the index the exact inverse of the rows if and only if no unknown ip is listed twice. */
  lemma UpdateKeepsInverseIff(rows: seq<Device>, byIp: map<string, int>, snapshot: seq<Device>)
    requires Inverse(rows, byIp)
    ensures var after := AbsorbAll(rows, byIp, snapshot);
            Inverse(after, IndexOf(after)) <==> NewOnesDistinct(byIp, snapshot)
  {
    AbsorbAllDistinctIff(rows, byIp, snapshot);
    IndexIsInverseIff(AbsorbAll(rows, byIp, snapshot));
  }

  /** With one entry per ip, every device of the snapshot is in its row afterwards and all others are as before. */
  lemma {:induction false} UpdateShowsSnapshot(rows: seq<Device>, byIp: map<string, int>, snapshot: seq<Device>, ip: string)
    requires Inverse(rows, byIp) && Distinct(snapshot)
    ensures Lookup(AbsorbAll(rows, byIp, snapshot), ip)
            == if Lookup(snapshot, ip).Some? then Lookup(snapshot, ip) else Lookup(rows, ip)
  {
    if snapshot != [] {
      var init, snap := snapshot[..|snapshot| - 1], snapshot[|snapshot| - 1];
      var before := AbsorbAll(rows, byIp, init);
      assert snapshot == init + [snap];
      DistinctAppend(init, snap);
      LookupAppend(init, snap, ip);
      AbsorbAllRows(rows, byIp, init);
      UpdateShowsSnapshot(rows, byIp, init, ip);
      if snap.ip in byIp {
        FirstRowOf(rows, byIp, before, snap.ip);
        LookupUpdate(before, byIp[snap.ip], snap, ip);
      } else {
        UpdateShowsSnapshot(rows, byIp, init, snap.ip);
        LookupAppend(before, snap, ip);
        UnknownLookup(rows, byIp, snap.ip);
      }
    }
  }

  /** The index points to the first row of its ip. */
  lemma FirstRowOf(rows: seq<Device>, byIp: map<string, int>, after: seq<Device>, ip: string)
    requires Inverse(rows, byIp) && ip in byIp
    requires |after| >= |rows| && forall i :: 0 <= i < |rows| ==> after[i].ip == rows[i].ip
    ensures FindIndexByIp(after, ip) == byIp[ip]
  {
    var p := FindIndexByIp(after, ip);
    assert after[byIp[ip]].ip == ip;
    assert 0 <= p <= byIp[ip];
    assert byIp[rows[p].ip] == p;
  }

  /** Fed with the store's table after each packet, the model's rows are the store's devices. */
  lemma ModelFollowsStore(rows: seq<Device>, byIp: map<string, int>, log: seq<Packet>, ip: string)
    requires Inverse(rows, byIp) && Distinct(Table(log)) && Lookup(Table(log), ip).Some?
    ensures var after := AbsorbAll(rows, byIp, Table(log));
            Inverse(after, IndexOf(after))
            && ip in IndexOf(after) && Some(after[IndexOf(after)[ip]]) == Lookup(Table(log), ip)
  {
    var after := AbsorbAll(rows, byIp, Table(log));
    UpdateKeepsInverseIff(rows, byIp, Table(log));
    UpdateShowsSnapshot(rows, byIp, Table(log), ip);
    var p := FindIndexByIp(after, ip);
    assert after[p].ip == ip;
  }

  // ------------------------------------------------------------ a whole log

  /** No CAMERA packet of the log lists an ip twice. */
  ghost predicate ListsDistinct(log: seq<Packet>) {
    forall p :: p in log && p.Camera? ==> DistinctItems(p.cameras)
  }

  lemma {:induction false} TableIsDistinct(log: seq<Packet>)
    requires ListsDistinct(log)
    ensures Distinct(Table(log))
  {
    if log != [] {
      var init, p := log[..|log| - 1], log[|log| - 1];
      TableIsDistinct(init);
      assert p in log;
      match p {
        case Camera(items) => CameraKeepsDistinctIff(Table(init), items);
        case Available(items, timestamp) => AvailableKeepsDistinct(Table(init), items, timestamp);
      }
    }
  }

  /** The model's rows when it was given the store's table after every packet of the log. */
  function RowsAfter(log: seq<Packet>): seq<Device> {
    if log == [] then [] else
    var before := RowsAfter(log[..|log| - 1]);
    AbsorbAll(before, IndexOf(before), Table(log))
  }

  /** The lookups of the model and of the store agree, and the index is the inverse of the rows. */
  ghost predicate Follows(rows: seq<Device>, devices: seq<Device>) {
    Inverse(rows, IndexOf(rows)) && forall ip :: ip != "" ==> Lookup(rows, ip) == Lookup(devices, ip)
  }

  lemma UpdateFollows(rows: seq<Device>, devices: seq<Device>, p: Packet)
    requires Follows(rows, devices) && Distinct(Apply(devices, p))
    ensures Follows(AbsorbAll(rows, IndexOf(rows), Apply(devices, p)), Apply(devices, p))
  {
    var snapshot := Apply(devices, p);
    var after := AbsorbAll(rows, IndexOf(rows), snapshot);
    UpdateKeepsInverseIff(rows, IndexOf(rows), snapshot);
    forall ip | ip != "" ensures Lookup(after, ip) == Lookup(snapshot, ip) {
      UpdateShowsSnapshot(rows, IndexOf(rows), snapshot, ip);
      if Lookup(devices, ip).Some? {
        KnownStaysKnown(devices, p, ip);
      }
    }
  }

  /** After every log whose CAMERA packets list no ip twice, the index is the inverse of the model's rows, and the
      model shows under every ip the store's device, or none when the store has none. */
  lemma {:induction false} ModelFollowsLog(log: seq<Packet>)
    requires ListsDistinct(log)
    ensures Follows(RowsAfter(log), Table(log))
  {
    if log == [] {
      assert IndexOf([]) == map[];
    } else {
      var init, p := log[..|log| - 1], log[|log| - 1];
      ModelFollowsLog(init);
      TableIsDistinct(log);
      UpdateFollows(RowsAfter(init), Table(init), p);
    }
  }
}
