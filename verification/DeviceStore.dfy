/** The device table that CAMERA and AVAILABLE packets are merged into. */
module DeviceStore {
  import opened Strings
  import opened CameraIds

  datatype Sample = Sample(timestamp: int, cpu: real, memory: real, temp: real, uptime: int)

  datatype Device = Device(
    ip: string,
    cameraId: string, kind: string, isOnline: bool,
    cpu: real, memory: real, temp: real, uptime: int, lastUpdate: int,
    hasMotor: bool, hasIr: bool, hasHeater: bool,
    history: seq<Sample>)

  function NewDevice(ip: string): Device {
    Device(ip, "", "", false, 0.0, 0.0, 0.0, 0, 0, true, false, false, [])
  }

  const MAX_HISTORY := 60

  /** A decoded element of an AVAILABLE packet. */
  datatype AvailableItem = AvailableItem(ip: string, cpu: real, memory: real, temp: real, uptime: int)

  // ------------------------------------------------------------- operations

  function FindIndexByIp(devices: seq<Device>, ip: string): (p: int)
    ensures p == -1 || (0 <= p < |devices| && devices[p].ip == ip)
    ensures forall i :: 0 <= i < (if p == -1 then |devices| else p) ==> devices[i].ip != ip
  {
    if devices == [] then -1
    else if devices[0].ip == ip then 0
    else var p := FindIndexByIp(devices[1..], ip); if p == -1 then -1 else p + 1
  }

  /** The device a packet's item or a caller finds under an ip. */
  function Lookup(devices: seq<Device>, ip: string): Option<Device> {
    var p := FindIndexByIp(devices, ip);
    if p == -1 then None else Some(devices[p])
  }

  function OrNew(d: Option<Device>, ip: string): Device {
    match d case Some(v) => v case None => NewDevice(ip)
  }

  /** What a CAMERA item says about its device; the dynamic half stays. */
  function WithCamera(d: Device, item: CameraItem): Device
    requires item.ip != ""
  {
    d.(cameraId := DeviceStoreId(item.ip, item.sourceUrl), kind := item.kind, isOnline := item.isOnline,
       hasMotor := item.kind == "SUB_PI", hasIr := false, hasHeater := false)
  }

  /** One row per item with an ip. */
  function ListedDevices(devices: seq<Device>, items: seq<CameraItem>): seq<Device> {
    if items == [] then [] else
    var before := ListedDevices(devices, items[..|items| - 1]);
    var item := items[|items| - 1];
    if item.ip == "" then before else before + [WithCamera(OrNew(Lookup(devices, item.ip), item.ip), item)]
  }

  /** The rows of `rest` that are not there yet follow, offline. */
  function AppendOffline(merged: seq<Device>, rest: seq<Device>): seq<Device> {
    if rest == [] then merged else
    var before := AppendOffline(merged, rest[..|rest| - 1]);
    var d := rest[|rest| - 1];
    if Lookup(before, d.ip).Some? then before else before + [d.(isOnline := false)]
  }

  function CameraUpdate(devices: seq<Device>, items: seq<CameraItem>): seq<Device> {
    AppendOffline(ListedDevices(devices, items), devices)
  }

  function AddSample(d: Device, s: Sample): Device {
    var longer := d.history + [s];
    d.(history := if |longer| > MAX_HISTORY then longer[|longer| - MAX_HISTORY..] else longer)
  }

  function ItemSample(item: AvailableItem, timestamp: int): Sample {
    Sample(timestamp, item.cpu, item.memory, item.temp, item.uptime)
  }

  function WithSample(d: Device, s: Sample): Device {
    AddSample(d.(cpu := s.cpu, memory := s.memory, temp := s.temp, uptime := s.uptime, lastUpdate := s.timestamp), s)
  }

  function AvailableStep(devices: seq<Device>, item: AvailableItem, timestamp: int): seq<Device> {
    if item.ip == "" then devices else
    var p := FindIndexByIp(devices, item.ip);
    var s := ItemSample(item, timestamp);
    if p >= 0 then devices[p := WithSample(devices[p], s)] else devices + [WithSample(NewDevice(item.ip), s)]
  }

  function AvailableUpdate(devices: seq<Device>, items: seq<AvailableItem>, timestamp: int): seq<Device> {
    if items == [] then devices else
    AvailableStep(AvailableUpdate(devices, items[..|items| - 1], timestamp), items[|items| - 1], timestamp)
  }

  lemma AvailableNext(devices: seq<Device>, items: seq<AvailableItem>, i: nat, timestamp: int)
    requires i < |items|
    ensures AvailableUpdate(devices, items[..i + 1], timestamp)
         == AvailableStep(AvailableUpdate(devices, items[..i], timestamp), items[i], timestamp)
  {
    assert items[..i + 1][..i] == items[..i];
  }

  // ------------------------------------------------------------- the object

  method IndexByIp(devices: seq<Device>, ip: string) returns (p: int)
    ensures p == FindIndexByIp(devices, ip)
  {
    var i := 0;
    while i < |devices|
      invariant 0 <= i <= |devices|
      invariant forall j :: 0 <= j < i ==> devices[j].ip != ip
    {
      if devices[i].ip == ip {
        return i;
      }
      i := i + 1;
    }
    return -1;
  }

  class DeviceStore {
    var devices: seq<Device>

    constructor ()
      ensures devices == []
    {
      devices := [];
    }

    method UpdateFromCameraJson(items: seq<CameraItem>) returns (merged: seq<Device>)
      modifies this
      ensures devices == merged == CameraUpdate(old(devices), items)
    {
      merged := [];
      var i := 0;
      while i < |items|
        invariant 0 <= i <= |items|
        invariant merged == ListedDevices(devices, items[..i])
        invariant devices == old(devices)
      {
        assert items[..i + 1][..i] == items[..i];
        var item := items[i];
        if item.ip != "" {
          var p := IndexByIp(devices, item.ip);
          var device := NewDevice(item.ip);
          if p != -1 {
            device := devices[p];
          }
          device := device.(cameraId := DeviceStoreId(item.ip, item.sourceUrl));
          device := device.(kind := item.kind, isOnline := item.isOnline);
          device := device.(hasMotor := device.kind == "SUB_PI", hasIr := false, hasHeater := false);
          merged := merged + [device];
        }
        i := i + 1;
      }
      assert items[..i] == items;
      i := 0;
      while i < |devices|
        invariant 0 <= i <= |devices|
        invariant |devices| == |old(devices)|
        invariant merged == AppendOffline(ListedDevices(old(devices), items), old(devices)[..i])
        invariant forall j :: i <= j < |devices| ==> devices[j] == old(devices)[j]
      {
        assert old(devices)[..i + 1][..i] == old(devices)[..i];
        var p := IndexByIp(merged, devices[i].ip);
        if p == -1 {
          devices := devices[i := devices[i].(isOnline := false)];
          merged := merged + [devices[i]];
        }
        i := i + 1;
      }
      assert old(devices)[..i] == old(devices);
      devices := merged;
    }

    method UpdateFromAvailableJson(items: seq<AvailableItem>, timestamp: int) returns (snap: seq<Device>)
      modifies this
      ensures devices == snap == AvailableUpdate(old(devices), items, timestamp)
    {
      var i := 0;
      while i < |items|
        invariant 0 <= i <= |items|
        invariant devices == AvailableUpdate(old(devices), items[..i], timestamp)
      {
        AvailableNext(old(devices), items, i, timestamp);
        UpdateFromItem(items[i], timestamp);
        i := i + 1;
      }
      assert items[..i] == items;
      snap := devices;
    }

    method UpdateFromItem(item: AvailableItem, timestamp: int)
      modifies this
      ensures devices == AvailableStep(old(devices), item, timestamp)
    {
      if item.ip == "" {
        return;
      }
      var p := IndexByIp(devices, item.ip);
      if p < 0 {
        devices := devices + [NewDevice(item.ip)];
        p := |devices| - 1;
      }
      var d := devices[p].(cpu := item.cpu, memory := item.memory, temp := item.temp, uptime := item.uptime,
                           lastUpdate := timestamp);
      var s := Sample(timestamp, d.cpu, d.memory, d.temp, d.uptime);
      var history := PushBounded(d.history, s);
      devices := devices[p := d.(history := history)];
      assert AddSample(d, s).history == history;
    }

    method GetHistory(ip: string) returns (h: seq<Sample>)
      ensures h == match Lookup(devices, ip) case Some(d) => d.history case None => []
    {
      var p := IndexByIp(devices, ip);
      if p < 0 {
        return [];
      }
      return devices[p].history;
    }

    method Clear()
      modifies this
      ensures devices == []
    {
      devices := [];
    }
  }

  /** Pushes at the back and pops at the front while there are too many. */
  method PushBounded(history: seq<Sample>, s: Sample) returns (h: seq<Sample>)
    ensures var longer := history + [s];
            h == if |longer| > MAX_HISTORY then longer[|longer| - MAX_HISTORY..] else longer
  {
    h := history + [s];
    ghost var longer := h;
    while |h| > MAX_HISTORY
      invariant |h| <= |longer| && h == longer[|longer| - |h|..]
      invariant |h| >= MAX_HISTORY || h == longer
    {
      h := h[1..];
    }
  }
}
