/** The device table against the unbounded log of the packets that made it. */
module DeviceTheorems {
  import opened Strings
  import opened CameraIds
  import opened DeviceStore

  /** A packet as a pool worker applies it; the clock reading is part of the packet. */
  datatype Packet = Camera(cameras: seq<CameraItem>) | Available(samples: seq<AvailableItem>, timestamp: int)

  function Apply(devices: seq<Device>, p: Packet): seq<Device> {
    match p
    case Camera(items) => CameraUpdate(devices, items)
    case Available(items, timestamp) => AvailableUpdate(devices, items, timestamp)
  }

  /** The table after the packets of `log`, starting from an empty one. */
  function Table(log: seq<Packet>): seq<Device> {
    if log == [] then [] else Apply(Table(log[..|log| - 1]), log[|log| - 1])
  }

  // ---------------------------------------------------------------- the log

  function CameraPackets(log: seq<Packet>): seq<seq<CameraItem>> {
    if log == [] then [] else
    var before := CameraPackets(log[..|log| - 1]);
    var p := log[|log| - 1];
    if p.Camera? then before + [p.cameras] else before
  }

  function AvailablePackets(log: seq<Packet>): seq<Packet> {
    if log == [] then [] else
    var before := AvailablePackets(log[..|log| - 1]);
    var p := log[|log| - 1];
    if p.Available? then before + [p] else before
  }

  /** The first item of a CAMERA packet for this ip. */
  function ItemFor(items: seq<CameraItem>, ip: string): (r: Option<CameraItem>)
    ensures r.Some? ==> r.value.ip == ip
  {
    if items == [] then None
    else if items[0].ip == ip then Some(items[0])
    else ItemFor(items[1..], ip)
  }

  /** What the latest CAMERA packet that lists this ip says about it. */
  function LastListing(packets: seq<seq<CameraItem>>, ip: string): (r: Option<CameraItem>)
    ensures r.Some? ==> r.value.ip == ip
  {
    if packets == [] then None else
    match ItemFor(packets[|packets| - 1], ip)
    case Some(item) => Some(item)
    case None => LastListing(packets[..|packets| - 1], ip)
  }

  /** Whether the latest CAMERA packet lists this ip as online. */
  predicate OnlineInLatest(packets: seq<seq<CameraItem>>, ip: string) {
    packets != [] &&
    match ItemFor(packets[|packets| - 1], ip)
    case Some(item) => item.isOnline
    case None => false
  }

  function SamplesIn(items: seq<AvailableItem>, timestamp: int, ip: string): seq<Sample> {
    if items == [] then [] else
    var before := SamplesIn(items[..|items| - 1], timestamp, ip);
    var item := items[|items| - 1];
    if item.ip == ip then before + [ItemSample(item, timestamp)] else before
  }

  /** Every sample ever received for this ip, in order. */
  function Samples(packets: seq<Packet>, ip: string): seq<Sample> {
    if packets == [] then [] else
    var p := packets[|packets| - 1];
    Samples(packets[..|packets| - 1], ip) + (if p.Available? then SamplesIn(p.samples, p.timestamp, ip) else [])
  }

  function LastOnes(samples: seq<Sample>): seq<Sample> {
    if |samples| > MAX_HISTORY then samples[|samples| - MAX_HISTORY..] else samples
  }

  /** The static half as the last listing has it, or as a new device starts. */
  function StaticPart(d: Device, listing: Option<CameraItem>, online: bool): Device
    requires listing.Some? ==> listing.value.ip != ""
  {
    match listing
    case None => d
    case Some(item) => WithCamera(d, item).(isOnline := online)
  }

  /** The dynamic half: the current values are the last sample's, the history the last sixty. */
  function DynamicPart(d: Device, samples: seq<Sample>): Device {
    if samples == [] then d else
    var s := samples[|samples| - 1];
    d.(cpu := s.cpu, memory := s.memory, temp := s.temp, uptime := s.uptime, lastUpdate := s.timestamp,
       history := LastOnes(samples))
  }

  /** The device the log calls for: none while neither kind of packet has mentioned the ip. */
  function Expected(cameras: seq<seq<CameraItem>>, available: seq<Packet>, ip: string): Option<Device>
    requires ip != ""
  {
    var listing := LastListing(cameras, ip);
    var samples := Samples(available, ip);
    if listing.None? && samples == [] then None else
    Some(DynamicPart(StaticPart(NewDevice(ip), listing, OnlineInLatest(cameras, ip)), samples))
  }

  // ---------------------------------------------------------- one CAMERA packet

  lemma {:induction false} LookupAppend(devices: seq<Device>, d: Device, ip: string)
    ensures Lookup(devices + [d], ip)
            == if Lookup(devices, ip).Some? then Lookup(devices, ip) else if d.ip == ip then Some(d) else None
  {
    if devices == [] {
      assert [] + [d] == [d];
      assert [d][1..] == [];
    } else {
      assert (devices + [d])[1..] == devices[1..] + [d];
      LookupAppend(devices[1..], d, ip);
    }
  }

  lemma {:induction false} LookupIp(devices: seq<Device>, ip: string)
    ensures Lookup(devices, ip).Some? ==> Lookup(devices, ip).value.ip == ip
  {
  }

  lemma {:induction false} ItemForAppend(items: seq<CameraItem>, item: CameraItem, ip: string)
    ensures ItemFor(items + [item], ip)
            == if ItemFor(items, ip).Some? then ItemFor(items, ip) else if item.ip == ip then Some(item) else None
  {
    if items == [] {
      assert [] + [item] == [item];
    } else {
      assert (items + [item])[1..] == items[1..] + [item];
      ItemForAppend(items[1..], item, ip);
    }
  }

  lemma {:induction false} LookupListed(devices: seq<Device>, items: seq<CameraItem>, ip: string)
    requires ip != ""
    ensures var item := ItemFor(items, ip);
            Lookup(ListedDevices(devices, items), ip)
            == if item.None? then None else Some(WithCamera(OrNew(Lookup(devices, ip), ip), item.value))
  {
    if items != [] {
      var init, item := items[..|items| - 1], items[|items| - 1];
      assert items == init + [item];
      LookupListed(devices, init, ip);
      ItemForAppend(init, item, ip);
      LookupIp(devices, item.ip);
      if item.ip != "" {
        LookupAppend(ListedDevices(devices, init), WithCamera(OrNew(Lookup(devices, item.ip), item.ip), item), ip);
      }
    }
  }

  lemma {:induction false} LookupOffline(merged: seq<Device>, rest: seq<Device>, ip: string)
    ensures Lookup(AppendOffline(merged, rest), ip)
            == if Lookup(merged, ip).Some? then Lookup(merged, ip)
               else match Lookup(rest, ip) case Some(d) => Some(d.(isOnline := false)) case None => None
  {
    if rest != [] {
      var init, d := rest[..|rest| - 1], rest[|rest| - 1];
      assert rest == init + [d];
      LookupOffline(merged, init, ip);
      LookupAppend(init, d, ip);
      LookupAppend(AppendOffline(merged, init), d.(isOnline := false), ip);
    }
  }

  /** After a CAMERA packet a listed device has the packet's static half, any other known one is offline. */
  lemma LookupAfterCamera(devices: seq<Device>, items: seq<CameraItem>, ip: string)
    requires ip != ""
    ensures Lookup(CameraUpdate(devices, items), ip)
            == match ItemFor(items, ip)
               case Some(item) => Some(WithCamera(OrNew(Lookup(devices, ip), ip), item))
               case None => match Lookup(devices, ip) case Some(d) => Some(d.(isOnline := false)) case None => None
  {
    LookupListed(devices, items, ip);
    LookupOffline(ListedDevices(devices, items), devices, ip);
  }

  // ------------------------------------------------------- one AVAILABLE packet

  function Sampled(d: Option<Device>, ip: string, samples: seq<Sample>): Option<Device> {
    if samples == [] then d else
    Some(WithSample(OrNew(Sampled(d, ip, samples[..|samples| - 1]), ip), samples[|samples| - 1]))
  }

  lemma LookupAfterItem(devices: seq<Device>, item: AvailableItem, timestamp: int, ip: string)
    requires ip != ""
    ensures Lookup(AvailableStep(devices, item, timestamp), ip)
            == if item.ip == ip then Some(WithSample(OrNew(Lookup(devices, ip), ip), ItemSample(item, timestamp)))
               else Lookup(devices, ip)
  {
    if item.ip != "" {
      var p := FindIndexByIp(devices, item.ip);
      if p < 0 {
        LookupAppend(devices, WithSample(NewDevice(item.ip), ItemSample(item, timestamp)), ip);
      } else {
        LookupUpdate(devices, p, WithSample(devices[p], ItemSample(item, timestamp)), ip);
      }
    }
  }

  lemma {:induction false} LookupUpdate(devices: seq<Device>, p: nat, d: Device, ip: string)
    requires p < |devices| && d.ip == devices[p].ip && FindIndexByIp(devices, d.ip) == p
    ensures Lookup(devices[p := d], ip) == if d.ip == ip then Some(d) else Lookup(devices, ip)
  {
    var q, r := FindIndexByIp(devices, ip), FindIndexByIp(devices[p := d], ip);
    if q != -1 {
      assert devices[p := d][q].ip == ip;
    }
    if r != -1 {
      assert devices[r].ip == ip;
    }
    assert q == r;
  }

  lemma {:induction false} LookupAfterAvailable(devices: seq<Device>, items: seq<AvailableItem>, timestamp: int, ip: string)
    requires ip != ""
    ensures Lookup(AvailableUpdate(devices, items, timestamp), ip)
            == Sampled(Lookup(devices, ip), ip, SamplesIn(items, timestamp, ip))
  {
    if items != [] {
      LookupAfterAvailable(devices, items[..|items| - 1], timestamp, ip);
      LookupAfterItem(AvailableUpdate(devices, items[..|items| - 1], timestamp), items[|items| - 1], timestamp, ip);
    }
  }

  // ------------------------------------------------------------- refinement

  lemma LastOnesExtend(samples: seq<Sample>, s: Sample)
    ensures var kept := LastOnes(samples) + [s];
            LastOnes(samples + [s]) == if |kept| > MAX_HISTORY then kept[1..] else kept
  {
    var all := samples + [s];
    if |samples| > MAX_HISTORY {
      assert all[|all| - MAX_HISTORY..] == samples[|samples| - MAX_HISTORY + 1..] + [s];
      assert (samples[|samples| - MAX_HISTORY..] + [s])[1..] == samples[|samples| - MAX_HISTORY + 1..] + [s];
    } else if |samples| == MAX_HISTORY {
      assert all[1..] == samples[1..] + [s];
    }
  }

  lemma SampleExtends(d: Device, samples: seq<Sample>, s: Sample)
    requires d.history == []
    ensures WithSample(DynamicPart(d, samples), s) == DynamicPart(d, samples + [s])
  {
    LastOnesExtend(samples, s);
    assert DynamicPart(d, samples).history == LastOnes(samples);
  }

  lemma {:induction false} SampledExtends(d: Device, ip: string, before: seq<Sample>, more: seq<Sample>, known: bool)
    requires d.history == [] && (known || (before == [] && d == NewDevice(ip)))
    ensures Sampled(if known then Some(DynamicPart(d, before)) else None, ip, more)
            == if known || more != [] then Some(DynamicPart(d, before + more)) else None
  {
    if more == [] {
      assert before + more == before;
    } else {
      var init, s := more[..|more| - 1], more[|more| - 1];
      SampledExtends(d, ip, before, init, known);
      SampleExtends(d, before + init, s);
      assert before + more == before + init + [s];
    }
  }

  lemma CameraSetsStatic(d: Device, samples: seq<Sample>, item: CameraItem)
    requires item.ip != ""
    ensures WithCamera(DynamicPart(d, samples), item) == DynamicPart(WithCamera(d, item), samples)
  {
  }

  /** What one more CAMERA packet does to the device the log calls for, when it lists the device. */
  lemma ExpectedListed(cameras: seq<seq<CameraItem>>, available: seq<Packet>, items: seq<CameraItem>, ip: string)
    requires ip != "" && ItemFor(items, ip).Some?
    ensures Expected(cameras + [items], available, ip)
         == Some(WithCamera(OrNew(Expected(cameras, available, ip), ip), ItemFor(items, ip).value))
  {
    assert (cameras + [items])[..|cameras|] == cameras;
    var item, samples := ItemFor(items, ip).value, Samples(available, ip);
    var before := StaticPart(NewDevice(ip), LastListing(cameras, ip), OnlineInLatest(cameras, ip));
    CameraSetsStatic(before, samples, item);
    assert WithCamera(before, item) == WithCamera(NewDevice(ip), item);
  }

  /** And when it does not. */
  lemma ExpectedUnlisted(cameras: seq<seq<CameraItem>>, available: seq<Packet>, items: seq<CameraItem>, ip: string)
    requires ip != "" && ItemFor(items, ip).None?
    ensures Expected(cameras + [items], available, ip)
         == match Expected(cameras, available, ip) case Some(d) => Some(d.(isOnline := false)) case None => None
  {
    assert (cameras + [items])[..|cameras|] == cameras;
  }

  lemma CameraExtends(devices: seq<Device>, cameras: seq<seq<CameraItem>>, available: seq<Packet>,
                      items: seq<CameraItem>, ip: string)
    requires ip != "" && Lookup(devices, ip) == Expected(cameras, available, ip)
    ensures Lookup(CameraUpdate(devices, items), ip) == Expected(cameras + [items], available, ip)
  {
    LookupAfterCamera(devices, items, ip);
    if ItemFor(items, ip).Some? {
      ExpectedListed(cameras, available, items, ip);
    } else {
      ExpectedUnlisted(cameras, available, items, ip);
    }
  }

  /** What one more AVAILABLE packet does to the device the log calls for. */
  lemma ExpectedSampled(cameras: seq<seq<CameraItem>>, available: seq<Packet>, p: Packet, ip: string)
    requires ip != "" && p.Available?
    ensures Expected(cameras, available + [p], ip)
         == Sampled(Expected(cameras, available, ip), ip, SamplesIn(p.samples, p.timestamp, ip))
  {
    assert (available + [p])[..|available|] == available;
    var listing, before := LastListing(cameras, ip), Samples(available, ip);
    var d := StaticPart(NewDevice(ip), listing, OnlineInLatest(cameras, ip));
    SampledExtends(d, ip, before, SamplesIn(p.samples, p.timestamp, ip), listing.Some? || before != []);
  }

  lemma AvailableExtends(devices: seq<Device>, cameras: seq<seq<CameraItem>>, available: seq<Packet>, p: Packet, ip: string)
    requires ip != "" && p.Available? && Lookup(devices, ip) == Expected(cameras, available, ip)
    ensures Lookup(AvailableUpdate(devices, p.samples, p.timestamp), ip) == Expected(cameras, available + [p], ip)
  {
    LookupAfterAvailable(devices, p.samples, p.timestamp, ip);
    ExpectedSampled(cameras, available, p, ip);
  }

  /** The bounded table refines the unbounded log: under every ip stands the device the log calls for. */
  lemma {:induction false} TableRefinesLog(log: seq<Packet>, ip: string)
    requires ip != ""
    ensures Lookup(Table(log), ip) == Expected(CameraPackets(log), AvailablePackets(log), ip)
  {
    if log != [] {
      var init, p := log[..|log| - 1], log[|log| - 1];
      TableRefinesLog(init, ip);
      match p {
        case Camera(items) => CameraExtends(Table(init), CameraPackets(init), AvailablePackets(init), items, ip);
        case Available(_, _) => AvailableExtends(Table(init), CameraPackets(init), AvailablePackets(init), p, ip);
      }
    }
  }

  /** CAMERA and AVAILABLE packets commute: two interleavings with the same order within each kind
      leave the same device under every ip. */
  lemma InterleavingsAgree(log: seq<Packet>, other: seq<Packet>, ip: string)
    requires ip != ""
    requires CameraPackets(log) == CameraPackets(other) && AvailablePackets(log) == AvailablePackets(other)
    ensures Lookup(Table(log), ip) == Lookup(Table(other), ip)
  {
    TableRefinesLog(log, ip);
    TableRefinesLog(other, ip);
  }

  /** The device of a log shows its samples: the last sixty as history, the last one as current values. */
  ghost predicate ShowsSamples(d: Device, samples: seq<Sample>) {
    && d.history == LastOnes(samples)
    && (samples != [] ==>
          var s := samples[|samples| - 1];
          d.cpu == s.cpu && d.memory == s.memory && d.temp == s.temp && d.uptime == s.uptime && d.lastUpdate == s.timestamp)
  }

  lemma DynamicShows(d: Device, samples: seq<Sample>)
    requires d.history == []
    ensures ShowsSamples(DynamicPart(d, samples), samples) && DynamicPart(d, samples).isOnline == d.isOnline
  {
  }

  lemma StaticOnline(ip: string, cameras: seq<seq<CameraItem>>)
    requires ip != ""
    ensures var d := StaticPart(NewDevice(ip), LastListing(cameras, ip), OnlineInLatest(cameras, ip));
            d.history == [] && (d.isOnline <==> OnlineInLatest(cameras, ip))
  {
    NeverListedNotOnline(cameras, ip);
  }

  /** The static half: what the listing says, or what a device starts with while no CAMERA packet has listed it. */
  predicate ShowsListing(d: Device, listing: Option<CameraItem>, ip: string)
    requires ip != ""
  {
    d.ip == ip
    && match listing
       case Some(item) =>
         d.kind == item.kind && d.cameraId == DeviceStoreId(ip, item.sourceUrl)
         && (d.hasMotor <==> item.kind == "SUB_PI") && !d.hasIr && !d.hasHeater
       case None => d.kind == "" && d.cameraId == "" && d.hasMotor && !d.hasIr && !d.hasHeater && !d.isOnline
  }

  /** Whatever table there was: a device a CAMERA packet lists shows its first item of the packet, and its samples stay. */
  lemma ListedShows(devices: seq<Device>, items: seq<CameraItem>, ip: string)
    requires ip != "" && ItemFor(items, ip).Some?
    ensures var before, after := OrNew(Lookup(devices, ip), ip), Lookup(CameraUpdate(devices, items), ip);
            && after.Some? && ShowsListing(after.value, ItemFor(items, ip), ip)
            && after.value.isOnline == ItemFor(items, ip).value.isOnline
            && (var d := after.value;
                d.history == before.history && d.cpu == before.cpu && d.memory == before.memory && d.temp == before.temp
                && d.uptime == before.uptime && d.lastUpdate == before.lastUpdate)
  {
    LookupAfterCamera(devices, items, ip);
    LookupIp(devices, ip);
  }

  lemma StaticShows(ip: string, cameras: seq<seq<CameraItem>>)
    requires ip != ""
    ensures ShowsListing(StaticPart(NewDevice(ip), LastListing(cameras, ip), OnlineInLatest(cameras, ip)),
                         LastListing(cameras, ip), ip)
  {
  }

  lemma DynamicKeepsStatic(d: Device, samples: seq<Sample>)
    ensures var e := DynamicPart(d, samples);
            && e.ip == d.ip && e.kind == d.kind && e.cameraId == d.cameraId && e.isOnline == d.isOnline
            && e.hasMotor == d.hasMotor && e.hasIr == d.hasIr && e.hasHeater == d.hasHeater
  {
  }

  /** What AVAILABLE packets reported of an ip, each report with the time of its packet. */
  function ReportsIn(items: seq<AvailableItem>, timestamp: int, ip: string): seq<(AvailableItem, int)> {
    if items == [] then [] else
    var before, item := ReportsIn(items[..|items| - 1], timestamp, ip), items[|items| - 1];
    if item.ip == ip then before + [(item, timestamp)] else before
  }

  function Reports(packets: seq<Packet>, ip: string): seq<(AvailableItem, int)> {
    if packets == [] then [] else
    var p := packets[|packets| - 1];
    Reports(packets[..|packets| - 1], ip) + (if p.Available? then ReportsIn(p.samples, p.timestamp, ip) else [])
  }

  predicate Reported(s: Sample, r: (AvailableItem, int)) {
    s.cpu == r.0.cpu && s.memory == r.0.memory && s.temp == r.0.temp && s.uptime == r.0.uptime && s.timestamp == r.1
  }

  predicate AllReported(samples: seq<Sample>, reports: seq<(AvailableItem, int)>) {
    |samples| == |reports| && forall i :: 0 <= i < |samples| ==> Reported(samples[i], reports[i])
  }

  lemma {:induction false} SamplesInReported(items: seq<AvailableItem>, timestamp: int, ip: string)
    ensures AllReported(SamplesIn(items, timestamp, ip), ReportsIn(items, timestamp, ip))
  {
    if items != [] {
      SamplesInReported(items[..|items| - 1], timestamp, ip);
    }
  }

  lemma {:induction false} SamplesReported(packets: seq<Packet>, ip: string)
    ensures AllReported(Samples(packets, ip), Reports(packets, ip))
  {
    if packets != [] {
      var p := packets[|packets| - 1];
      SamplesReported(packets[..|packets| - 1], ip);
      if p.Available? {
        SamplesInReported(p.samples, p.timestamp, ip);
      }
    }
  }

  /** The history holds the last sixty reports, in order. */
  predicate HistoryShows(history: seq<Sample>, reports: seq<(AvailableItem, int)>) {
    AllReported(history, if |reports| > 60 then reports[|reports| - 60..] else reports)
  }

  /** The current values are the last report's, or zero. */
  predicate ValuesShow(d: Device, reports: seq<(AvailableItem, int)>) {
    if reports == [] then d.cpu == 0.0 && d.memory == 0.0 && d.temp == 0.0 && d.uptime == 0 && d.lastUpdate == 0 else
    var r := reports[|reports| - 1];
    d.cpu == r.0.cpu && d.memory == r.0.memory && d.temp == r.0.temp && d.uptime == r.0.uptime && d.lastUpdate == r.1
  }

  /** The dynamic half in terms of the reports. */
  predicate ShowsReports(d: Device, reports: seq<(AvailableItem, int)>) {
    HistoryShows(d.history, reports) && ValuesShow(d, reports)
  }

  lemma ReportedFrom(samples: seq<Sample>, reports: seq<(AvailableItem, int)>, n: nat)
    requires AllReported(samples, reports) && n <= |samples|
    ensures AllReported(samples[n..], reports[n..])
  {
  }

  lemma LastOnesShow(samples: seq<Sample>, reports: seq<(AvailableItem, int)>)
    requires AllReported(samples, reports)
    ensures HistoryShows(LastOnes(samples), reports)
  {
    if |samples| > 60 {
      ReportedFrom(samples, reports, |samples| - 60);
    }
  }

  lemma SamplesShowReports(d: Device, samples: seq<Sample>, reports: seq<(AvailableItem, int)>)
    requires AllReported(samples, reports) && d.history == [] && ValuesShow(d, [])
    ensures ShowsReports(DynamicPart(d, samples), reports)
  {
    LastOnesShow(samples, reports);
    assert samples != [] ==> Reported(samples[|samples| - 1], reports[|reports| - 1]);
  }

  /** What the refinement says of one device, spelled out: whether it is there, its static half from the last listing, its
      online flag from the latest CAMERA packet, its dynamic half from the reports. */
  lemma DeviceOfLog(log: seq<Packet>, ip: string)
    requires ip != ""
    ensures var cameras, reports := CameraPackets(log), Reports(AvailablePackets(log), ip);
            var d := Lookup(Table(log), ip);
            && (d.Some? <==> LastListing(cameras, ip).Some? || reports != [])
            && (d.Some? ==> && ShowsListing(d.value, LastListing(cameras, ip), ip)
                            && ShowsReports(d.value, reports)
                            && (d.value.isOnline <==> OnlineInLatest(cameras, ip)))
  {
    var cameras, samples := CameraPackets(log), Samples(AvailablePackets(log), ip);
    var d := StaticPart(NewDevice(ip), LastListing(cameras, ip), OnlineInLatest(cameras, ip));
    TableRefinesLog(log, ip);
    StaticOnline(ip, cameras);
    StaticShows(ip, cameras);
    DynamicKeepsStatic(d, samples);
    SamplesReported(AvailablePackets(log), ip);
    SamplesShowReports(d, samples, Reports(AvailablePackets(log), ip));
  }

  lemma NeverListedNotOnline(packets: seq<seq<CameraItem>>, ip: string)
    ensures OnlineInLatest(packets, ip) ==> LastListing(packets, ip).Some?
  {
  }

  /** No packet makes a known ip unknown. */
  lemma KnownStaysKnown(devices: seq<Device>, p: Packet, ip: string)
    requires ip != "" && Lookup(devices, ip).Some?
    ensures Lookup(Apply(devices, p), ip).Some?
  {
    match p
    case Camera(items) =>
      LookupAfterCamera(devices, items, ip);
    case Available(items, timestamp) =>
      LookupAfterAvailable(devices, items, timestamp, ip);
  }

  // --------------------------------------------------------- distinct rows

  ghost predicate Distinct(devices: seq<Device>) {
    forall i, j :: 0 <= i < j < |devices| ==> devices[i].ip != devices[j].ip
  }

  ghost predicate DistinctItems(items: seq<CameraItem>) {
    forall i, j :: 0 <= i < j < |items| && items[i].ip != "" ==> items[i].ip != items[j].ip
  }

  lemma DistinctAppend(devices: seq<Device>, d: Device)
    ensures Distinct(devices + [d]) <==> Distinct(devices) && Lookup(devices, d.ip).None?
  {
    var all := devices + [d];
    if Distinct(all) {
      assert forall i :: 0 <= i < |devices| ==> all[i] == devices[i];
      assert all[|devices|] == d;
    }
  }

  lemma {:induction false} ItemForIff(items: seq<CameraItem>, ip: string)
    ensures ItemFor(items, ip).Some? <==> exists i :: 0 <= i < |items| && items[i].ip == ip
  {
    if items != [] {
      ItemForIff(items[1..], ip);
      if ItemFor(items[1..], ip).Some? {
        var i :| 0 <= i < |items[1..]| && items[1..][i].ip == ip;
        assert items[i + 1].ip == ip;
      }
      if i :| 0 < i < |items| && items[i].ip == ip {
        assert items[1..][i - 1].ip == ip;
      }
    }
  }

  lemma {:induction false} ListedDistinctIff(devices: seq<Device>, items: seq<CameraItem>)
    ensures Distinct(ListedDevices(devices, items)) <==> DistinctItems(items)
  {
    if items != [] {
      var init, item := items[..|items| - 1], items[|items| - 1];
      ListedDistinctIff(devices, init);
      DistinctItemsAppend(init, item);
      assert items == init + [item];
      if item.ip != "" {
        var listed := ListedDevices(devices, init);
        LookupIp(devices, item.ip);
        DistinctAppend(listed, WithCamera(OrNew(Lookup(devices, item.ip), item.ip), item));
        LookupListed(devices, init, item.ip);
        ItemForIff(init, item.ip);
      }
    }
  }

  lemma DistinctItemsAppend(items: seq<CameraItem>, item: CameraItem)
    ensures DistinctItems(items + [item])
            <==> DistinctItems(items) && (item.ip == "" || forall i :: 0 <= i < |items| ==> items[i].ip != item.ip)
  {
    var all := items + [item];
    assert forall i :: 0 <= i < |items| ==> all[i] == items[i];
    assert all[|items|] == item;
  }

  lemma {:induction false} OfflineDistinctIff(merged: seq<Device>, rest: seq<Device>)
    ensures Distinct(AppendOffline(merged, rest)) <==> Distinct(merged)
  {
    if rest != [] {
      OfflineDistinctIff(merged, rest[..|rest| - 1]);
      DistinctAppend(AppendOffline(merged, rest[..|rest| - 1]), rest[|rest| - 1].(isOnline := false));
    }
  }

  /** A CAMERA packet leaves one row per ip exactly when it lists no ip twice, whatever was in the table. */
  lemma CameraKeepsDistinctIff(devices: seq<Device>, items: seq<CameraItem>)
    ensures Distinct(CameraUpdate(devices, items)) <==> DistinctItems(items)
  {
    ListedDistinctIff(devices, items);
    OfflineDistinctIff(ListedDevices(devices, items), devices);
  }

  lemma {:induction false} AvailableKeepsDistinct(devices: seq<Device>, items: seq<AvailableItem>, timestamp: int)
    requires Distinct(devices)
    ensures Distinct(AvailableUpdate(devices, items, timestamp))
  {
    if items != [] {
      var before := AvailableUpdate(devices, items[..|items| - 1], timestamp);
      var item := items[|items| - 1];
      AvailableKeepsDistinct(devices, items[..|items| - 1], timestamp);
      if item.ip != "" && FindIndexByIp(before, item.ip) < 0 {
        DistinctAppend(before, WithSample(NewDevice(item.ip), ItemSample(item, timestamp)));
      }
    }
  }

  // ------------------------------------------------------------ order of rows

  function Ips(devices: seq<Device>): seq<string> {
    seq(|devices|, i requires 0 <= i < |devices| => devices[i].ip)
  }

  function ItemIps(items: seq<CameraItem>): seq<string> {
    if items == [] then [] else
    var before, ip := ItemIps(items[..|items| - 1]), items[|items| - 1].ip;
    if ip == "" then before else before + [ip]
  }

  /** The ips, and behind them, in order, those of `more` that are not there yet. */
  function ThenNew(ips: seq<string>, more: seq<string>): seq<string> {
    if more == [] then ips else
    var before, ip := ThenNew(ips, more[..|more| - 1]), more[|more| - 1];
    if ip in before then before else before + [ip]
  }

  lemma {:induction false} LookupIff(devices: seq<Device>, ip: string)
    ensures Lookup(devices, ip).Some? <==> ip in Ips(devices)
  {
    if i :| 0 <= i < |devices| && devices[i].ip == ip {
      assert Ips(devices)[i] == ip;
    }
    if p: int :| 0 <= p < |devices| && Lookup(devices, ip) == Some(devices[p]) && devices[p].ip == ip {
      assert Ips(devices)[p] == ip;
    }
  }

  lemma IpsAppend(devices: seq<Device>, d: Device)
    ensures Ips(devices + [d]) == Ips(devices) + [d.ip]
  {
  }

  lemma {:induction false} ListedOrder(devices: seq<Device>, items: seq<CameraItem>)
    ensures Ips(ListedDevices(devices, items)) == ItemIps(items)
  {
    if items != [] {
      var init, item := items[..|items| - 1], items[|items| - 1];
      ListedOrder(devices, init);
      if item.ip != "" {
        LookupIp(devices, item.ip);
        IpsAppend(ListedDevices(devices, init), WithCamera(OrNew(Lookup(devices, item.ip), item.ip), item));
      }
    }
  }

  lemma {:induction false} OfflineOrder(merged: seq<Device>, rest: seq<Device>)
    ensures Ips(AppendOffline(merged, rest)) == ThenNew(Ips(merged), Ips(rest))
  {
    if rest != [] {
      var init, d := rest[..|rest| - 1], rest[|rest| - 1];
      OfflineOrder(merged, init);
      assert Ips(rest)[..|rest| - 1] == Ips(init);
      LookupIff(AppendOffline(merged, init), d.ip);
      IpsAppend(AppendOffline(merged, init), d.(isOnline := false));
    }
  }

  /** A CAMERA packet puts its cameras first, in its order, and behind them the rows it does not list, in theirs. */
  lemma CameraOrdersRows(devices: seq<Device>, items: seq<CameraItem>)
    ensures Ips(CameraUpdate(devices, items)) == ThenNew(ItemIps(items), Ips(devices))
  {
    ListedOrder(devices, items);
    OfflineOrder(ListedDevices(devices, items), devices);
  }

  function SampleIps(items: seq<AvailableItem>): seq<string> {
    if items == [] then [] else
    var before, ip := SampleIps(items[..|items| - 1]), items[|items| - 1].ip;
    if ip == "" then before else before + [ip]
  }

  /** An AVAILABLE packet leaves the rows where they are and puts unknown ips behind them, in its order. */
  lemma {:induction false} AvailableOrdersRows(devices: seq<Device>, items: seq<AvailableItem>, timestamp: int)
    ensures Ips(AvailableUpdate(devices, items, timestamp)) == ThenNew(Ips(devices), SampleIps(items))
  {
    if items != [] {
      var init, item := items[..|items| - 1], items[|items| - 1];
      var before := AvailableUpdate(devices, init, timestamp);
      AvailableOrdersRows(devices, init, timestamp);
      if item.ip != "" {
        assert SampleIps(items)[..|SampleIps(items)| - 1] == SampleIps(init);
        LookupIff(before, item.ip);
        var d := WithSample(NewDevice(item.ip), ItemSample(item, timestamp));
        IpsAppend(before, d);
        if Lookup(before, item.ip).Some? {
          SameIps(before, item, timestamp);
        }
      }
    }
  }

  lemma SameIps(devices: seq<Device>, item: AvailableItem, timestamp: int)
    requires Lookup(devices, item.ip).Some?
    ensures Ips(AvailableStep(devices, item, timestamp)) == Ips(devices)
  {
  }
}
