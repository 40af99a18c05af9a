/** The camera store: the list of the latest packet, and a table of everything known by camera id. */
module CameraStore {
  import opened CameraGrid
  import opened CameraIds

  datatype AiInfo = AiInfo(images: seq<string>, personCount: seq<int>)

  datatype CameraStruct = CameraStruct(deviceInfo: DeviceInfo, aiInfo: AiInfo, sourceUrl: string)

  const NEW_CAMERA: CameraStruct := CameraStruct(NO_SENSORS, AiInfo([], []), "")

  function ItemId(item: CameraItem): string {
    CameraStoreId(item.ip, item.sourceUrl)
  }

  function ItemData(item: CameraItem): CameraData {
    CameraData(item.ip + " (" + item.kind + ")", item.kind, item.isOnline, ItemId(item), NO_SENSORS)
  }

  /** The cameras of a packet, those without an id left out. */
  function Listed(items: seq<CameraItem>): seq<CameraData> {
    if items == [] then [] else
    var before := Listed(items[..|items| - 1]);
    var item := items[|items| - 1];
    if ItemId(item) == "" then before else before + [ItemData(item)]
  }

  function Known(table: map<string, CameraStruct>, cid: string): CameraStruct {
    if cid in table then table[cid] else NEW_CAMERA
  }

  function TableWith(table: map<string, CameraStruct>, item: CameraItem): map<string, CameraStruct> {
    if ItemId(item) == "" then table else
    table[ItemId(item) := Known(table, ItemId(item)).(sourceUrl := item.sourceUrl)]
  }

  function TableAfter(table: map<string, CameraStruct>, items: seq<CameraItem>): map<string, CameraStruct> {
    if items == [] then table else
    TableWith(TableAfter(table, items[..|items| - 1]), items[|items| - 1])
  }

  function Joined(d: CameraData, table: map<string, CameraStruct>): CameraData {
    if d.cameraId in table then d.(deviceInfo := table[d.cameraId].deviceInfo) else d
  }

  class CameraStore {
    var data: seq<CameraData>
    var table: map<string, CameraStruct>

    constructor ()
      ensures data == [] && table == map[]
    {
      data, table := [], map[];
    }

    /** Every listed camera has a row in the table. */
    ghost predicate Valid()
      reads this
    {
      forall d :: d in data ==> d.cameraId in table
    }

    method UpdateFromJson(items: seq<CameraItem>) returns (newData: seq<CameraData>)
      modifies this
      ensures Valid()
      ensures data == newData == Listed(items)
      ensures table == TableAfter(old(table), items)
    {
      newData := [];
      var i := 0;
      while i < |items|
        invariant 0 <= i <= |items|
        invariant newData == Listed(items[..i])
        invariant table == TableAfter(old(table), items[..i])
        invariant forall d :: d in newData ==> d.cameraId in table
      {
        assert items[..i + 1][..i] == items[..i];
        var item := items[i];
        var d := CameraData(item.ip + " (" + item.kind + ")", item.kind, item.isOnline, "", NO_SENSORS);
        var cameraId := UpdateRow(item);
        if cameraId != "" {
          newData := newData + [d.(cameraId := cameraId)];
        }
        i := i + 1;
      }
      assert items[..i] == items;
      data := newData;
    }

    method UpdateRow(item: CameraItem) returns (cameraId: string)
      modifies this`table
      ensures cameraId == ItemId(item)
      ensures table == TableWith(old(table), item)
    {
      cameraId := CameraStoreId(item.ip, item.sourceUrl);
      if cameraId != "" {
        if cameraId !in table {
          table := table[cameraId := NEW_CAMERA];
        }
        table := table[cameraId := table[cameraId].(sourceUrl := item.sourceUrl)];
      }
    }

    /** The list with each camera's sensors joined in. */
    method Snapshot() returns (result: seq<CameraData>)
      ensures |result| == |data|
      ensures forall i :: 0 <= i < |data| ==> result[i] == Joined(data[i], table)
      ensures Valid() ==> forall i :: 0 <= i < |data| ==>
        data[i].cameraId in table && result[i].deviceInfo == table[data[i].cameraId].deviceInfo
    {
      result := data;
      var i := 0;
      while i < |result|
        invariant 0 <= i <= |result| == |data|
        invariant forall j :: i <= j < |data| ==> result[j] == data[j]
        invariant forall j :: 0 <= j < i ==> result[j] == Joined(data[j], table)
      {
        if result[i].cameraId in table {
          result := result[i := result[i].(deviceInfo := table[result[i].cameraId].deviceInfo)];
        }
        i := i + 1;
      }
      assert Valid() ==> forall j :: 0 <= j < |data| ==> data[j] in data;
    }

    method UpdateDeviceInfo(cid: string, info: DeviceInfo)
      modifies this
      ensures old(Valid()) ==> Valid()
      ensures data == old(data)
      ensures table == old(table)[cid := Known(old(table), cid).(deviceInfo := info)]
    {
      if cid !in table {
        table := table[cid := NEW_CAMERA];
      }
      table := table[cid := table[cid].(deviceInfo := info)];
    }

    method UpdateAiInfo(cid: string, info: AiInfo)
      modifies this
      ensures old(Valid()) ==> Valid()
      ensures data == old(data)
      ensures table == old(table)[cid := Known(old(table), cid).(aiInfo := info)]
    {
      if cid !in table {
        table := table[cid := NEW_CAMERA];
      }
      table := table[cid := table[cid].(aiInfo := info)];
    }

    method GetCameraStruct(cid: string) returns (c: CameraStruct)
      ensures c == Known(table, cid)
    {
      if cid in table {
        return table[cid];
      }
      return NEW_CAMERA;
    }

    method Clear()
      modifies this
      ensures Valid() && data == [] && table == map[]
    {
      data, table := [], map[];
    }
  }

  /** The last item of a packet with this id, -1 when it has none. */
  function LastItemOf(items: seq<CameraItem>, cid: string): (i: int)
    ensures -1 <= i < |items|
    ensures i >= 0 ==> ItemId(items[i]) == cid
    ensures forall j :: i < j < |items| ==> ItemId(items[j]) != cid
  {
    if items == [] then -1
    else if ItemId(items[|items| - 1]) == cid then |items| - 1
    else
      var i := LastItemOf(items[..|items| - 1], cid);
      assert forall j :: i < j < |items| - 1 ==> items[..|items| - 1][j] == items[j];
      i
  }

  /** A packet never loses a camera, its sensors or its detections; a camera it lists gets the URL it was
      listed with last, and the others keep theirs. */
  lemma {:induction false} PacketKeepsTable(table: map<string, CameraStruct>, items: seq<CameraItem>, cid: string)
    requires cid != ""
    ensures var after := TableAfter(table, items);
            var i := LastItemOf(items, cid);
            && (cid in after <==> cid in table || i >= 0)
            && (cid in after ==> after[cid] == if i >= 0 then Known(table, cid).(sourceUrl := items[i].sourceUrl) else table[cid])
  {
    if items != [] {
      PacketKeepsTable(table, items[..|items| - 1], cid);
    }
  }

  /** The items of a packet that have an id. */
  function Identified(items: seq<CameraItem>): seq<CameraItem> {
    if items == [] then [] else
    var before, item := Identified(items[..|items| - 1]), items[|items| - 1];
    if CameraStoreId(item.ip, item.sourceUrl) == "" then before else before + [item]
  }

  /** The camera as the packet's item describes it; sensors come from elsewhere. */
  predicate Describes(d: CameraData, item: CameraItem) {
    && d.title == item.ip + " (" + item.kind + ")" && d.cameraType == item.kind && d.isOnline == item.isOnline
    && d.cameraId == CameraStoreId(item.ip, item.sourceUrl) && d.deviceInfo == DeviceInfo(0.0, 0.0, 0.0, 0.0)
  }

  predicate DescribesAll(listed: seq<CameraData>, items: seq<CameraItem>) {
    |listed| == |items| && forall i :: 0 <= i < |items| ==> Describes(listed[i], items[i])
  }

  lemma DescribesOn(listed: seq<CameraData>, items: seq<CameraItem>, d: CameraData, item: CameraItem)
    requires DescribesAll(listed, items) && Describes(d, item)
    ensures DescribesAll(listed + [d], items + [item])
  {
    var ds, all := listed + [d], items + [item];
    forall i | 0 <= i < |all| ensures Describes(ds[i], all[i]) {
      if i < |items| {
        assert ds[i] == listed[i] && all[i] == items[i];
      }
    }
  }

  lemma ItemDescribed(item: CameraItem)
    ensures Describes(ItemData(item), item)
  {
  }

  /** The listed cameras are those items, each as the packet describes it, in the packet's order. */
  lemma {:induction false} ListedAre(items: seq<CameraItem>)
    ensures DescribesAll(Listed(items), Identified(items))
  {
    if items != [] {
      var init, item := items[..|items| - 1], items[|items| - 1];
      ListedAre(init);
      ItemDescribed(item);
      DescribesOn(Listed(init), Identified(init), ItemData(item), item);
    }
  }

  /** A join only brings in the sensors of the camera's row. */
  lemma JoinBringsSensors(d: CameraData, table: map<string, CameraStruct>)
    ensures Joined(d, table)
         == CameraData(d.title, d.cameraType, d.isOnline, d.cameraId,
                       if d.cameraId in table then table[d.cameraId].deviceInfo else d.deviceInfo)
  {
  }
}
