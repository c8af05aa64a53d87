/**
 * The device registry (`useDevicesStore`): the devices and groups delivered by
 * the feed, the derived list of ungrouped device ids, and the camera
 * selections of the online and archive modes.
 */
module Devices {
  import opened Wrappers
  import opened Collections

  /** One monitored unit, as the feed delivers it. */
  datatype Device = Device(
    id: int,
    name: string,
    channels: int,
    lat: real,
    lon: real,
    timestamp: string,
    alarm: bool)

  /** A named list of device ids; the ids need not exist and may repeat across groups. */
  datatype Group = Group(id: int, name: string, deviceIds: seq<int>)

  /** Per selected device id, the chosen camera numbers (one map per mode). */
  type Selection = map<int, seq<int>>

  /** The fields an `updates` object passed to `updateDevice` carries; `None` is an absent field. */
  datatype DevicePatch = DevicePatch(
    id: Option<int>,
    name: Option<string>,
    channels: Option<int>,
    lat: Option<real>,
    lon: Option<real>,
    timestamp: Option<string>,
    alarm: Option<bool>)

  /** A device as the map projection hands it out: a copy with the chosen cameras attached. */
  datatype MapEntry = MapEntry(device: Device, selectedCameras: seq<int>)

  // ---------------------------------------------------------------------------
  // Partial updates: `{ ...device, ...updates }`
  // ---------------------------------------------------------------------------

  const NoChange := DevicePatch(None, None, None, None, None, None, None)

  /** `{ ...d, ...p }`: every field `p` carries replaces the one in `d`, every other field is kept. */
  function Merge(d: Device, p: DevicePatch): (r: Device)
    ensures if p.id.Some? then r.id == p.id.value else r.id == d.id
    ensures if p.name.Some? then r.name == p.name.value else r.name == d.name
    ensures if p.channels.Some? then r.channels == p.channels.value else r.channels == d.channels
    ensures if p.lat.Some? then r.lat == p.lat.value else r.lat == d.lat
    ensures if p.lon.Some? then r.lon == p.lon.value else r.lon == d.lon
    ensures if p.timestamp.Some? then r.timestamp == p.timestamp.value else r.timestamp == d.timestamp
    ensures if p.alarm.Some? then r.alarm == p.alarm.value else r.alarm == d.alarm
  {
    Device(
      p.id.GetOr(d.id),
      p.name.GetOr(d.name),
      p.channels.GetOr(d.channels),
      p.lat.GetOr(d.lat),
      p.lon.GetOr(d.lon),
      p.timestamp.GetOr(d.timestamp),
      p.alarm.GetOr(d.alarm))
  }

  /** `{ ...p, ...q }`: the patch that applies `p` and then `q`. */
  function Combine(p: DevicePatch, q: DevicePatch): DevicePatch {
    DevicePatch(
      if q.id.Some? then q.id else p.id,
      if q.name.Some? then q.name else p.name,
      if q.channels.Some? then q.channels else p.channels,
      if q.lat.Some? then q.lat else p.lat,
      if q.lon.Some? then q.lon else p.lon,
      if q.timestamp.Some? then q.timestamp else p.timestamp,
      if q.alarm.Some? then q.alarm else p.alarm)
  }

  /** An empty patch changes nothing, and applying a patch twice is applying it once. */
  lemma MergeIdentityAndIdempotence(d: Device, p: DevicePatch)
    ensures Merge(d, NoChange) == d
    ensures Merge(Merge(d, p), p) == Merge(d, p)
  {
  }

  /** Two updates in a row are one update with the later fields winning. */
  lemma MergeCombine(d: Device, p: DevicePatch, q: DevicePatch)
    ensures Merge(Merge(d, p), q) == Merge(d, Combine(p, q))
  {
  }

  // ---------------------------------------------------------------------------
  // Groups and the derived ungrouped list
  // ---------------------------------------------------------------------------

  /** `new Set(groups.flatMap(g => g.deviceIds))`: every id some group lists. */
  function GroupedIds(groups: seq<Group>): (ids: set<int>)
    ensures forall x :: x in ids <==> exists i :: 0 <= i < |groups| && x in groups[i].deviceIds
  {
    if groups == [] then {}
    else
      var rest := GroupedIds(groups[1..]);
      assert forall i :: 1 <= i < |groups| ==> groups[i] == groups[1..][i - 1];
      (set x | x in groups[0].deviceIds) + rest
  }

  /**
   * The ids of devices that no group lists, in ascending order: the device
   * keys, as `Object.keys` lists them, filtered against the grouped ids.
   */
  function UngroupedIds(devices: map<int, Device>, groups: seq<Group>): (ids: seq<int>)
    ensures StrictlyAscending(ids)
    ensures forall x :: x in ids <==> x in devices && x !in GroupedIds(groups)
  {
    Except(SortedKeys(devices.Keys), GroupedIds(groups))
  }

  /**
   * The ungrouped ids are exactly the listing, in key order, of the device
   * keys minus the grouped ids.
   */
  lemma UngroupedIdsListDifference(devices: map<int, Device>, groups: seq<Group>)
    ensures UngroupedIds(devices, groups) == SortedKeys(devices.Keys - GroupedIds(groups))
  {
    SortedKeysExcept(devices.Keys, GroupedIds(groups));
  }

  /** Every group with `deviceId` filtered out of its `deviceIds`, nothing else changed. */
  function StripDevice(groups: seq<Group>, deviceId: int): (r: seq<Group>)
    ensures |r| == |groups|
    ensures forall i :: 0 <= i < |r| ==>
      && r[i].id == groups[i].id
      && r[i].name == groups[i].name
      && r[i].deviceIds == Except(groups[i].deviceIds, {deviceId})
  {
    seq(|groups|, i requires 0 <= i < |groups| =>
      groups[i].(deviceIds := Except(groups[i].deviceIds, {deviceId})))
  }

  /** After stripping, no group lists the device, and every other listed id is still listed. */
  lemma {:induction false} StripDeviceGrouped(groups: seq<Group>, deviceId: int)
    ensures GroupedIds(StripDevice(groups, deviceId)) == GroupedIds(groups) - {deviceId}
  {
    var stripped := StripDevice(groups, deviceId);
    forall x ensures x in GroupedIds(stripped) <==> x in GroupedIds(groups) && x != deviceId {
      if x in GroupedIds(stripped) {
        var i :| 0 <= i < |stripped| && x in stripped[i].deviceIds;
        assert x in groups[i].deviceIds;
      }
      if x in GroupedIds(groups) && x != deviceId {
        var i :| 0 <= i < |groups| && x in groups[i].deviceIds;
        assert x in stripped[i].deviceIds;
      }
    }
  }

  /**
   * Filtering a removed device out of the ungrouped list gives the list the
   * registry would derive afresh from the reduced devices and groups.
   */
  lemma UngroupedAfterRemoval(devices: map<int, Device>, groups: seq<Group>, deviceId: int)
    ensures Except(UngroupedIds(devices, groups), {deviceId})
         == UngroupedIds(devices - {deviceId}, StripDevice(groups, deviceId))
  {
    StripDeviceGrouped(groups, deviceId);
    AscendingUnique(
      Except(UngroupedIds(devices, groups), {deviceId}),
      UngroupedIds(devices - {deviceId}, StripDevice(groups, deviceId)));
  }

  // ---------------------------------------------------------------------------
  // Selections
  // ---------------------------------------------------------------------------

  /** Every camera list of the selection is strictly ascending. */
  ghost predicate CamerasAscending(sel: Selection) {
    forall k :: k in sel ==> StrictlyAscending(sel[k])
  }

  /** `Object.keys(sel)[0]` read as a number, or null for an empty selection. */
  function FirstKey(sel: Selection): (k: Option<int>)
    ensures k.None? <==> sel == map[]
    ensures k.Some? ==> k.value in sel && forall j :: j in sel ==> k.value <= j
  {
    var ids := SortedKeys(sel.Keys);
    if |ids| > 0 then
      assert ids[0] in ids;
      assert forall j :: j in sel ==> j in ids;
      Some(ids[0])
    else
      assert sel.Keys == {};
      None
  }

  /** `sel[id]?.cameras || []`: the device's cameras, or none when it is not selected. */
  function CamerasOf(sel: Selection, deviceId: int): (cameras: seq<int>)
    ensures deviceId in sel ==> cameras == sel[deviceId]
    ensures deviceId !in sel ==> cameras == []
    ensures CamerasAscending(sel) ==> StrictlyAscending(cameras)
  {
    if deviceId in sel then sel[deviceId] else []
  }

  /** Online toggle: a free switch of one device, selected with no cameras. */
  function ToggleOnline(sel: Selection, deviceId: int): (r: Selection)
    ensures deviceId in r <==> deviceId !in sel
    ensures deviceId in r ==> r[deviceId] == []
    ensures forall k :: k != deviceId ==> (k in r <==> k in sel)
    ensures forall k :: k != deviceId && k in r ==> r[k] == sel[k]
  {
    if deviceId in sel then sel - {deviceId} else sel[deviceId := []]
  }

  /**
   * Toggling a device twice restores the selection when it was not selected,
   * and otherwise leaves it selected with no cameras.
   */
  lemma ToggleOnlineTwice(sel: Selection, deviceId: int)
    ensures deviceId !in sel ==> ToggleOnline(ToggleOnline(sel, deviceId), deviceId) == sel
    ensures deviceId in sel ==> ToggleOnline(ToggleOnline(sel, deviceId), deviceId) == sel[deviceId := []]
  {
    var twice := ToggleOnline(ToggleOnline(sel, deviceId), deviceId);
    if deviceId !in sel {
      assert twice.Keys == sel.Keys;
    } else {
      assert twice.Keys == sel[deviceId := []].Keys;
    }
  }

  /**
   * Archive toggle: toggling the selected device clears the selection;
   * toggling another one makes it the only selected device and hands it the
   * camera list of the device selected before, if there was one.
   */
  function ToggleArchive(sel: Selection, deviceId: int): (r: Selection)
    ensures |sel| <= 1 ==> |r| <= 1
    ensures CamerasAscending(sel) ==> CamerasAscending(r)
  {
    var selected := FirstKey(sel);
    if selected == Some(deviceId) then
      sel - {deviceId}
    else
      map[deviceId := if selected.Some? then sel[selected.value] else []]
  }

  /**
   * With at most one device selected (the registry's invariant), toggling the
   * selected device empties the selection, and toggling any other device
   * leaves exactly that device selected, with the previous device's cameras
   * or with none.
   */
  lemma ToggleArchiveCases(sel: Selection, deviceId: int)
    requires |sel| <= 1
    ensures deviceId in sel ==> ToggleArchive(sel, deviceId) == map[]
    ensures sel == map[] ==> ToggleArchive(sel, deviceId) == map[deviceId := []]
    ensures forall k :: k in sel && k != deviceId ==> ToggleArchive(sel, deviceId) == map[deviceId := sel[k]]
  {
    if k :| k in sel {
      SingleKey(sel, k);
      assert FirstKey(sel) == Some(k);
      if k == deviceId {
        assert (sel - {deviceId}).Keys == {};
      }
    }
  }

  /** In a selection of at most one device, the first key is the only key. */
  lemma FirstKeyOfSingle(sel: Selection)
    ensures |sel| <= 1 && FirstKey(sel).Some? ==> sel.Keys == {FirstKey(sel).value}
  {
    if |sel| <= 1 && FirstKey(sel).Some? {
      SingleKey(sel, FirstKey(sel).value);
    }
  }

  /** A selection of at most one device that holds `k` holds only `k`. */
  lemma SingleKey(sel: Selection, k: int)
    requires |sel| <= 1 && k in sel
    ensures sel.Keys == {k}
  {
    assert |sel.Keys - {k}| == |sel.Keys| - 1;
    assert sel.Keys - {k} == {};
  }

  /**
   * `toggleCameraSelection` on one camera list: a chosen camera is dropped,
   * another one is added and the list re-sorted numerically.
   */
  function ToggleCamera(cameras: seq<int>, camera: int): (r: seq<int>)
    ensures camera in r <==> camera !in cameras
    ensures forall c :: c != camera ==> (c in r <==> c in cameras)
    ensures camera !in cameras ==> Ascending(r) && multiset(r) == multiset(cameras) + multiset{camera}
    ensures StrictlyAscending(cameras) ==> StrictlyAscending(r)
  {
    if camera in cameras then Except(cameras, {camera})
    else
      var r := SortAscending(cameras + [camera]);
      assert forall c :: c in r <==> c in multiset(r);
      SortedInsert(cameras, camera);
      r
  }

  /** On a strictly ascending list, adding a camera inserts it in place. */
  lemma SortedInsert(cameras: seq<int>, camera: int)
    ensures StrictlyAscending(cameras) ==> SortAscending(cameras + [camera]) == Insert(cameras, camera)
  {
    if StrictlyAscending(cameras) {
      SortAfterAppend(cameras, camera);
    }
  }

  /** On a strictly ascending list, toggling the same camera twice restores it. */
  lemma ToggleCameraTwice(cameras: seq<int>, camera: int)
    requires StrictlyAscending(cameras)
    ensures ToggleCamera(ToggleCamera(cameras, camera), camera) == cameras
  {
    AscendingUnique(ToggleCamera(ToggleCamera(cameras, camera), camera), cameras);
  }

  // ---------------------------------------------------------------------------
  // The map projection
  // ---------------------------------------------------------------------------

  /** `{ ...device, alarm: online ? device.alarm : false, selectedCameras }` */
  function EntryFor(device: Device, cameras: seq<int>, online: bool): (e: MapEntry)
    ensures e.device.alarm == (online && device.alarm)
    ensures e.device.(alarm := device.alarm) == device
    ensures e.selectedCameras == cameras
  {
    MapEntry(device.(alarm := if online then device.alarm else false), cameras)
  }

  /** `ids.map(id => devices[id] ? entry : null).filter(Boolean)` */
  function Project(ids: seq<int>, devices: map<int, Device>, sel: Selection, online: bool): (r: seq<MapEntry>)
    ensures |r| == |Only(ids, devices.Keys)|
  {
    if ids == [] then []
    else if ids[0] in devices then
      [EntryFor(devices[ids[0]], CamerasOf(sel, ids[0]), online)] + Project(ids[1..], devices, sel, online)
    else
      Project(ids[1..], devices, sel, online)
  }

  /**
   * Entry `j` of the projection is built from the `j`-th id of `ids` that
   * names a known device, and from that device's cameras.
   */
  lemma {:induction false} ProjectAt(ids: seq<int>, devices: map<int, Device>, sel: Selection, online: bool, j: nat)
    requires j < |Only(ids, devices.Keys)|
    ensures j < |Project(ids, devices, sel, online)|
    ensures var id := Only(ids, devices.Keys)[j];
      id in devices && Project(ids, devices, sel, online)[j] == EntryFor(devices[id], CamerasOf(sel, id), online)
  {
    var present, rest := Only(ids, devices.Keys), Only(ids[1..], devices.Keys);
    var r, tail := Project(ids, devices, sel, online), Project(ids[1..], devices, sel, online);
    assert present[j] in present;
    if ids[0] in devices {
      assert present == [ids[0]] + rest;
      assert r == [EntryFor(devices[ids[0]], CamerasOf(sel, ids[0]), online)] + tail;
      if j > 0 {
        ProjectAt(ids[1..], devices, sel, online, j - 1);
        assert present[j] == rest[j - 1] && r[j] == tail[j - 1];
      }
    } else {
      assert present == rest && r == tail;
      ProjectAt(ids[1..], devices, sel, online, j);
    }
  }

  /** Every entry of the projection, at once. */
  lemma ProjectEntries(ids: seq<int>, devices: map<int, Device>, sel: Selection, online: bool)
    ensures var present := Only(ids, devices.Keys);
      var r := Project(ids, devices, sel, online);
      && |r| == |present|
      && forall j :: 0 <= j < |r| ==>
           present[j] in devices && r[j] == EntryFor(devices[present[j]], CamerasOf(sel, present[j]), online)
  {
    forall j | 0 <= j < |Project(ids, devices, sel, online)|
      ensures var present := Only(ids, devices.Keys);
        present[j] in devices && Project(ids, devices, sel, online)[j] == EntryFor(devices[present[j]], CamerasOf(sel, present[j]), online)
    {
      ProjectAt(ids, devices, sel, online, j);
    }
  }

  /** Dropping a device from a selection keeps the selection's invariants. */
  lemma Deselect(sel: Selection, deviceId: int)
    ensures |sel| <= 1 ==> |sel - {deviceId}| <= 1
    ensures CamerasAscending(sel) ==> CamerasAscending(sel - {deviceId})
  {
    assert (sel - {deviceId}).Keys <= sel.Keys;
    if deviceId in sel {
      assert |(sel - {deviceId}).Keys| == |sel.Keys| - 1 by {
        assert (sel - {deviceId}).Keys == sel.Keys - {deviceId};
      }
    } else {
      assert sel - {deviceId} == sel;
    }
  }

  /**
   * The registry's invariant: the ungrouped list is the one derived from the
   * devices and groups, the archive selection holds at most one device, and
   * every camera list is strictly ascending.
   */
  ghost predicate Consistent(devices: map<int, Device>, groups: seq<Group>, ungrouped: seq<int>,
                             online: Selection, archive: Selection)
  {
    && ungrouped == UngroupedIds(devices, groups)
    && |archive| <= 1
    && CamerasAscending(online)
    && CamerasAscending(archive)
  }

  /** Removing a device from every structure keeps the registry consistent. */
  lemma RemovalConsistent(devices: map<int, Device>, groups: seq<Group>, ungrouped: seq<int>,
                          online: Selection, archive: Selection, deviceId: int)
    requires Consistent(devices, groups, ungrouped, online, archive)
    ensures Consistent(devices - {deviceId}, StripDevice(groups, deviceId), Except(ungrouped, {deviceId}),
                       online - {deviceId}, archive - {deviceId})
  {
    UngroupedAfterRemoval(devices, groups, deviceId);
    Deselect(online, deviceId);
    Deselect(archive, deviceId);
  }

  // ---------------------------------------------------------------------------
  // The store
  // ---------------------------------------------------------------------------

  class DevicesStore {
    var devices: map<int, Device>
    var groups: seq<Group>
    var ungroupedDeviceIds: seq<int>
    var onlineSelectedDevices: Selection
    var archiveSelectedDevices: Selection

    /** The registry's invariant, stated on its fields by `Consistent`. */
    ghost predicate Valid()
      reads this
    {
      Consistent(devices, groups, ungroupedDeviceIds, onlineSelectedDevices, archiveSelectedDevices)
    }

    constructor ()
      ensures Valid()
      ensures devices == map[] && groups == [] && ungroupedDeviceIds == []
      ensures onlineSelectedDevices == map[] && archiveSelectedDevices == map[]
    {
      devices := map[];
      groups := [];
      ungroupedDeviceIds := [];
      onlineSelectedDevices := map[];
      archiveSelectedDevices := map[];
      assert SortedKeys({}) == [];
    }

    /** `getSelectedDevices`: the selection of the given mode. */
    function Selected(online: bool): Selection
      reads this
    {
      if online then onlineSelectedDevices else archiveSelectedDevices
    }

    /** `getSelectedDeviceIds`: the selected ids of a mode, ascending. */
    function SelectedDeviceIds(online: bool): (ids: seq<int>)
      reads this
      ensures StrictlyAscending(ids)
      ensures forall id :: id in ids <==> id in Selected(online)
    {
      SortedKeys(Selected(online).Keys)
    }

    /** `archiveSelectedDeviceId`: the archive-selected device, or none. */
    function ArchiveSelectedDeviceId(): (id: Option<int>)
      reads this
      ensures id.None? <==> archiveSelectedDevices == map[]
      ensures id.Some? ==> id.value in archiveSelectedDevices
      ensures Valid() && id.Some? ==> archiveSelectedDevices.Keys == {id.value}
    {
      FirstKeyOfSingle(archiveSelectedDevices);
      FirstKey(archiveSelectedDevices)
    }

    /** `isDeviceSelected` */
    function IsDeviceSelected(deviceId: int, online: bool): (b: bool)
      reads this
      ensures b <==> deviceId in Selected(online)
    {
      deviceId in SelectedDeviceIds(online)
    }

    /** `getSelectedCameras` */
    function SelectedCameras(deviceId: int, online: bool): (cameras: seq<int>)
      reads this
      ensures deviceId in Selected(online) ==> cameras == Selected(online)[deviceId]
      ensures deviceId !in Selected(online) ==> cameras == []
      ensures Valid() ==> StrictlyAscending(cameras)
    {
      CamerasOf(Selected(online), deviceId)
    }

    /**
     * `getDevicesForMapByMode`: one entry per selected id that names a known
     * device, in ascending id order, carrying that device's chosen cameras;
     * the alarm flag shows only in online mode.
     */
    function DevicesForMapByMode(online: bool): (entries: seq<MapEntry>)
      reads this
      ensures var ids := SortedKeys(Selected(online).Keys * devices.Keys);
        && |entries| == |ids|
        && forall j :: 0 <= j < |entries| ==>
             && ids[j] in devices && ids[j] in Selected(online)
             && entries[j].device.(alarm := devices[ids[j]].alarm) == devices[ids[j]]
             && entries[j].device.alarm == (online && devices[ids[j]].alarm)
             && entries[j].selectedCameras == Selected(online)[ids[j]]
    {
      var ids := SelectedDeviceIds(online);
      SortedKeysOnly(Selected(online).Keys, devices.Keys);
      ProjectEntries(ids, devices, Selected(online), online);
      Project(ids, devices, Selected(online), online)
    }

    /** `setDevicesData`: replace devices and groups and derive the ungrouped ids afresh. */
    method SetDevicesData(newDevices: map<int, Device>, newGroups: seq<Group>)
      requires Valid()
      modifies this
      ensures Valid()
      ensures devices == newDevices && groups == newGroups
      ensures ungroupedDeviceIds == SortedKeys(newDevices.Keys - GroupedIds(newGroups))
      ensures onlineSelectedDevices == old(onlineSelectedDevices)
      ensures archiveSelectedDevices == old(archiveSelectedDevices)
    {
      devices := newDevices;
      groups := newGroups;
      ungroupedDeviceIds := UngroupedIds(newDevices, newGroups);
      UngroupedIdsListDifference(newDevices, newGroups);
    }

    /** `toggleDeviceSelection` */
    method ToggleDeviceSelection(deviceId: int, online: bool)
      requires Valid()
      modifies this
      ensures Valid()
      ensures devices == old(devices) && groups == old(groups)
      ensures ungroupedDeviceIds == old(ungroupedDeviceIds)
      ensures online ==> onlineSelectedDevices == ToggleOnline(old(onlineSelectedDevices), deviceId)
      ensures online ==> archiveSelectedDevices == old(archiveSelectedDevices)
      ensures !online ==> archiveSelectedDevices == ToggleArchive(old(archiveSelectedDevices), deviceId)
      ensures !online ==> onlineSelectedDevices == old(onlineSelectedDevices)
    {
      if !online {
        var selected := ArchiveSelectedDeviceId();
        if selected == Some(deviceId) {
          archiveSelectedDevices := archiveSelectedDevices - {deviceId};
        } else {
          var cameras := if selected.Some? then archiveSelectedDevices[selected.value] else [];
          archiveSelectedDevices := map[deviceId := cameras];
        }
        assert archiveSelectedDevices == ToggleArchive(old(archiveSelectedDevices), deviceId);
      } else {
        if deviceId in onlineSelectedDevices {
          onlineSelectedDevices := onlineSelectedDevices - {deviceId};
        } else {
          onlineSelectedDevices := onlineSelectedDevices[deviceId := []];
        }
        assert onlineSelectedDevices == ToggleOnline(old(onlineSelectedDevices), deviceId);
      }
    }

    /** `toggleCameraSelection`: no effect unless the device is selected in that mode. */
    method ToggleCameraSelection(deviceId: int, cameraNumber: int, online: bool)
      requires Valid()
      modifies this
      ensures Valid()
      ensures devices == old(devices) && groups == old(groups)
      ensures ungroupedDeviceIds == old(ungroupedDeviceIds)
      ensures deviceId !in old(Selected(online)) ==>
        onlineSelectedDevices == old(onlineSelectedDevices) && archiveSelectedDevices == old(archiveSelectedDevices)
      ensures deviceId in old(Selected(online)) ==>
        Selected(online) == old(Selected(online))[deviceId := ToggleCamera(old(Selected(online))[deviceId], cameraNumber)]
      ensures Selected(!online) == old(Selected(!online))
    {
      var selected := Selected(online);
      if deviceId !in selected {
        return;
      }
      var current := selected[deviceId];
      var updated;
      if cameraNumber in current {
        updated := Except(current, {cameraNumber});
      } else {
        updated := SortAscending(current + [cameraNumber]);
      }
      assert updated == ToggleCamera(current, cameraNumber);
      if online {
        onlineSelectedDevices := onlineSelectedDevices[deviceId := updated];
      } else {
        archiveSelectedDevices := archiveSelectedDevices[deviceId := updated];
        assert archiveSelectedDevices.Keys == old(archiveSelectedDevices).Keys;
      }
    }

    /** `removeDevice`: the device disappears from every structure of the registry. */
    method RemoveDevice(deviceId: int)
      requires Valid()
      modifies this
      ensures Valid()
      ensures devices == old(devices) - {deviceId}
      ensures onlineSelectedDevices == old(onlineSelectedDevices) - {deviceId}
      ensures archiveSelectedDevices == old(archiveSelectedDevices) - {deviceId}
      ensures groups == StripDevice(old(groups), deviceId)
      ensures ungroupedDeviceIds == Except(old(ungroupedDeviceIds), {deviceId})
      ensures forall i :: 0 <= i < |groups| ==> deviceId !in groups[i].deviceIds
      ensures deviceId !in ungroupedDeviceIds
    {
      RemovalConsistent(devices, groups, ungroupedDeviceIds, onlineSelectedDevices, archiveSelectedDevices, deviceId);
      devices := devices - {deviceId};
      onlineSelectedDevices := onlineSelectedDevices - {deviceId};
      archiveSelectedDevices := archiveSelectedDevices - {deviceId};
      groups := StripDevice(groups, deviceId);
      ungroupedDeviceIds := Except(ungroupedDeviceIds, {deviceId});
    }

    /** `updateDevice`: merge the patch into a known device; unknown ids change nothing. */
    method UpdateDevice(deviceId: int, updates: DevicePatch)
      requires Valid()
      modifies this
      ensures Valid()
      ensures deviceId !in old(devices) ==> devices == old(devices)
      ensures deviceId in old(devices) ==> devices == old(devices)[deviceId := Merge(old(devices)[deviceId], updates)]
      ensures groups == old(groups) && ungroupedDeviceIds == old(ungroupedDeviceIds)
      ensures onlineSelectedDevices == old(onlineSelectedDevices)
      ensures archiveSelectedDevices == old(archiveSelectedDevices)
    {
      if deviceId in devices {
        devices := devices[deviceId := Merge(devices[deviceId], updates)];
        assert devices.Keys == old(devices).Keys;
      }
    }

    /** `clearOnlineSelection` */
    method ClearOnlineSelection()
      requires Valid()
      modifies this
      ensures Valid()
      ensures onlineSelectedDevices == map[]
      ensures devices == old(devices) && groups == old(groups) && ungroupedDeviceIds == old(ungroupedDeviceIds)
      ensures archiveSelectedDevices == old(archiveSelectedDevices)
    {
      onlineSelectedDevices := map[];
    }

    /** `clearArchiveSelection` */
    method ClearArchiveSelection()
      requires Valid()
      modifies this
      ensures Valid()
      ensures archiveSelectedDevices == map[]
      ensures devices == old(devices) && groups == old(groups) && ungroupedDeviceIds == old(ungroupedDeviceIds)
      ensures onlineSelectedDevices == old(onlineSelectedDevices)
    {
      archiveSelectedDevices := map[];
    }
  }
}
