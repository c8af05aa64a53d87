/**
 * The map view store: where the map is centred, how far it is zoomed, the
 * box it was last fitted to, and the placemarks shown for the devices. The
 * third-party map and its object manager are represented by two small
 * classes that record, as ghost state, the calls the store makes on them.
 */
module MapState {
  import opened Wrappers
  import opened Devices

  /** A pair of coordinates; the store writes `[lat, lon]`, placemarks `[lon, lat]`. */
  datatype Coordinates = Coordinates(first: real, second: real)

  /** `[[minLat, minLon], [maxLat, maxLon]]` */
  datatype Box = Box(lower: Coordinates, upper: Coordinates)

  /** A call the store makes on the map. */
  datatype MapCall =
    | SetCenterCall(center: Coordinates, zoom: int)
    | SetBoundsCall(bounds: Box, checkZoomRange: bool)

  /** `iconContent`: the red circle for a device in alarm, the blue one otherwise. */
  datatype Icon = Red | Blue

  /**
   * The data the tooltip shows. The tooltip itself is an HTML string with
   * the coordinates rounded to six decimals; only what it is made from is kept.
   */
  datatype Hint = Hint(name: string, id: int, channels: int, timestamp: string, lat: real, lon: real)

  /** A point feature handed to the object manager. */
  datatype Feature = Feature(id: int, coordinates: Coordinates, hint: Hint, icon: Icon)

  /** The map object: it records every `setCenter`/`setBounds` call made on it. */
  class MapSurface {
    ghost var calls: seq<MapCall>

    constructor ()
      ensures calls == []
    {
      calls := [];
    }

    method SetCenter(center: Coordinates, zoom: int)
      modifies this
      ensures calls == old(calls) + [SetCenterCall(center, zoom)]
    {
      calls := calls + [SetCenterCall(center, zoom)];
    }

    method SetBounds(bounds: Box, checkZoomRange: bool)
      modifies this
      ensures calls == old(calls) + [SetBoundsCall(bounds, checkZoomRange)]
    {
      calls := calls + [SetBoundsCall(bounds, checkZoomRange)];
    }
  }

  /** The object manager: the collection of features shown on the map. */
  class ObjectManager {
    ghost var features: seq<Feature>

    constructor ()
      ensures features == []
    {
      features := [];
    }

    method Add(feature: Feature)
      modifies this
      ensures features == old(features) + [feature]
    {
      features := features + [feature];
    }

    method RemoveAll()
      modifies this
      ensures features == []
    {
      features := [];
    }
  }

  // ---------------------------------------------------------------------------
  // The bounding box
  // ---------------------------------------------------------------------------

  /** `Math.min(...xs)` on a non-empty list. */
  function MinOf(xs: seq<real>): (m: real)
    requires xs != []
    ensures m in xs
    ensures forall x :: x in xs ==> m <= x
  {
    if |xs| == 1 then xs[0]
    else
      var rest := MinOf(xs[1..]);
      assert forall x :: x in xs ==> x == xs[0] || x in xs[1..];
      if xs[0] <= rest then xs[0] else rest
  }

  /** `Math.max(...xs)` on a non-empty list. */
  function MaxOf(xs: seq<real>): (m: real)
    requires xs != []
    ensures m in xs
    ensures forall x :: x in xs ==> x <= m
  {
    if |xs| == 1 then xs[0]
    else
      var rest := MaxOf(xs[1..]);
      assert forall x :: x in xs ==> x == xs[0] || x in xs[1..];
      if xs[0] >= rest then xs[0] else rest
  }

  /** `devices.map(d => d.lat)` */
  function Latitudes(devices: seq<Device>): (r: seq<real>)
    ensures |r| == |devices| && forall i :: 0 <= i < |devices| ==> r[i] == devices[i].lat
  {
    seq(|devices|, i requires 0 <= i < |devices| => devices[i].lat)
  }

  /** `devices.map(d => d.lon)` */
  function Longitudes(devices: seq<Device>): (r: seq<real>)
    ensures |r| == |devices| && forall i :: 0 <= i < |devices| ==> r[i] == devices[i].lon
  {
    seq(|devices|, i requires 0 <= i < |devices| => devices[i].lon)
  }

  /** The device `d` lies inside `box` (latitude first, longitude second). */
  predicate Inside(box: Box, d: Device) {
    box.lower.first <= d.lat <= box.upper.first && box.lower.second <= d.lon <= box.upper.second
  }

  /**
   * `[[minLat, minLon], [maxLat, maxLon]]`: a box with ordered corners that
   * holds every device.
   */
  function BoundingBox(devices: seq<Device>): (box: Box)
    requires devices != []
    ensures box.lower.first <= box.upper.first && box.lower.second <= box.upper.second
    ensures forall i :: 0 <= i < |devices| ==> Inside(box, devices[i])
  {
    var lats, lons := Latitudes(devices), Longitudes(devices);
    assert lats[0] in lats && lons[0] in lons;
    assert forall i :: 0 <= i < |devices| ==> lats[i] in lats && lons[i] in lons;
    Box(Coordinates(MinOf(lats), MinOf(lons)), Coordinates(MaxOf(lats), MaxOf(lons)))
  }

  /** The bounding box is the tightest such box: each of its four sides touches some device. */
  lemma BoundingBoxTight(devices: seq<Device>)
    requires devices != []
    ensures var box := BoundingBox(devices);
      && (exists i :: 0 <= i < |devices| && devices[i].lat == box.lower.first)
      && (exists i :: 0 <= i < |devices| && devices[i].lat == box.upper.first)
      && (exists i :: 0 <= i < |devices| && devices[i].lon == box.lower.second)
      && (exists i :: 0 <= i < |devices| && devices[i].lon == box.upper.second)
  {
  }

  // ---------------------------------------------------------------------------
  // Placemarks
  // ---------------------------------------------------------------------------

  /** The feature `addDevicePlacemarks` builds for one device. */
  function Placemark(device: Device): (f: Feature)
    ensures f.id == device.id
    ensures f.coordinates == Coordinates(device.lon, device.lat)
    ensures f.icon == Red <==> device.alarm
  {
    Feature(
      device.id,
      Coordinates(device.lon, device.lat),
      Hint(device.name, device.id, device.channels, device.timestamp, device.lat, device.lon),
      if device.alarm then Red else Blue)
  }

  /** One feature per device, in the order of the devices. */
  function Placemarks(devices: seq<Device>): (fs: seq<Feature>)
    ensures |fs| == |devices|
    ensures forall i :: 0 <= i < |devices| ==> fs[i] == Placemark(devices[i])
  {
    seq(|devices|, i requires 0 <= i < |devices| => Placemark(devices[i]))
  }

  /** The features of a list followed by one more device. */
  lemma PlacemarksSnoc(devices: seq<Device>, d: Device)
    ensures Placemarks(devices + [d]) == Placemarks(devices) + [Placemark(d)]
  {
  }

  // ---------------------------------------------------------------------------
  // The store
  // ---------------------------------------------------------------------------

  /** Moscow, the initial centre. */
  const InitialCenter := Coordinates(55.751244, 37.618423)
  const InitialZoom := 10
  /** The zoom `fitToDevices` uses for a single device. */
  const SingleDeviceZoom := 15

  class MapStore {
    var mapInstance: MapSurface?
    var objectManager: ObjectManager?
    var center: Coordinates
    var zoom: int
    var bounds: Option<Box>

    constructor ()
      ensures mapInstance == null && objectManager == null
      ensures center == InitialCenter && zoom == InitialZoom && bounds == None
    {
      mapInstance := null;
      objectManager := null;
      center := InitialCenter;
      zoom := InitialZoom;
      bounds := None;
    }

    /** `setMapInstance` */
    method SetMapInstance(instance: MapSurface?)
      modifies this
      ensures mapInstance == instance
      ensures objectManager == old(objectManager) && center == old(center) && zoom == old(zoom) && bounds == old(bounds)
    {
      mapInstance := instance;
    }

    /** `setObjectManager` */
    method SetObjectManager(manager: ObjectManager?)
      modifies this
      ensures objectManager == manager
      ensures mapInstance == old(mapInstance) && center == old(center) && zoom == old(zoom) && bounds == old(bounds)
    {
      objectManager := manager;
    }

    /** `setBounds` */
    method SetBounds(newBounds: Option<Box>)
      modifies this
      ensures bounds == newBounds
      ensures mapInstance == old(mapInstance) && objectManager == old(objectManager)
      ensures center == old(center) && zoom == old(zoom)
    {
      bounds := newBounds;
    }

    /**
     * `fitToDevices`: without a map or without devices nothing happens. One
     * device centres the map on it at zoom 15 and leaves the bounds alone;
     * several devices set the bounds to their bounding box, with the zoom
     * range check on, and leave the centre and zoom alone.
     */
    method FitToDevices(devices: seq<Device>)
      modifies this, mapInstance
      ensures mapInstance == old(mapInstance) && objectManager == old(objectManager)
      ensures mapInstance == null || devices == [] ==>
        && center == old(center) && zoom == old(zoom) && bounds == old(bounds)
        && (mapInstance != null ==> mapInstance.calls == old(mapInstance.calls))
      ensures mapInstance != null && |devices| == 1 ==>
        && center == Coordinates(devices[0].lat, devices[0].lon) && zoom == SingleDeviceZoom
        && bounds == old(bounds)
        && mapInstance.calls == old(mapInstance.calls) + [SetCenterCall(center, SingleDeviceZoom)]
      ensures mapInstance != null && |devices| > 1 ==>
        && bounds == Some(BoundingBox(devices))
        && center == old(center) && zoom == old(zoom)
        && mapInstance.calls == old(mapInstance.calls) + [SetBoundsCall(BoundingBox(devices), true)]
    {
      if mapInstance == null || |devices| == 0 {
        return;
      }
      if |devices| == 1 {
        var device := devices[0];
        center := Coordinates(device.lat, device.lon);
        zoom := SingleDeviceZoom;
        mapInstance.SetCenter(Coordinates(device.lat, device.lon), SingleDeviceZoom);
      } else {
        var box := BoundingBox(devices);
        bounds := Some(box);
        mapInstance.SetBounds(box, true);
      }
    }

    /** `clearAllPlacemarks`: empties the collection when there is an object manager. */
    method ClearAllPlacemarks()
      modifies objectManager
      ensures objectManager != null ==> objectManager.features == []
    {
      if objectManager != null {
        objectManager.RemoveAll();
      }
    }

    /**
     * `addDevicePlacemarks`: without an object manager nothing happens;
     * otherwise the collection is cleared and then holds one feature per
     * device, in the order of the devices.
     */
    method AddDevicePlacemarks(devices: seq<Device>)
      modifies objectManager
      ensures objectManager != null ==> objectManager.features == Placemarks(devices)
    {
      if objectManager == null {
        return;
      }
      ClearAllPlacemarks();
      var i := 0;
      while i < |devices|
        invariant 0 <= i <= |devices|
        invariant objectManager.features == Placemarks(devices[..i])
      {
        PlacemarksSnoc(devices[..i], devices[i]);
        assert devices[..i + 1] == devices[..i] + [devices[i]];
        objectManager.Add(Placemark(devices[i]));
        i := i + 1;
      }
      assert devices[..i] == devices;
    }
  }
}
