/**
 * The native site picker (components/map/SiteLocationPicker.tsx): a location
 * set from the device position, and a boundary drawn by tapping the map and
 * dragging markers.
 */
module NativeSitePicker {
  import opened Wrappers
  import opened JsNumber
  import opened Geo
  import opened Wkt
  import opened Session

  /** A map region: a centre and the span shown on each axis, in degrees. */
  datatype Region = Region(latitude: real, longitude: real, latitudeDelta: real, longitudeDelta: real)

  /** About a hundred metres across. */
  const CloseDelta := 0.001
  /** The whole contiguous United States. */
  const CountryDelta := 40.0

  /** The region around a known point, close up. */
  function CloseRegion(c: Coordinate): Region {
    Region(Degrees(c.latitude), Degrees(c.longitude), CloseDelta, CloseDelta)
  }

  /**
   * `defaultRegion`: the chosen location close up, or the centre of the
   * United States seen from far away.
   */
  function DefaultRegion(location: Option<Coordinate>): (r: Region)
    ensures r.latitudeDelta == r.longitudeDelta == (if location.Some? then CloseDelta else CountryDelta)
    ensures r.latitudeDelta < 1.0 <==> location.Some?
    ensures location.Some? ==> r.latitude == Degrees(location.value.latitude) && r.longitude == Degrees(location.value.longitude)
    ensures location.None? ==> r.latitude == 39.8283 && r.longitude == -98.5795
  {
    if location.Some? then CloseRegion(location.value)
    else Region(39.8283, -98.5795, CountryDelta, CountryDelta)
  }

  /** The filled polygon is drawn for more than two points. */
  predicate ShowsPolygon(b: seq<Coordinate>) {
    |b| > 2
  }

  /** A boundary is filled on the map exactly when saving the site would store it. */
  lemma PolygonMeansSaved(b: seq<Coordinate>)
    ensures ShowsPolygon(b) <==> EncodeBoundary(b).Some?
  {
  }

  /** One draggable marker per point, in drawing order, each carrying its index. */
  function Markers(b: seq<Coordinate>): (r: seq<(nat, Coordinate)>)
    ensures |r| == |b|
    ensures forall i :: 0 <= i < |r| ==> r[i] == (i, b[i])
  {
    seq(|b|, i requires 0 <= i < |b| => (i, b[i]))
  }

  /** Every marker shown can be dragged: its index names a point of the boundary. */
  lemma MarkersDraggable(s: SessionState, i: nat, to: Coordinate)
    requires i < |Markers(s.boundary)|
    ensures Enabled(s, Drag(Markers(s.boundary)[i].0, to))
  {
  }

  class SitePicker {
    const session: BoundarySession
    var location: Option<Coordinate>

    constructor(initialLocation: Option<Coordinate>, initialBoundary: seq<Coordinate>)
      ensures fresh(session)
      ensures location == initialLocation
      ensures session.State() == SessionState(initialBoundary, false)
    {
      session := new BoundarySession(initialBoundary);
      location := initialLocation;
    }

    /** The region the map opens on. */
    function InitialRegion(): Region
      reads this
    {
      DefaultRegion(location)
    }

    /**
     * `getCurrentLocation` once permission is granted and the device reports
     * `c`: the location becomes `c`, `c` is reported to `onLocationChange`,
     * and the map is animated to `c` close up. The boundary is untouched.
     */
    method LocateSucceeded(c: Coordinate) returns (reported: Coordinate, animateTo: Region)
      modifies this
      ensures location == Some(c) && reported == c
      ensures animateTo == CloseRegion(c) && animateTo.latitudeDelta == CloseDelta
      ensures session.State() == old(session.State())
    {
      location := Some(c);
      reported := c;
      animateTo := CloseRegion(c);
    }

    method HandleMapPress(c: Coordinate) returns (report: Option<seq<Coordinate>>)
      modifies session
      ensures Step(session.State(), report) == Pressed(old(session.State()), c)
    {
      report := session.MapPress(c);
    }

    method HandleMarkerDrag(index: nat, c: Coordinate) returns (report: Option<seq<Coordinate>>)
      requires index < |session.boundary|
      modifies session
      ensures Step(session.State(), report) == Dragged(old(session.State()), index, c)
    {
      report := session.MarkerDrag(index, c);
    }

    method ToggleDrawing() returns (report: Option<seq<Coordinate>>)
      modifies session
      ensures Step(session.State(), report) == Toggled(old(session.State()))
    {
      report := session.ToggleDrawing();
    }

    method ClearBoundary() returns (report: Option<seq<Coordinate>>)
      modifies session
      ensures Step(session.State(), report) == Cleared(old(session.State()))
    {
      report := session.ClearBoundary();
    }
  }
}
