/**
 * The garden picker (components/map/GardenLocationPicker.web.tsx): the
 * drawing session for a garden's own boundary, shown over the outline of the
 * site the garden belongs to, which is decoded from the stored site row.
 */
module GardenPicker {
  import opened Wrappers
  import opened JsText
  import opened Geo
  import opened Wkt
  import opened Session
  import opened Framing

  /**
   * The decoding steps of `loadSiteBoundary`: find the `((...))` body, split
   * it at the commas, parse each pair and drop the last one when there is
   * more than one. Nothing is read when the body is missing or empty.
   */
  method ReadSiteBoundary(boundary: string) returns (coords: Option<seq<DecodedPoint>>)
    ensures coords == DecodeBoundary(boundary)
  {
    var coordString := MatchBody(boundary);
    if coordString.None? || coordString.value == "" {
      return None;
    }
    var pairs := Split(coordString.value, ',');
    var parsed := seq(|pairs|, k requires 0 <= k < |pairs| => ParsePair(pairs[k]));
    if |parsed| > 1 {
      parsed := parsed[..|parsed| - 1];
    }
    assert parsed == DecodePairs(coordString.value);
    coords := Some(parsed);
  }

  class GardenLocationPicker {
    const initialLocation: Option<Coordinate>
    const session: BoundarySession
    var location: Option<Coordinate>
    /** The outline of the enclosing site, drawn read-only under the garden boundary. */
    var siteBoundary: seq<DecodedPoint>
    var mapCenter: MapCenter
    var mapZoom: int

    function View(): View
      reads this
    {
      Framing.View(mapCenter, mapZoom)
    }

    /** The picker opens with no site outline, on its initial location at zoom 18 or the whole country at zoom 4. */
    constructor(initial: Option<Coordinate>, initialBoundary: seq<Coordinate>)
      ensures fresh(session)
      ensures initialLocation == initial && location == initial && siteBoundary == []
      ensures View() == InitialView(initial)
      ensures session.State() == SessionState(initialBoundary, false)
    {
      initialLocation := initial;
      session := new BoundarySession(initialBoundary);
      location := initial;
      siteBoundary := [];
      if initial.Some? {
        mapCenter := PointCenter(initial.value);
        mapZoom := PointZoom;
      } else {
        mapCenter := UsCenter;
        mapZoom := UsZoom;
      }
    }

    /**
     * `loadSiteBoundary` once the site row has been fetched (`None` when no
     * row came back). Nothing happens without a truthy site id; otherwise the
     * outline and the view change as the loading rule says, and what the rule
     * leaves alone keeps its value.
     */
    method LoadSiteBoundary(siteId: Option<string>, site: Option<SiteRow>)
      modifies this
      ensures location == old(location)
      ensures session.State() == old(session.State())
      ensures !TruthyText(siteId) ==> siteBoundary == old(siteBoundary) && View() == old(View())
      ensures TruthyText(siteId) ==>
        var load := SiteFraming(initialLocation, site);
        siteBoundary == (if load.siteBoundary.Some? then load.siteBoundary.value else old(siteBoundary)) &&
        View() == (if load.view.Some? then load.view.value else old(View()))
    {
      if !TruthyText(siteId) {
        return;
      }
      ghost var load := SiteFraming(initialLocation, site);
      if site.Some? && TruthyText(site.value.boundary) {
        var coords := ReadSiteBoundary(site.value.boundary.value);
        assert load.siteBoundary == coords;
        if coords.Some? {
          siteBoundary := coords.value;
          if |coords.value| > 0 && initialLocation.None? {
            mapCenter := Centroid(coords.value);
            mapZoom := BoundaryZoom;
          }
        }
        assert load.view == if coords.Some? && initialLocation.None? then Some(View()) else None;
      } else if site.Some? && TruthyNumber(site.value.locationLat) && TruthyNumber(site.value.locationLng) && initialLocation.None? {
        mapCenter := PointCenter(Coordinate(site.value.locationLat.value, site.value.locationLng.value));
        mapZoom := PointZoom;
        assert load == SiteLoad(None, Some(View()));
      } else {
        assert load == SiteLoad(None, None);
      }
    }

    /**
     * The browser reported position `c`: the location and the map centre
     * become `c`, the zoom 18, and `c` is reported to `onLocationChange`.
     */
    method LocateSucceeded(c: Coordinate) returns (reported: Coordinate)
      modifies this
      ensures location == Some(c) && reported == c
      ensures View() == Framing.View(PointCenter(c), PointZoom)
      ensures siteBoundary == old(siteBoundary)
      ensures session.State() == old(session.State())
    {
      location := Some(c);
      mapCenter := PointCenter(c);
      mapZoom := PointZoom;
      reported := c;
    }

    method MapClick(c: Coordinate) returns (report: Option<seq<Coordinate>>)
      modifies session
      ensures Step(session.State(), report) == Pressed(old(session.State()), c)
    {
      report := session.MapPress(c);
    }

    method MarkerDrag(index: nat, c: Coordinate) returns (report: Option<seq<Coordinate>>)
      requires index < |session.boundary|
      modifies session
      ensures Step(session.State(), report) == Dragged(old(session.State()), index, c)
    {
      report := session.MarkerDrag(index, c);
    }

    method ToggleDrawing() returns (report: Option<seq<Coordinate>>)
      modifies session
      ensures Step(session.State(), report) == Toggled(old(session.State()))
    {
      report := session.ToggleDrawing();
    }

    method ClearBoundary() returns (report: Option<seq<Coordinate>>)
      modifies session
      ensures Step(session.State(), report) == Cleared(old(session.State()))
    {
      report := session.ClearBoundary();
    }
  }
}
