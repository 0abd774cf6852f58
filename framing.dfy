/**
 * Where the web maps are centred and how far they are zoomed: the initial
 * view, the centroid of a site boundary, and the decision table the garden
 * picker applies once the site row is loaded
 * (components/map/GardenLocationPicker.web.tsx).
 */
module Framing {
  import opened Wrappers
  import opened JsNumber
  import opened Geo
  import opened Wkt

  /** A map centre; its parts may be `NaN` or `undefined` when they come from decoded text. */
  datatype MapCenter = MapCenter(lat: JsNum, lng: JsNum)

  datatype View = View(center: MapCenter, zoom: int)

  /** The centre of the contiguous United States, shown when nothing is known yet. */
  const UsCenter := MapCenter(Finite(39.8283), Finite(-98.5795))
  const UsZoom := 4
  const PointZoom := 18
  const BoundaryZoom := 17

  function PointCenter(c: Coordinate): MapCenter {
    MapCenter(Finite(Degrees(c.latitude)), Finite(Degrees(c.longitude)))
  }

  /** The view a web picker opens with: the initial location close up, or the whole country. */
  function InitialView(initial: Option<Coordinate>): (v: View)
    ensures v.zoom == PointZoom <==> initial.Some?
    ensures initial.Some? ==> v.center.lat == Finite(Degrees(initial.value.latitude)) &&
                              v.center.lng == Finite(Degrees(initial.value.longitude))
    ensures initial.None? ==> v.center == UsCenter && v.zoom == UsZoom
  {
    if initial.Some? then View(PointCenter(initial.value), PointZoom) else View(UsCenter, UsZoom)
  }

  /** JavaScript `+` on numbers: anything that is not a finite number makes `NaN`. */
  function Add(a: JsNum, b: JsNum): JsNum {
    if a.Finite? && b.Finite? then Finite(a.value + b.value) else NaN
  }

  /** `xs.reduce((sum, x) => sum + x, 0)`. */
  function Sum(xs: seq<JsNum>): JsNum {
    if xs == [] then Finite(0.0) else Add(Sum(xs[..|xs| - 1]), xs[|xs| - 1])
  }

  predicate AllFinite(xs: seq<JsNum>) {
    forall i :: 0 <= i < |xs| ==> xs[i].Finite?
  }

  lemma {:induction false} SumFinite(xs: seq<JsNum>)
    ensures Sum(xs).Finite? <==> AllFinite(xs)
  {
    if xs != [] {
      var init := xs[..|xs| - 1];
      SumFinite(init);
      assert forall i :: 0 <= i < |init| ==> init[i] == xs[i];
    }
  }

  /** `n * x`, written as repeated addition so that bounds on sums stay linear. */
  function Times(n: nat, x: real): real {
    if n == 0 then 0.0 else Times(n - 1, x) + x
  }

  lemma {:induction false} TimesProduct(n: nat, x: real)
    ensures Times(n, x) == n as real * x
  {
    if n > 0 {
      TimesProduct(n - 1, x);
      assert n as real * x == (n - 1) as real * x + x;
    }
  }

  /** The sum of n values that all lie in [lo, hi] lies in [n * lo, n * hi]. */
  lemma {:induction false} SumBounds(xs: seq<JsNum>, lo: real, hi: real)
    requires forall i :: 0 <= i < |xs| ==> xs[i].Finite? && lo <= xs[i].value <= hi
    ensures Sum(xs).Finite?
    ensures Times(|xs|, lo) <= Sum(xs).value <= Times(|xs|, hi)
  {
    if xs != [] {
      var init := xs[..|xs| - 1];
      assert forall i :: 0 <= i < |init| ==> init[i] == xs[i];
      SumBounds(init, lo, hi);
    }
  }

  lemma DivBounds(s: real, n: real, lo: real, hi: real)
    requires n > 0.0 && n * lo <= s <= n * hi
    ensures lo <= s / n <= hi
  {
    assert (s / n) * n == s;
  }

  /** The arithmetic mean `sum / length`; it is a number exactly when every value is. */
  function Mean(xs: seq<JsNum>): (r: JsNum)
    requires |xs| > 0
    ensures r.Finite? <==> AllFinite(xs)
    ensures r != Undefined
  {
    SumFinite(xs);
    match Sum(xs)
    case Finite(s) => Finite(s / |xs| as real)
    case _ => NaN
  }

  /** The mean of values that all lie in [lo, hi] lies in [lo, hi]. */
  lemma MeanBounds(xs: seq<JsNum>, lo: real, hi: real)
    requires |xs| > 0
    requires forall i :: 0 <= i < |xs| ==> xs[i].Finite? && lo <= xs[i].value <= hi
    ensures Mean(xs).Finite? && lo <= Mean(xs).value <= hi
  {
    SumBounds(xs, lo, hi);
    TimesProduct(|xs|, lo);
    TimesProduct(|xs|, hi);
    DivBounds(Sum(xs).value, |xs| as real, lo, hi);
  }

  function Latitudes(points: seq<DecodedPoint>): (r: seq<JsNum>)
    ensures |r| == |points|
    ensures forall k :: 0 <= k < |points| ==> r[k] == points[k].latitude
  {
    seq(|points|, k requires 0 <= k < |points| => points[k].latitude)
  }

  function Longitudes(points: seq<DecodedPoint>): (r: seq<JsNum>)
    ensures |r| == |points|
    ensures forall k :: 0 <= k < |points| ==> r[k] == points[k].longitude
  {
    seq(|points|, k requires 0 <= k < |points| => points[k].longitude)
  }

  /** The centroid of a site boundary: the mean latitude and the mean longitude. */
  function Centroid(points: seq<DecodedPoint>): (r: MapCenter)
    requires |points| > 0
    ensures r.lat != Undefined && r.lng != Undefined
    ensures r.lat.Finite? <==> forall k :: 0 <= k < |points| ==> points[k].latitude.Finite?
    ensures r.lng.Finite? <==> forall k :: 0 <= k < |points| ==> points[k].longitude.Finite?
  {
    MapCenter(Mean(Latitudes(points)), Mean(Longitudes(points)))
  }

  /**
   * On each axis the centroid lies within any bounds of the points: between the
   * southernmost and northernmost latitude, and the westernmost and easternmost
   * longitude.
   */
  lemma CentroidWithin(points: seq<DecodedPoint>, south: real, north: real, west: real, east: real)
    requires |points| > 0
    requires forall k :: 0 <= k < |points| ==> points[k].latitude.Finite? && south <= points[k].latitude.value <= north
    requires forall k :: 0 <= k < |points| ==> points[k].longitude.Finite? && west <= points[k].longitude.value <= east
    ensures Centroid(points).lat.Finite? && south <= Centroid(points).lat.value <= north
    ensures Centroid(points).lng.Finite? && west <= Centroid(points).lng.value <= east
  {
    MeanBounds(Latitudes(points), south, north);
    MeanBounds(Longitudes(points), west, east);
  }

  /** A boundary whose points all coincide has that point as its centroid. */
  lemma CentroidOfSame(points: seq<DecodedPoint>, c: Coordinate)
    requires |points| > 0
    requires forall k :: 0 <= k < |points| ==> points[k] == Lift(c)
    ensures Centroid(points) == PointCenter(c)
  {
    var lat, lng := Degrees(c.latitude), Degrees(c.longitude);
    CentroidWithin(points, lat, lat, lng, lng);
  }

  /** The columns of a stored site row that the garden picker reads; `None` is SQL `null`. */
  datatype SiteRow = SiteRow(boundary: Option<string>, locationLat: Option<int>, locationLng: Option<int>)

  /** A JavaScript string is truthy when it is present and not empty. */
  predicate TruthyText(s: Option<string>) {
    s.Some? && s.value != ""
  }

  /** A JavaScript number is truthy when it is present and not zero. */
  predicate TruthyNumber(x: Option<int>) {
    x.Some? && x.value != 0
  }

  /** What loading a site changes: the outline to show, and a new view. `None` leaves each as it was. */
  datatype SiteLoad = SiteLoad(siteBoundary: Option<seq<DecodedPoint>>, view: Option<View>)

  /**
   * The loading rule. A truthy stored boundary is decoded; when its `((...))`
   * body is found the decoded points become the site outline and, without an
   * initial location, the map centres on their centroid at zoom 17. A falsy
   * boundary with a truthy latitude and longitude centres the map on that
   * point at zoom 18, again only without an initial location. A missing row
   * changes nothing.
   */
  function SiteFraming(initial: Option<Coordinate>, site: Option<SiteRow>): (r: SiteLoad)
    ensures initial.Some? ==> r.view.None?
    ensures r.siteBoundary.Some? ==>
      site.Some? && TruthyText(site.value.boundary) && DecodeBoundary(site.value.boundary.value) == r.siteBoundary
    ensures r.view.Some? ==> r.view.value.zoom == BoundaryZoom || r.view.value.zoom == PointZoom
    ensures r.view.Some? && r.view.value.zoom == BoundaryZoom ==>
      r.siteBoundary.Some? && r.view.value.center == Centroid(r.siteBoundary.value)
    ensures r.view.Some? && r.view.value.zoom == PointZoom ==>
      r.siteBoundary.None? && site.Some? && !TruthyText(site.value.boundary) &&
      TruthyNumber(site.value.locationLat) && TruthyNumber(site.value.locationLng) &&
      r.view.value.center == PointCenter(Coordinate(site.value.locationLat.value, site.value.locationLng.value))
    ensures site.Some? && TruthyText(site.value.boundary) && DecodeBoundary(site.value.boundary.value).Some? ==>
      r.siteBoundary.Some? && (initial.None? ==> r.view.Some?)
    ensures (initial.None? && site.Some? && !TruthyText(site.value.boundary) &&
             TruthyNumber(site.value.locationLat) && TruthyNumber(site.value.locationLng)) ==>
      r == SiteLoad(None, Some(View(PointCenter(Coordinate(site.value.locationLat.value, site.value.locationLng.value)), PointZoom)))
  {
    if site.None? then SiteLoad(None, None)
    else if TruthyText(site.value.boundary) then
      match DecodeBoundary(site.value.boundary.value)
      case None => SiteLoad(None, None)
      case Some(points) =>
        SiteLoad(Some(points), if initial.None? then Some(View(Centroid(points), BoundaryZoom)) else None)
    else if TruthyNumber(site.value.locationLat) && TruthyNumber(site.value.locationLng) && initial.None? then
      SiteLoad(None, Some(View(PointCenter(Coordinate(site.value.locationLat.value, site.value.locationLng.value)), PointZoom)))
    else SiteLoad(None, None)
  }

  /**
   * A site saved with a boundary of three or more points is shown with exactly
   * those points as its outline and, without an initial location, is framed on
   * their centroid at zoom 17, whatever its reference point.
   */
  lemma SavedBoundaryFraming(b: seq<Coordinate>, lat: Option<int>, lng: Option<int>)
    requires |b| >= 3
    ensures SiteFraming(None, Some(SiteRow(EncodeBoundary(b), lat, lng))) ==
      SiteLoad(Some(LiftAll(b)), Some(View(Centroid(LiftAll(b)), BoundaryZoom)))
  {
    RoundTrip(b);
    EncodedRing(b);
  }

  /**
   * A site saved with fewer than three boundary points has no stored boundary,
   * so with a non-zero reference point it is framed on that point at zoom 18.
   */
  lemma SavedPointFraming(b: seq<Coordinate>, lat: int, lng: int)
    requires |b| < 3 && lat != 0 && lng != 0
    ensures SiteFraming(None, Some(SiteRow(EncodeBoundary(b), Some(lat), Some(lng)))) ==
      SiteLoad(None, Some(View(PointCenter(Coordinate(lat, lng)), PointZoom)))
  {
  }
}
