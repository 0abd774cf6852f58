/**
 * The "add site" form (app/sites/add.tsx): the fields being edited, the zone
 * filled in from the location, and the row saved when the form is submitted.
 */
module AddSite {
  import opened Wrappers
  import opened JsText
  import opened Geo
  import opened Wkt
  import opened Framing

  /** Who is submitting: nobody signed in, a signed-in user without a gardener profile, or a gardener. */
  datatype Account = SignedOut | NoProfile | Gardener(id: string)

  /** The columns of a new `sites` row; `None` is SQL `null`. */
  datatype SiteInsert = SiteInsert(
    gardenerId: string,
    name: string,
    locationDescription: Option<string>,
    locationLat: Option<int>,
    locationLng: Option<int>,
    boundary: Option<string>,
    hardinessZone: Option<string>,
    timezone: string)

  /** What submitting the form does. */
  datatype Outcome =
    | NameRequired
    | RedirectToLogin
    | ProfileNotFound
    | Insert(row: SiteInsert)

  /** A JavaScript `s || null` on a string: the empty string becomes `null`. */
  function OrNull(s: string): (r: Option<string>)
    ensures r.None? <==> s == ""
    ensures r.Some? ==> r.value == s
  {
    if s == "" then None else Some(s)
  }

  /**
   * The row built from the form: trimmed name and description (an empty
   * description stored as `null`), the reference point as chosen, the
   * boundary as WKT (or `null` below three points), an empty zone stored as
   * `null`.
   */
  function Payload(gardenerId: string, name: string, description: string, lat: Option<int>, lng: Option<int>,
                   boundary: seq<Coordinate>, zone: string, timezone: string): (r: SiteInsert)
    ensures r.gardenerId == gardenerId && r.timezone == timezone
    ensures r.name == Trim(name)
    ensures r.locationDescription.None? <==> Trim(description) == ""
    ensures r.locationDescription.Some? ==> r.locationDescription.value == Trim(description)
    ensures r.locationLat == lat && r.locationLng == lng
    ensures r.boundary.None? <==> |boundary| < 3
    ensures r.boundary == EncodeBoundary(boundary)
    ensures r.hardinessZone.None? <==> zone == ""
    ensures zone != "" ==> r.hardinessZone == Some(zone)
  {
    SiteInsert(gardenerId, Trim(name), OrNull(Trim(description)), lat, lng, EncodeBoundary(boundary), OrNull(zone), timezone)
  }

  /** The part of a saved row that a garden picker later reads back. */
  function Stored(row: SiteInsert): SiteRow {
    SiteRow(row.boundary, row.locationLat, row.locationLng)
  }

  /**
   * A site saved with a boundary of three or more points is later shown, in
   * a garden picker without an initial location, with those very points as
   * its outline, framed on their centroid at zoom 17.
   */
  lemma SavedSiteReloads(gardenerId: string, name: string, description: string, lat: Option<int>, lng: Option<int>,
                         boundary: seq<Coordinate>, zone: string, timezone: string)
    requires |boundary| >= 3
    ensures var row := Payload(gardenerId, name, description, lat, lng, boundary, zone, timezone);
      SiteFraming(None, Some(Stored(row))) == SiteLoad(Some(LiftAll(boundary)), Some(View(Centroid(LiftAll(boundary)), BoundaryZoom)))
  {
    SavedBoundaryFraming(boundary, lat, lng);
  }

  class AddSiteForm {
    var name: string
    var locationDescription: string
    var latitude: Option<int>
    var longitude: Option<int>
    var boundary: seq<Coordinate>
    var hardinessZone: string
    var timezone: string
    var autoDetectedZone: Option<string>

    /** An empty form: no point, no boundary, no zone, New York time. */
    constructor()
      ensures name == "" && locationDescription == "" && hardinessZone == ""
      ensures latitude.None? && longitude.None? && boundary == [] && autoDetectedZone.None?
      ensures timezone == "America/New_York"
    {
      name := "";
      locationDescription := "";
      latitude := None;
      longitude := None;
      boundary := [];
      hardinessZone := "";
      timezone := "America/New_York";
      autoDetectedZone := None;
    }

    /**
     * `handleLocationChange`: the point is stored; `detected` is the zone the
     * lookup returned (`None` when it failed or returned nothing). A truthy
     * zone is always remembered as detected but fills the zone field only
     * when that field is still empty.
     */
    method LocationChange(c: Coordinate, detected: Option<string>)
      modifies this
      ensures latitude == Some(c.latitude) && longitude == Some(c.longitude)
      ensures TruthyText(detected) ==> autoDetectedZone == detected
      ensures !TruthyText(detected) ==> autoDetectedZone == old(autoDetectedZone)
      ensures hardinessZone == (if old(hardinessZone) == "" && TruthyText(detected) then detected.value else old(hardinessZone))
      ensures name == old(name) && locationDescription == old(locationDescription) && boundary == old(boundary)
      ensures timezone == old(timezone)
    {
      latitude := Some(c.latitude);
      longitude := Some(c.longitude);
      if detected.Some? && detected.value != "" {
        autoDetectedZone := detected;
        if hardinessZone == "" {
          hardinessZone := detected.value;
        }
      }
    }

    /** `handleBoundaryChange`: the form keeps whatever boundary the picker reports. */
    method BoundaryChange(polygon: seq<Coordinate>)
      modifies this
      ensures boundary == polygon
      ensures name == old(name) && locationDescription == old(locationDescription)
      ensures latitude == old(latitude) && longitude == old(longitude)
      ensures hardinessZone == old(hardinessZone) && autoDetectedZone == old(autoDetectedZone) && timezone == old(timezone)
    {
      boundary := polygon;
    }

    /**
     * `handleCreate`: a name that is blank after trimming stops everything;
     * then a signed-out user is sent to the login screen and a user without a
     * gardener profile is told so; otherwise the row is inserted.
     */
    method Create(account: Account) returns (outcome: Outcome)
      ensures outcome.NameRequired? <==> Trim(name) == ""
      ensures outcome.RedirectToLogin? <==> Trim(name) != "" && account.SignedOut?
      ensures outcome.ProfileNotFound? <==> Trim(name) != "" && account.NoProfile?
      ensures outcome.Insert? <==> Trim(name) != "" && account.Gardener?
      ensures outcome.Insert? ==> outcome.row.name != "" && outcome.row.gardenerId == account.id
      ensures outcome.Insert? ==>
        outcome.row == Payload(account.id, name, locationDescription, latitude, longitude, boundary, hardinessZone, timezone)
    {
      if Trim(name) == "" {
        return NameRequired;
      }
      match account
      case SignedOut =>
        outcome := RedirectToLogin;
      case NoProfile =>
        outcome := ProfileNotFound;
      case Gardener(id) =>
        outcome := Insert(Payload(id, name, locationDescription, latitude, longitude, boundary, hardinessZone, timezone));
    }
  }
}
