/**
 * The web site picker (components/map/SiteLocationPicker.web.tsx): the same
 * drawing session on a browser map whose centre and zoom are component
 * state, a location taken from the browser position or a chosen address,
 * and the message shown when the browser cannot give a position.
 */
module WebSitePicker {
  import opened Wrappers
  import opened JsText
  import opened Geo
  import opened Session
  import opened Framing

  /** `GeolocationPositionError` codes. */
  const PermissionDenied := 1
  const PositionUnavailable := 2
  const Timeout := 3

  const FailurePrefix := "Failed to get your current location.\n\n"
  /** The five lines of help for a refused permission, each appended on its own. */
  const AllowLine := "Please allow location access in your browser settings.\n\n"
  const BrowserLine := "On iOS Chrome:\n"
  const StepOne := "1. Tap the \"AA\" or lock icon in the address bar\n"
  const StepTwo := "2. Tap \"Website Settings\"\n"
  const StepThree := "3. Change Location to \"Allow\""
  const PermissionHelp := AllowLine + BrowserLine + StepOne + StepTwo + StepThree
  const UnavailableText := "Location information is unavailable."
  const TimeoutText := "The request to get your location timed out."
  const UnknownText := "An unknown error occurred."

  /** The explanation chosen by the error code: one of four texts, each for its own codes. */
  function ErrorDetail(code: int): (r: string)
    ensures r == PermissionHelp || r == UnavailableText || r == TimeoutText || r == UnknownText
    ensures r == PermissionHelp <==> code == PermissionDenied
    ensures r == UnavailableText <==> code == PositionUnavailable
    ensures r == TimeoutText <==> code == Timeout
    ensures r == UnknownText <==> code !in {PermissionDenied, PositionUnavailable, Timeout}
  {
    assert |UnknownText| < |UnavailableText| < |TimeoutText| < |PermissionHelp|;
    if code == PermissionDenied then PermissionHelp
    else if code == PositionUnavailable then UnavailableText
    else if code == Timeout then TimeoutText
    else UnknownText
  }

  /** The alert text, built the way the error callback builds it: the prefix, then one `+=` per line. */
  method GeolocationErrorMessage(code: int) returns (message: string)
    ensures message == FailurePrefix + ErrorDetail(code)
    ensures StartsWith(message, FailurePrefix)
  {
    message := FailurePrefix;
    if code == PermissionDenied {
      message := message + AllowLine;
      message := message + BrowserLine;
      message := message + StepOne;
      message := message + StepTwo;
      message := message + StepThree;
      AppendLines(FailurePrefix, AllowLine, BrowserLine, StepOne, StepTwo, StepThree);
    } else if code == PositionUnavailable {
      message := message + UnavailableText;
    } else if code == Timeout {
      message := message + TimeoutText;
    } else {
      message := message + UnknownText;
    }
    PrefixStarts(FailurePrefix, ErrorDetail(code));
  }

  lemma AppendLines(p: string, a: string, b: string, c: string, d: string, e: string)
    ensures p + a + b + c + d + e == p + (a + b + c + d + e)
  {
  }

  lemma PrefixStarts(p: string, d: string)
    ensures StartsWith(p + d, p)
  {
    assert (p + d)[..|p|] == p;
  }

  /** Different error codes that are not both unknown give different messages. */
  lemma MessagesDistinguishCodes(code1: int, code2: int)
    requires code1 != code2 && (code1 in {PermissionDenied, PositionUnavailable, Timeout} || code2 in {PermissionDenied, PositionUnavailable, Timeout})
    ensures FailurePrefix + ErrorDetail(code1) != FailurePrefix + ErrorDetail(code2)
  {
  }

  class SitePicker {
    const session: BoundarySession
    var location: Option<Coordinate>
    var mapCenter: MapCenter
    var mapZoom: int

    function View(): View
      reads this
    {
      Framing.View(mapCenter, mapZoom)
    }

    /** The picker opens on its initial location at zoom 18, or on the whole country at zoom 4. */
    constructor(initialLocation: Option<Coordinate>, initialBoundary: seq<Coordinate>)
      ensures fresh(session)
      ensures location == initialLocation
      ensures View() == InitialView(initialLocation)
      ensures session.State() == SessionState(initialBoundary, false)
    {
      session := new BoundarySession(initialBoundary);
      location := initialLocation;
      if initialLocation.Some? {
        mapCenter := PointCenter(initialLocation.value);
        mapZoom := PointZoom;
      } else {
        mapCenter := UsCenter;
        mapZoom := UsZoom;
      }
    }

    /**
     * The browser reported position `c`: the location and the map centre
     * become `c`, the zoom 18, and `c` is reported to `onLocationChange`.
     * The boundary is untouched.
     */
    method LocateSucceeded(c: Coordinate) returns (reported: Coordinate)
      modifies this
      ensures location == Some(c) && reported == c
      ensures View() == Framing.View(PointCenter(c), PointZoom)
      ensures session.State() == old(session.State())
    {
      location := Some(c);
      mapCenter := PointCenter(c);
      mapZoom := PointZoom;
      reported := c;
    }

    /** An address was chosen: the same as a position at its coordinate; the address text itself is not kept. */
    method SelectAddress(address: string, c: Coordinate) returns (reported: Coordinate)
      modifies this
      ensures location == Some(c) && reported == c
      ensures View() == Framing.View(PointCenter(c), PointZoom)
      ensures session.State() == old(session.State())
    {
      location := Some(c);
      mapCenter := PointCenter(c);
      mapZoom := PointZoom;
      reported := c;
    }

    method MapClick(c: Coordinate) returns (report: Option<seq<Coordinate>>)
      modifies session
      ensures Step(session.State(), report) == Pressed(old(session.State()), c)
    {
      report := session.MapPress(c);
    }

    method MarkerDrag(index: nat, c: Coordinate) returns (report: Option<seq<Coordinate>>)
      requires index < |session.boundary|
      modifies session
      ensures Step(session.State(), report) == Dragged(old(session.State()), index, c)
    {
      report := session.MarkerDrag(index, c);
    }

    method ToggleDrawing() returns (report: Option<seq<Coordinate>>)
      modifies session
      ensures Step(session.State(), report) == Toggled(old(session.State()))
    {
      report := session.ToggleDrawing();
    }

    method ClearBoundary() returns (report: Option<seq<Coordinate>>)
      modifies session
      ensures Step(session.State(), report) == Cleared(old(session.State()))
    {
      report := session.ClearBoundary();
    }
  }
}
