/**
 * The boundary-drawing session the three map pickers share
 * (components/map/SiteLocationPicker.tsx, components/map/SiteLocationPicker.web.tsx,
 * components/map/GardenLocationPicker.web.tsx): the points drawn so far and
 * whether map presses add points. Every change of the points is reported to
 * the parent form through `onBoundaryChange`.
 */
module Session {
  import opened Wrappers
  import opened Geo
  import opened Wkt

  datatype SessionState = SessionState(boundary: seq<Coordinate>, isDrawing: bool)

  /** The state after a handler, and the boundary it passed to `onBoundaryChange`, if it called it. */
  datatype Step = Step(next: SessionState, report: Option<seq<Coordinate>>)

  /**
   * `toggleDrawing`: finishes drawing only when drawing with at least one
   * point; otherwise (re)starts drawing, keeping the points, and re-reports
   * an empty boundary when there are none.
   */
  function Toggled(s: SessionState): (r: Step)
    ensures r.next.boundary == s.boundary
    ensures !r.next.isDrawing <==> s.isDrawing && s.boundary != []
    ensures r.report.Some? <==> s.boundary == []
    ensures r.report.Some? ==> r.report.value == []
  {
    if s.isDrawing && |s.boundary| > 0 then Step(SessionState(s.boundary, false), None)
    else if |s.boundary| == 0 then Step(SessionState([], true), Some([]))
    else Step(SessionState(s.boundary, true), None)
  }

  /** A press or click on the map: ignored unless drawing, otherwise the point is appended. */
  function Pressed(s: SessionState, c: Coordinate): (r: Step)
    ensures r.next.isDrawing == s.isDrawing
    ensures s.isDrawing ==> |r.next.boundary| == |s.boundary| + 1 && r.next.boundary[..|s.boundary|] == s.boundary
    ensures s.isDrawing ==> r.next.boundary[|s.boundary|] == c && r.report == Some(r.next.boundary)
    ensures !s.isDrawing ==> r == Step(s, None)
  {
    if !s.isDrawing then Step(s, None)
    else
      var b := s.boundary + [c];
      Step(SessionState(b, true), Some(b))
  }

  /** Dragging marker `index` to `c`, in or out of drawing mode. */
  function Dragged(s: SessionState, index: nat, c: Coordinate): (r: Step)
    requires index < |s.boundary|
    ensures r.next.isDrawing == s.isDrawing
    ensures |r.next.boundary| == |s.boundary| && r.next.boundary[index] == c
    ensures forall k :: 0 <= k < |s.boundary| && k != index ==> r.next.boundary[k] == s.boundary[k]
    ensures r.report == Some(r.next.boundary)
  {
    var b := s.boundary[index := c];
    Step(SessionState(b, s.isDrawing), Some(b))
  }

  /** `clearBoundary`: no points, not drawing, and the empty boundary reported. */
  function Cleared(s: SessionState): (r: Step)
    ensures r.next.boundary == [] && !r.next.isDrawing
    ensures r.report == Some([])
  {
    Step(SessionState([], false), Some([]))
  }

  /** One user action on a picker. */
  datatype Event = Toggle | Press(c: Coordinate) | Drag(index: nat, to: Coordinate) | Clear

  /** A drag names one of the markers shown, one per point. */
  predicate Enabled(s: SessionState, e: Event) {
    e.Drag? ==> e.index < |s.boundary|
  }

  function Apply(s: SessionState, e: Event): Step
    requires Enabled(s, e)
  {
    match e
    case Toggle => Toggled(s)
    case Press(c) => Pressed(s, c)
    case Drag(index, to) => Dragged(s, index, to)
    case Clear => Cleared(s)
  }

  /**
   * The parent form always sees the boundary the picker holds: whenever the
   * points change they are reported, and what is reported is exactly the new
   * boundary.
   */
  lemma ReportsBoundary(s: SessionState, e: Event)
    requires Enabled(s, e)
    ensures Apply(s, e).report.Some? ==> Apply(s, e).report.value == Apply(s, e).next.boundary
    ensures Apply(s, e).next.boundary != s.boundary ==> Apply(s, e).report == Some(Apply(s, e).next.boundary)
  {
  }

  /** Only clearing removes points, and no action adds more than one. */
  lemma PointsOnlyGrow(s: SessionState, e: Event)
    requires Enabled(s, e)
    ensures !e.Clear? ==> |s.boundary| <= |Apply(s, e).next.boundary| <= |s.boundary| + 1
    ensures !e.Clear? ==> Apply(s, e).next.boundary[..|s.boundary|] == s.boundary || e.Drag?
  {
  }

  /** The points after pressing each of `ps` in turn. */
  function PressAll(s: SessionState, ps: seq<Coordinate>): SessionState
    decreases |ps|
  {
    if ps == [] then s else PressAll(Pressed(s, ps[0]).next, ps[1..])
  }

  /** While drawing, pressing a sequence of points appends them in order. */
  lemma {:induction false} PressAllAppends(b: seq<Coordinate>, ps: seq<Coordinate>)
    ensures PressAll(SessionState(b, true), ps) == SessionState(b + ps, true)
    decreases |ps|
  {
    if ps != [] {
      PressAllAppends(b + [ps[0]], ps[1..]);
      assert b + [ps[0]] + ps[1..] == b + ps;
    }
  }

  /** Out of drawing mode, presses change nothing. */
  lemma {:induction false} PressAllIgnored(s: SessionState, ps: seq<Coordinate>)
    requires !s.isDrawing
    ensures PressAll(s, ps) == s
    decreases |ps|
  {
    if ps != [] {
      PressAllIgnored(s, ps[1..]);
    }
  }

  /**
   * Drawing from scratch: start drawing, press the points, finish. The
   * session ends out of drawing mode holding exactly the pressed points in
   * press order, which the site form saves as a closed ring of one more pair
   * once there are three of them.
   */
  lemma DrawFromScratch(ps: seq<Coordinate>)
    requires |ps| >= 1
    ensures Toggled(PressAll(Toggled(SessionState([], false)).next, ps)).next == SessionState(ps, false)
    ensures |ps| >= 3 ==> EncodeBoundary(PressAll(Toggled(SessionState([], false)).next, ps).boundary).Some?
  {
    PressAllAppends([], ps);
    assert [] + ps == ps;
  }

  /** Toggling out of drawing mode and back again resumes with every point kept. */
  lemma ResumeKeepsPoints(s: SessionState)
    requires s.isDrawing && s.boundary != []
    ensures Toggled(Toggled(s).next) == Step(s, None)
  {
  }

  /**
   * The session of one picker. `boundary` and `isDrawing` are the component
   * state; each handler replaces them and returns what it passed to
   * `onBoundaryChange`.
   */
  class BoundarySession {
    var boundary: seq<Coordinate>
    var isDrawing: bool

    function State(): SessionState
      reads this
    {
      SessionState(boundary, isDrawing)
    }

    /** A picker opens with its initial boundary, not drawing. */
    constructor(initialBoundary: seq<Coordinate>)
      ensures State() == SessionState(initialBoundary, false)
    {
      boundary := initialBoundary;
      isDrawing := false;
    }

    method ToggleDrawing() returns (report: Option<seq<Coordinate>>)
      modifies this
      ensures Step(State(), report) == Toggled(old(State()))
    {
      report := None;
      if isDrawing && |boundary| > 0 {
        isDrawing := false;
      } else {
        isDrawing := true;
        if |boundary| == 0 {
          boundary := [];
          report := Some([]);
        }
      }
    }

    method MapPress(c: Coordinate) returns (report: Option<seq<Coordinate>>)
      modifies this
      ensures Step(State(), report) == Pressed(old(State()), c)
    {
      if !isDrawing {
        return None;
      }
      var newBoundary := boundary + [c];
      boundary := newBoundary;
      report := Some(newBoundary);
    }

    /** The handler copies the points, overwrites the dragged one in the copy, and stores the copy. */
    method MarkerDrag(index: nat, c: Coordinate) returns (report: Option<seq<Coordinate>>)
      requires index < |boundary|
      modifies this
      ensures Step(State(), report) == Dragged(old(State()), index, c)
    {
      var b := boundary;
      var newBoundary := new Coordinate[|b|](i requires 0 <= i < |b| => b[i]);
      newBoundary[index] := c;
      boundary := newBoundary[..];
      report := Some(boundary);
    }

    method ClearBoundary() returns (report: Option<seq<Coordinate>>)
      modifies this
      ensures Step(State(), report) == Cleared(old(State()))
    {
      boundary := [];
      isDrawing := false;
      report := Some([]);
    }
  }
}
