/**
 * The boundary codec: a drawn boundary becomes WKT text when a site is saved
 * (app/sites/add.tsx), and stored WKT text becomes points again when a garden
 * picker loads its site (components/map/GardenLocationPicker.web.tsx).
 */
module Wkt {
  import opened Wrappers
  import opened JsText
  import opened JsNumber
  import opened Geo

  /** The characters of one written pair. */
  predicate IsPairChar(c: char) {
    IsNumberChar(c) || c == ' '
  }

  /** One ring entry: the longitude, one space, the latitude. */
  function PairText(c: Coordinate): (r: string)
    ensures |r| >= 1
    ensures forall i :: 0 <= i < |r| ==> IsPairChar(r[i])
  {
    var lng := FormatMicro(c.longitude);
    var lat := FormatMicro(c.latitude);
    assert forall i :: 0 <= i < |lng| ==> IsPairChar(lng[i]);
    assert forall i :: 0 <= i < |lat| ==> IsPairChar(lat[i]);
    lng + " " + lat
  }

  function PairTexts(b: seq<Coordinate>): (r: seq<string>)
    ensures |r| == |b|
    ensures forall k :: 0 <= k < |b| ==> r[k] == PairText(b[k])
  {
    seq(|b|, k requires 0 <= k < |b| => PairText(b[k]))
  }

  /**
   * The WKT of a boundary, or nothing when it has fewer than three points:
   * every pair in drawing order, joined by commas with no space, and the first
   * pair once more to close the ring.
   */
  function EncodeBoundary(b: seq<Coordinate>): (r: Option<string>)
    ensures r.None? <==> |b| < 3
  {
    if |b| < 3 then None
    else Some("POLYGON((" + Join(PairTexts(b), ',') + "," + PairText(b[0]) + "))")
  }

  /** A line terminator lies between positions `k` and `j`. */
  predicate BrokenBefore(s: string, k: nat, j: nat)
    requires j <= |s|
  {
    exists m :: k <= m < j && IsLineTerminator(s[m])
  }

  /**
   * The lazy part of `/\(\((.*?)\)\)/` from position `k`: the first `))` at
   * or after `k`, provided no line terminator comes before it.
   */
  function FindClose(s: string, k: nat): (r: Option<nat>)
    decreases |s| - k
    ensures r.Some? ==> k <= r.value && r.value + 1 < |s| && s[r.value] == ')' && s[r.value + 1] == ')'
    ensures r.Some? ==> forall m :: k <= m < r.value ==> !IsLineTerminator(s[m]) && !(s[m] == ')' && s[m + 1] == ')')
    ensures r.None? ==> forall j :: k <= j && j + 1 < |s| && s[j] == ')' && s[j + 1] == ')' ==> BrokenBefore(s, k, j)
  {
    if k + 1 >= |s| then None
    else if s[k] == ')' && s[k + 1] == ')' then Some(k)
    else if IsLineTerminator(s[k]) then None
    else FindClose(s, k + 1)
  }

  /** The regular expression tried at every start position from `i` on. */
  function MatchFrom(s: string, i: nat): Option<string>
    decreases |s| - i
  {
    if i + 1 >= |s| then None
    else if s[i] == '(' && s[i + 1] == '(' && FindClose(s, i + 2).Some? then Some(s[i + 2..FindClose(s, i + 2).value])
    else MatchFrom(s, i + 1)
  }

  /** `wkt.match(/\(\((.*?)\)\)/)?.[1]`: the text between the first `((` and the next `))`. */
  function MatchBody(wkt: string): (r: Option<string>)
    ensures r.None? <==>
      forall j :: 0 <= j && j + 1 < |wkt| && wkt[j] == '(' && wkt[j + 1] == '(' ==> FindClose(wkt, j + 2).None?
    ensures r.Some? ==> forall m :: 0 <= m < |r.value| ==> !IsLineTerminator(r.value[m])
    ensures r.Some? ==> forall m :: 0 <= m < |r.value| - 1 ==> !(r.value[m] == ')' && r.value[m + 1] == ')')
  {
    MatchFromFacts(wkt, 0);
    MatchFrom(wkt, 0)
  }

  /** No match from `i` means no `((` from `i` on has a `))` after it; a match holds no line break and no `))`. */
  lemma {:induction false} MatchFromFacts(s: string, i: nat)
    ensures MatchFrom(s, i).None? <==>
      forall j :: i <= j && j + 1 < |s| && s[j] == '(' && s[j + 1] == '(' ==> FindClose(s, j + 2).None?
    ensures MatchFrom(s, i).Some? ==> forall m :: 0 <= m < |MatchFrom(s, i).value| ==> !IsLineTerminator(MatchFrom(s, i).value[m])
    ensures MatchFrom(s, i).Some? ==>
      forall m :: 0 <= m < |MatchFrom(s, i).value| - 1 ==> !(MatchFrom(s, i).value[m] == ')' && MatchFrom(s, i).value[m + 1] == ')')
    decreases |s| - i
  {
    if i + 1 < |s| {
      if s[i] == '(' && s[i + 1] == '(' && FindClose(s, i + 2).Some? {
        var c := FindClose(s, i + 2).value;
        var body := s[i + 2..c];
        forall m | 0 <= m < |body|
          ensures !IsLineTerminator(body[m]) && (m < |body| - 1 ==> !(body[m] == ')' && body[m + 1] == ')'))
        {
          assert body[m] == s[i + 2 + m];
          assert m < |body| - 1 ==> body[m + 1] == s[i + 2 + m + 1];
        }
      } else {
        MatchFromFacts(s, i + 1);
      }
    }
  }

  /** `const [lng, lat] = pair.trim().split(' ').map(Number)`, stored latitude first. */
  function ParsePair(pair: string): (p: DecodedPoint)
    ensures p.longitude != Undefined
    ensures p.latitude == Undefined <==> ' ' !in Trim(pair)
    ensures Trim(pair) == "" ==> p.longitude == Finite(0.0)
  {
    var fields := Split(Trim(pair), ' ');
    DecodedPoint(if |fields| > 1 then ToNumber(fields[1]) else Undefined, ToNumber(fields[0]))
  }

  /**
   * Every comma-separated pair of the body, parsed, with the last one dropped
   * whenever there is more than one, whatever it holds.
   */
  function DecodePairs(body: string): (r: seq<DecodedPoint>)
    ensures |r| == (if |Split(body, ',')| > 1 then |Split(body, ',')| - 1 else 1)
    ensures forall k :: 0 <= k < |r| ==> r[k] == ParsePair(Split(body, ',')[k])
  {
    var pairs := Split(body, ',');
    var coords := seq(|pairs|, k requires 0 <= k < |pairs| => ParsePair(pairs[k]));
    if |coords| > 1 then coords[..|coords| - 1] else coords
  }

  /** The site boundary read from stored text, or nothing when there is no non-empty `((...))` body. */
  function DecodeBoundary(wkt: string): (r: Option<seq<DecodedPoint>>)
    ensures r.Some? ==> |r.value| >= 1
  {
    match MatchBody(wkt)
    case None => None
    case Some(body) => if body == "" then None else Some(DecodePairs(body))
  }

  /** No `((` starts inside `p`, even when `p` is followed by `(`. */
  predicate NoOpeningPair(p: string) {
    forall i :: 0 <= i < |p| && p[i] == '(' ==> i + 1 < |p| && p[i + 1] != '('
  }

  lemma {:induction false} FindCloseScan(s: string, k: nat, j: nat)
    requires k <= j && j + 1 < |s| && s[j] == ')' && s[j + 1] == ')'
    requires forall m :: k <= m < j ==> s[m] != ')' && !IsLineTerminator(s[m])
    ensures FindClose(s, k) == Some(j)
    decreases j - k
  {
    if k < j {
      FindCloseScan(s, k + 1, j);
    }
  }

  lemma {:induction false} MatchSkip(s: string, p: nat, i: nat)
    requires i <= p < |s|
    requires NoOpeningPair(s[..p])
    ensures MatchFrom(s, i) == MatchFrom(s, p)
    decreases p - i
  {
    if i < p {
      assert s[i] == s[..p][i];
      assert s[i] == '(' ==> i + 1 < p && s[i + 1] == s[..p][i + 1];
      MatchSkip(s, p, i + 1);
    }
  }

  /**
   * Decoding reads only what lies between the first `((` and the next `))`:
   * the text around it, the `POLYGON` keyword included, is never looked at.
   * The body is required to hold no `)` and no line break at all; the lazy
   * pattern would also accept a body with single `)`s that neither contains
   * `))` nor ends in `)`, but the encoder's ring bodies never hold one, and
   * that is all the round trip needs.
   */
  lemma {:induction false} DecodeSurrounded(prefix: string, body: string, suffix: string)
    requires NoOpeningPair(prefix)
    requires forall i :: 0 <= i < |body| ==> body[i] != ')' && !IsLineTerminator(body[i])
    ensures MatchBody(prefix + "((" + body + "))" + suffix) == Some(body)
    ensures DecodeBoundary(prefix + "((" + body + "))" + suffix) == if body == "" then None else Some(DecodePairs(body))
  {
    var s := prefix + "((" + body + "))" + suffix;
    var p, j := |prefix|, |prefix| + 2 + |body|;
    assert s[..p] == prefix;
    MatchSkip(s, p, 0);
    assert s[p] == '(' && s[p + 1] == '(';
    assert s[j] == ')' && s[j + 1] == ')';
    forall m | p + 2 <= m < j
      ensures s[m] != ')' && !IsLineTerminator(s[m])
    {
      assert s[m] == body[m - p - 2];
    }
    FindCloseScan(s, p + 2, j);
    assert s[p + 2..j] == body;
  }

  lemma NoSpaceInNumber(micro: int)
    ensures ' ' !in FormatMicro(micro)
  {
    var t := FormatMicro(micro);
    assert forall i | 0 <= i < |t| :: t[i] != ' ';
  }

  lemma {:induction false} PairFields(c: Coordinate)
    ensures Split(PairText(c), ' ') == [FormatMicro(c.longitude), FormatMicro(c.latitude)]
  {
    var lng := FormatMicro(c.longitude);
    var lat := FormatMicro(c.latitude);
    NoSpaceInNumber(c.longitude);
    NoSpaceInNumber(c.latitude);
    assert PairText(c) == Join([lng, lat], ' ');
    SplitJoin([lng, lat], ' ');
  }

  lemma {:induction false} PairTrimmed(c: Coordinate)
    ensures Trim(PairText(c)) == PairText(c)
  {
    var lng := FormatMicro(c.longitude);
    var lat := FormatMicro(c.latitude);
    var t := PairText(c);
    assert t[0] == lng[0] && t[|t| - 1] == lat[|lat| - 1];
    assert !IsWhitespace(t[0]) && !IsWhitespace(t[|t| - 1]);
  }

  /** A written pair is read back as the coordinate it was written from, longitude first. */
  lemma {:induction false} PairRoundTrip(c: Coordinate)
    ensures Trim(PairText(c)) == PairText(c)
    ensures Split(PairText(c), ' ') == [FormatMicro(c.longitude), FormatMicro(c.latitude)]
    ensures ParsePair(PairText(c)) == Lift(c)
  {
    PairTrimmed(c);
    PairFields(c);
    ParseFormat(c.longitude);
    ParseFormat(c.latitude);
  }

  /** The ring text of a boundary: all pairs, then the first again. */
  function Ring(b: seq<Coordinate>): (r: seq<string>)
    requires |b| >= 1
    ensures |r| == |b| + 1
  {
    PairTexts(b) + [PairText(b[0])]
  }

  /** The text between `POLYGON((` and `))` for a boundary. */
  function RingBodyOf(b: seq<Coordinate>): string
    requires |b| >= 1
  {
    Join(Ring(b), ',')
  }

  /** Every character of `t` may appear in a written pair. */
  predicate PairChars(t: string) {
    forall i :: 0 <= i < |t| ==> IsPairChar(t[i])
  }

  lemma RingPieces(b: seq<Coordinate>)
    requires |b| >= 1
    ensures forall k :: 0 <= k < |Ring(b)| ==> PairChars(Ring(b)[k])
  {
    forall k | 0 <= k < |Ring(b)|
      ensures PairChars(Ring(b)[k])
    {
      assert Ring(b)[k] == PairText(if k < |b| then b[k] else b[0]);
    }
  }

  lemma {:induction false} NoCommaInRing(b: seq<Coordinate>)
    requires |b| >= 1
    ensures forall k :: 0 <= k < |Ring(b)| ==> ',' !in Ring(b)[k]
  {
    RingPieces(b);
    forall k | 0 <= k < |Ring(b)|
      ensures ',' !in Ring(b)[k]
    {
      var t := Ring(b)[k];
      assert forall i | 0 <= i < |t| :: t[i] != ',';
    }
  }

  lemma {:induction false} RingBodyChars(b: seq<Coordinate>)
    requires |b| >= 1
    ensures forall i :: 0 <= i < |RingBodyOf(b)| ==> RingBodyOf(b)[i] != ')' && !IsLineTerminator(RingBodyOf(b)[i])
  {
    var ok := (c: char) => c == ',' || IsPairChar(c);
    var ring := Ring(b);
    RingPieces(b);
    forall k | 0 <= k < |ring|
      ensures forall i :: 0 <= i < |ring[k]| ==> ok(ring[k][i])
    {
      assert PairChars(ring[k]);
    }
    JoinWithin(ring, ',', ok);
  }

  lemma {:induction false} RingBody(b: seq<Coordinate>)
    requires |b| >= 3
    ensures EncodeBoundary(b) == Some("POLYGON((" + RingBodyOf(b) + "))")
    ensures |RingBodyOf(b)| >= 1
    ensures forall i :: 0 <= i < |RingBodyOf(b)| ==> RingBodyOf(b)[i] != ')' && !IsLineTerminator(RingBodyOf(b)[i])
    ensures Split(RingBodyOf(b), ',') == Ring(b)
  {
    EncodedText(b);
    RingBodyChars(b);
    NoCommaInRing(b);
    SplitJoin(Ring(b), ',');
  }

  /** The encoder's text is the ring body between `POLYGON((` and `))`. */
  lemma EncodedText(b: seq<Coordinate>)
    requires |b| >= 3
    ensures EncodeBoundary(b) == Some("POLYGON((" + RingBodyOf(b) + "))")
  {
    var j := Join(PairTexts(b), ',');
    var last := PairText(b[0]);
    JoinSnoc(PairTexts(b), last, ',');
    Regroup("POLYGON((", j, last);
  }

  lemma Regroup(p: string, j: string, last: string)
    ensures p + (j + [','] + last) + "))" == p + j + "," + last + "))"
  {
  }

  /**
   * An encoded boundary starts with `POLYGON((`, and its `((...))` body is the
   * ring text, which splits at the commas into the ring's pairs.
   */
  lemma {:induction false} EncodedRing(b: seq<Coordinate>)
    requires |b| >= 3
    ensures EncodeBoundary(b).Some? && StartsWith(EncodeBoundary(b).value, "POLYGON((")
    ensures MatchBody(EncodeBoundary(b).value) == Some(RingBodyOf(b))
    ensures DecodeBoundary(EncodeBoundary(b).value) == Some(DecodePairs(RingBodyOf(b)))
    ensures Split(RingBodyOf(b), ',') == Ring(b)
  {
    RingBody(b);
    var body := RingBodyOf(b);
    DecodeSurrounded("POLYGON", body, "");
    PolygonPrefix(body);
  }

  /** The encoder's text seen as keyword, `((`, body, `))` and an empty tail, the shape `DecodeSurrounded` reads. */
  lemma PolygonPrefix(body: string)
    ensures "POLYGON((" + body + "))" == "POLYGON" + "((" + body + "))" + ""
    ensures StartsWith("POLYGON((" + body + "))", "POLYGON((")
  {
    assert ("POLYGON((" + body + "))")[..9] == "POLYGON((";
  }

  /**
   * The ring of n points has n + 1 pairs; its last pair repeats the first and
   * none of its pairs has white space around it.
   */
  lemma {:induction false} RingShape(b: seq<Coordinate>)
    requires |b| >= 1
    ensures Ring(b)[0] == Ring(b)[|b|]
    ensures forall k :: 0 <= k < |b| ==> Ring(b)[k] == PairText(b[k])
    ensures forall k :: 0 <= k <= |b| ==> Trim(Ring(b)[k]) == Ring(b)[k]
  {
    forall k | 0 <= k <= |b|
      ensures Trim(Ring(b)[k]) == Ring(b)[k]
    {
      var c := if k < |b| then b[k] else b[0];
      assert Ring(b)[k] == PairText(c);
      PairTrimmed(c);
    }
  }

  /** Parsing the ring text gives back every point of the boundary, the closing pair dropped. */
  lemma {:induction false} RingDecodes(b: seq<Coordinate>)
    requires |b| >= 3
    ensures DecodePairs(RingBodyOf(b)) == LiftAll(b)
  {
    RingBody(b);
    var r := DecodePairs(RingBodyOf(b));
    assert |r| == |b|;
    forall k | 0 <= k < |b|
      ensures r[k] == LiftAll(b)[k]
    {
      assert Ring(b)[k] == PairText(b[k]);
      PairRoundTrip(b[k]);
    }
  }

  /** Decoding the text of a boundary of three or more points gives back the same points in the same order. */
  lemma {:induction false} RoundTrip(b: seq<Coordinate>)
    requires |b| >= 3
    ensures DecodeBoundary(EncodeBoundary(b).value) == Some(LiftAll(b))
  {
    EncodedRing(b);
    RingDecodes(b);
  }
}
