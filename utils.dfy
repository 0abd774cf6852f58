/**
 * The shared helpers of lib/utils.ts: joining class names, describing how
 * long ago something happened, and counting whole days. The current time is
 * not read here: each helper takes the elapsed milliseconds (now minus then).
 */
module Utils {
  import opened JsText
  import opened JsNumber

  /** An argument of `cn`: a string, `undefined`, `null` or `false`. */
  datatype ClassValue = Str(s: string) | Undefined | Null | False

  /** `Boolean(v)`: only a non-empty string is truthy. */
  predicate Truthy(v: ClassValue) {
    v.Str? && v.s != ""
  }

  /** `classes.filter(Boolean)`, as the strings kept. */
  function Kept(classes: seq<ClassValue>): (r: seq<string>)
    ensures |r| <= |classes|
    ensures forall i :: 0 <= i < |r| ==> r[i] != ""
  {
    if classes == [] then []
    else (if Truthy(classes[0]) then [classes[0].s] else []) + Kept(classes[1..])
  }

  /** `cn(...classes)`: the truthy arguments joined by single spaces. */
  function Cn(classes: seq<ClassValue>): (r: string)
    ensures Kept(classes) == [] ==> r == ""
    ensures Kept(classes) != [] ==> r != "" && StartsWith(r, Kept(classes)[0])
  {
    Join(Kept(classes), ' ')
  }

  /** Filtering keeps each truthy argument, in argument order, and nothing else. */
  lemma {:induction false} KeptAppend(a: seq<ClassValue>, b: seq<ClassValue>)
    ensures Kept(a + b) == Kept(a) + Kept(b)
  {
    if a == [] {
      assert a + b == b;
    } else {
      assert (a + b)[0] == a[0];
      assert (a + b)[1..] == a[1..] + b;
      KeptAppend(a[1..], b);
      var head := if Truthy(a[0]) then [a[0].s] else [];
      assert Kept(a + b) == head + Kept(a[1..] + b);
      assert Kept(a) == head + Kept(a[1..]);
      assert head + (Kept(a[1..]) + Kept(b)) == (head + Kept(a[1..])) + Kept(b);
    }
  }

  lemma {:induction false} KeptNone(classes: seq<ClassValue>)
    ensures Kept(classes) == [] <==> forall i :: 0 <= i < |classes| ==> !Truthy(classes[i])
  {
    if classes != [] {
      KeptNone(classes[1..]);
      assert forall i :: 1 <= i < |classes| ==> classes[i] == classes[1..][i - 1];
    }
  }

  /** `cn` is empty exactly when no argument is truthy. */
  lemma CnEmpty(classes: seq<ClassValue>)
    ensures Cn(classes) == "" <==> forall i :: 0 <= i < |classes| ==> !Truthy(classes[i])
  {
    KeptNone(classes);
    var kept := Kept(classes);
    if kept != [] {
      JoinSplit(Cn(classes), ' ');
      assert |kept| >= 1 && kept[0] != "";
      if |kept| == 1 {
        assert Cn(classes) == kept[0];
      } else {
        JoinSnoc(kept[..|kept| - 1], kept[|kept| - 1], ' ');
        assert kept[..|kept| - 1] + [kept[|kept| - 1]] == kept;
      }
    }
  }

  /**
   * When no class name holds a space, splitting the result of `cn` at the
   * spaces gives back exactly the truthy arguments in order.
   */
  lemma CnSplit(classes: seq<ClassValue>)
    requires Kept(classes) != []
    requires forall i :: 0 <= i < |Kept(classes)| ==> ' ' !in Kept(classes)[i]
    ensures Split(Cn(classes), ' ') == Kept(classes)
  {
    SplitJoin(Kept(classes), ' ');
  }

  /** Adding arguments that are all falsy does not change `cn`. */
  lemma CnIgnoresFalsy(classes: seq<ClassValue>, extra: seq<ClassValue>)
    requires forall i :: 0 <= i < |extra| ==> !Truthy(extra[i])
    ensures Cn(classes + extra) == Cn(classes)
  {
    KeptAppend(classes, extra);
    KeptNone(extra);
    assert Kept(classes) + [] == Kept(classes);
  }

  datatype TimeUnit = Minute | Hour | Day

  function UnitSeconds(u: TimeUnit): nat {
    match u
    case Minute => 60
    case Hour => 3600
    case Day => 86400
  }

  function UnitName(u: TimeUnit): string {
    match u
    case Minute => "minute"
    case Hour => "hour"
    case Day => "day"
  }

  /** Which phrase `formatRelativeTime` chooses. */
  datatype RelativeTime = JustNow | Ago(count: nat, unit: TimeUnit) | OnDate

  /**
   * The bucket for `seconds` elapsed: under a minute (the future included),
   * whole minutes, hours or days below a week, and a calendar date from a
   * week on. The count is the elapsed time rounded down to its unit.
   */
  function Classify(seconds: int): (r: RelativeTime)
    ensures r.JustNow? <==> seconds < 60
    ensures r.OnDate? <==> seconds >= 604800
    ensures r.Ago? ==> 1 <= r.count && r.count * UnitSeconds(r.unit) <= seconds < (r.count + 1) * UnitSeconds(r.unit)
    ensures r.Ago? && r.unit == Minute <==> 60 <= seconds < 3600
    ensures r.Ago? && r.unit == Hour <==> 3600 <= seconds < 86400
    ensures r.Ago? && r.unit == Day <==> 86400 <= seconds < 604800
    ensures r.Ago? && r.unit == Minute ==> r.count <= 59
    ensures r.Ago? && r.unit == Hour ==> r.count <= 23
    ensures r.Ago? && r.unit == Day ==> r.count <= 6
  {
    if seconds < 60 then JustNow
    else if seconds < 3600 then Ago(seconds / 60, Minute)
    else if seconds < 86400 then Ago(seconds / 3600, Hour)
    else if seconds < 604800 then Ago(seconds / 86400, Day)
    else OnDate
  }

  /** The order of the buckets, finest first. */
  function Rank(r: RelativeTime): nat {
    match r
    case JustNow => 0
    case Ago(_, unit) => (match unit case Minute => 1 case Hour => 2 case Day => 3)
    case OnDate => 4
  }

  /** More elapsed time never gives a finer bucket, nor a smaller count in the same one. */
  lemma ClassifyMonotone(s1: int, s2: int)
    requires s1 <= s2
    ensures Rank(Classify(s1)) <= Rank(Classify(s2))
    ensures Classify(s1).Ago? && Classify(s2).Ago? && Classify(s1).unit == Classify(s2).unit ==>
      Classify(s1).count <= Classify(s2).count
  {
  }

  /** The text shown: `"Just now"`, `"<n> <unit>[s] ago"` with the plural only above one, or the date text. */
  function Phrase(r: RelativeTime, localeDate: string): (text: string)
    ensures r.JustNow? ==> text == "Just now"
    ensures r.OnDate? ==> text == localeDate
    ensures r.Ago? ==> StartsWith(text, FormatNat(r.count) + " " + UnitName(r.unit))
    ensures r.Ago? ==> |text| >= 4 && text[|text| - 4..] == " ago"
  {
    match r
    case JustNow => "Just now"
    case Ago(count, unit) => FormatNat(count) + " " + UnitName(unit) + (if count > 1 then "s" else "") + " ago"
    case OnDate => localeDate
  }

  /**
   * `formatRelativeTime`, given the elapsed milliseconds and the text
   * `toLocaleDateString` gives for the date.
   */
  function FormatRelativeTime(elapsedMs: int, localeDate: string): (r: string)
    ensures elapsedMs < 60000 ==> r == "Just now"
    ensures elapsedMs >= 604800000 ==> r == localeDate
    ensures 60000 <= elapsedMs < 604800000 ==> |r| >= 4 && r[|r| - 4..] == " ago"
  {
    Phrase(Classify(elapsedMs / 1000), localeDate)
  }

  /** A plural ending is written exactly when the count is above one. */
  lemma PluralOnlyAboveOne(count: nat, unit: TimeUnit)
    requires count >= 1
    ensures var p := Phrase(Ago(count, unit), "");
      p[|p| - 5] == 's' <==> count > 1
  {
    var p := Phrase(Ago(count, unit), "");
    var n := FormatNat(count);
    if count == 1 {
      assert n == "1";
    }
    assert UnitName(unit)[|UnitName(unit)| - 1] != 's';
  }

  const MsPerDay := 1000 * 60 * 60 * 24

  /** `getDaysSince`: whole days elapsed, rounded down, so negative for a date in the future. */
  function DaysSince(elapsedMs: int): (r: int)
    ensures r * MsPerDay <= elapsedMs < (r + 1) * MsPerDay
  {
    elapsedMs / MsPerDay
  }

  /** Within the first day the count is zero; it is negative exactly for future dates. */
  lemma DaysSinceSign(elapsedMs: int)
    ensures 0 <= elapsedMs < MsPerDay ==> DaysSince(elapsedMs) == 0
    ensures DaysSince(elapsedMs) < 0 <==> elapsedMs < 0
  {
  }

  /** The day count never decreases as more time elapses. */
  lemma DaysSinceMonotone(a: int, b: int)
    requires a <= b
    ensures DaysSince(a) <= DaysSince(b)
  {
  }
}
