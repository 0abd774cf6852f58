/**
 * The string primitives of the JavaScript runtime that the core relies on:
 * `String.prototype.trim`, `split` and `join` with a one-character separator,
 * `startsWith`, and `replace` with a one-character pattern (which replaces the
 * first occurrence only).
 */
module JsText {

  /** The WhiteSpace and LineTerminator code points of ECMAScript: what `trim` removes. */
  predicate IsWhitespace(c: char) {
    c == ' ' || c == '\t' || c == '\n' || c == '\r' || c == '\U{000B}' || c == '\U{000C}'
    || c == '\U{00A0}' || c == '\U{1680}' || ('\U{2000}' <= c <= '\U{200A}')
    || c == '\U{2028}' || c == '\U{2029}' || c == '\U{202F}' || c == '\U{205F}'
    || c == '\U{3000}' || c == '\U{FEFF}'
  }

  /** The characters a regular-expression `.` does not match. */
  predicate IsLineTerminator(c: char) {
    c == '\n' || c == '\r' || c == '\U{2028}' || c == '\U{2029}'
  }

  function TrimStart(s: string): (r: string)
    ensures |r| <= |s| && r == s[|s| - |r|..]
    ensures r == [] || !IsWhitespace(r[0])
    ensures forall i :: 0 <= i < |s| - |r| ==> IsWhitespace(s[i])
  {
    if s != [] && IsWhitespace(s[0]) then TrimStart(s[1..]) else s
  }

  function TrimEnd(s: string): (r: string)
    ensures |r| <= |s| && r == s[..|r|]
    ensures r == [] || !IsWhitespace(r[|r| - 1])
    ensures forall i :: |r| <= i < |s| ==> IsWhitespace(s[i])
  {
    if s != [] && IsWhitespace(s[|s| - 1]) then TrimEnd(s[..|s| - 1]) else s
  }

  /** `s.trim()`: white space removed from both ends, and nothing else. */
  function Trim(s: string): (r: string)
    ensures |r| <= |s|
    ensures r == [] || (!IsWhitespace(r[0]) && !IsWhitespace(r[|r| - 1]))
    ensures (s == [] || (!IsWhitespace(s[0]) && !IsWhitespace(s[|s| - 1]))) ==> r == s
  {
    TrimEnd(TrimStart(s))
  }

  /**
   * What trimming keeps is one slice of `s`: everything before it and after
   * it is white space.
   */
  lemma TrimSlice(s: string)
    ensures var lead := |s| - |TrimStart(s)|;
      lead + |Trim(s)| <= |s| &&
      Trim(s) == s[lead..lead + |Trim(s)|] &&
      (forall i :: 0 <= i < lead ==> IsWhitespace(s[i])) &&
      (forall i :: lead + |Trim(s)| <= i < |s| ==> IsWhitespace(s[i]))
  {
    var a := TrimStart(s);
    var r := Trim(s);
    var lead := |s| - |a|;
    assert r == a[..|r|];
    assert a == s[lead..];
    forall i | lead + |r| <= i < |s|
      ensures IsWhitespace(s[i])
    {
      assert s[i] == a[i - lead];
    }
  }

  /** `parts.join(sep)`. */
  function Join(parts: seq<string>, sep: char): string
  {
    if |parts| == 0 then []
    else if |parts| == 1 then parts[0]
    else parts[0] + [sep] + Join(parts[1..], sep)
  }

  /** `s.split(sep)`: the pieces between occurrences of `sep`; `""` splits into `[""]`. */
  function Split(s: string, sep: char): (r: seq<string>)
    ensures |r| >= 1
    ensures |r| == 1 <==> sep !in s
    ensures forall i :: 0 <= i < |r| ==> sep !in r[i]
  {
    if s == [] then [[]]
    else
      var rest := Split(s[1..], sep);
      if s[0] == sep then [[]] + rest
      else [[s[0]] + rest[0]] + rest[1..]
  }

  /** `s.startsWith(prefix)`. */
  predicate StartsWith(s: string, prefix: string) {
    |prefix| <= |s| && s[..|prefix|] == prefix
  }

  /**
   * `s.replace(from, to)` for one-character strings: only the first occurrence
   * of `from` is replaced, every other character is kept.
   */
  function ReplaceFirst(s: string, from: char, to: char): (r: string)
    ensures |r| == |s|
    ensures from !in s ==> r == s
    ensures forall i :: 0 <= i < |s| && r[i] != s[i] ==> s[i] == from && r[i] == to && from !in s[..i]
    ensures forall i :: 0 <= i < |s| && s[i] == from && from !in s[..i] ==> r[i] == to
  {
    if s == [] then []
    else if s[0] == from then [to] + s[1..]
    else
      ConsPrefix(s, from);
      [s[0]] + ReplaceFirst(s[1..], from, to)
  }

  /** A character occurs in a prefix of `s` when it heads `s` or occurs in the matching prefix of the tail. */
  lemma ConsPrefix(s: string, c: char)
    requires |s| >= 1
    ensures forall i :: 1 <= i <= |s| ==> (c in s[..i] <==> s[0] == c || c in s[1..][..i - 1])
  {
    forall i | 1 <= i <= |s|
      ensures c in s[..i] <==> s[0] == c || c in s[1..][..i - 1]
    {
      assert s[..i] == [s[0]] + s[1..][..i - 1];
    }
  }

  /** Splitting what was joined gives the pieces back when no piece holds the separator. */
  lemma {:induction false} SplitJoin(parts: seq<string>, sep: char)
    requires |parts| >= 1
    requires forall i :: 0 <= i < |parts| ==> sep !in parts[i]
    ensures Split(Join(parts, sep), sep) == parts
  {
    if |parts| == 1 {
      SplitWithout(parts[0], sep);
    } else {
      SplitJoin(parts[1..], sep);
      SplitAfter(parts[0], Join(parts[1..], sep), sep);
    }
  }

  /** Joining what was split gives the string back. */
  lemma {:induction false} JoinSplit(s: string, sep: char)
    ensures Join(Split(s, sep), sep) == s
  {
    if s != [] {
      var rest := Split(s[1..], sep);
      JoinSplit(s[1..], sep);
      if s[0] == sep {
        assert Split(s, sep) == [[]] + rest;
        if |rest| == 1 {
          assert Join([[]] + rest, sep) == [] + [sep] + rest[0];
        } else {
          assert Join([[]] + rest, sep) == [] + [sep] + Join(rest, sep);
        }
      } else {
        assert Split(s, sep) == [[s[0]] + rest[0]] + rest[1..];
        if |rest| == 1 {
          assert Join(Split(s, sep), sep) == [s[0]] + rest[0];
        } else {
          assert Join(rest, sep) == rest[0] + [sep] + Join(rest[1..], sep);
          assert Join(Split(s, sep), sep) == ([s[0]] + rest[0]) + [sep] + Join(rest[1..], sep);
        }
      }
    }
  }

  lemma {:induction false} SplitWithout(p: string, sep: char)
    requires sep !in p
    ensures Split(p, sep) == [p]
  {
    if p != [] {
      SplitWithout(p[1..], sep);
      assert [p[0]] + p[1..] == p;
    }
  }

  lemma {:induction false} SplitAfter(p: string, rest: string, sep: char)
    requires sep !in p
    ensures Split(p + [sep] + rest, sep) == [p] + Split(rest, sep)
  {
    if p == [] {
      assert (p + [sep] + rest)[1..] == rest;
    } else {
      SplitAfter(p[1..], rest, sep);
      assert (p + [sep] + rest)[1..] == p[1..] + [sep] + rest;
      assert [p[0]] + p[1..] == p;
    }
  }

  /** Appending one more piece to a non-empty join. */
  lemma {:induction false} JoinSnoc(parts: seq<string>, last: string, sep: char)
    requires |parts| >= 1
    ensures Join(parts + [last], sep) == Join(parts, sep) + [sep] + last
  {
    if |parts| > 1 {
      JoinSnoc(parts[1..], last, sep);
      assert (parts + [last])[1..] == parts[1..] + [last];
    }
  }

  /** A join holds only characters that satisfy `ok` when the separator and every piece do. */
  lemma {:induction false} JoinWithin(parts: seq<string>, sep: char, ok: char -> bool)
    requires ok(sep)
    requires forall k :: 0 <= k < |parts| ==> forall i :: 0 <= i < |parts[k]| ==> ok(parts[k][i])
    ensures forall i :: 0 <= i < |Join(parts, sep)| ==> ok(Join(parts, sep)[i])
  {
    if |parts| == 1 {
      assert Join(parts, sep) == parts[0];
    } else if |parts| > 1 {
      JoinWithin(parts[1..], sep, ok);
      var head, tail := parts[0] + [sep], Join(parts[1..], sep);
      var j := Join(parts, sep);
      assert j == head + tail;
      forall i | 0 <= i < |j|
        ensures ok(j[i])
      {
        if i < |parts[0]| {
          assert j[i] == parts[0][i];
        } else if i >= |head| {
          assert j[i] == tail[i - |head|];
        }
      }
    }
  }

}
