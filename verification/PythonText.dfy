/** The string operations of Python that the services rely on. */
module PythonText {

  /** What `str.strip` removes. */
  predicate IsSpace(c: char) {
    var code := c as int;
    || 0x09 <= code <= 0x0d || 0x1c <= code <= 0x20 || code == 0x85 || code == 0xa0 || code == 0x1680
    || 0x2000 <= code <= 0x200a || code == 0x2028 || code == 0x2029 || code == 0x202f || code == 0x205f
      || code == 0x3000
  }

  /** White space is left out until something else has come. */
  function StripLeft(s: string): string {
    if s == "" then ""
    else
      var kept, last := StripLeft(s[..|s| - 1]), s[|s| - 1];
      if kept == "" && IsSpace(last) then "" else kept + [last]
  }

  function StripRight(s: string): string {
    if s != "" && IsSpace(s[|s| - 1]) then StripRight(s[..|s| - 1]) else s
  }

  function Strip(s: string): string {
    StripRight(StripLeft(s))
  }

  predicate Blank(s: string) {
    Strip(s) == ""
  }

  /** Neither end is white space: stripping changes nothing. */
  predicate Stripped(s: string) {
    s != "" ==> !IsSpace(s[0]) && !IsSpace(s[|s| - 1])
  }

  lemma {:induction false} StripLeftEnds(s: string)
    ensures StripLeft(s) != "" ==> !IsSpace(StripLeft(s)[0]) && StripLeft(s)[|StripLeft(s)| - 1] == s[|s| - 1]
    ensures s != "" && !IsSpace(s[0]) ==> StripLeft(s) == s
  {
    if s != "" {
      StripLeftEnds(s[..|s| - 1]);
    }
  }

  lemma {:induction false} StripRightEnds(s: string)
    ensures StripRight(s) != "" ==> !IsSpace(StripRight(s)[|StripRight(s)| - 1]) && StripRight(s)[0] == s[0]
  {
    if s != "" && IsSpace(s[|s| - 1]) {
      StripRightEnds(s[..|s| - 1]);
    }
  }

  /** Stripping leaves no white space at the ends, and a string without any is left alone. */
  lemma StripStrips(s: string)
    ensures Stripped(Strip(s))
    ensures Stripped(s) ==> Strip(s) == s
  {
    StripLeftEnds(s);
    StripRightEnds(StripLeft(s));
  }

  // ---------- split and join ----------

  function AddToLast(parts: seq<string>, part: string): seq<string>
    requires parts != []
  {
    parts[..|parts| - 1] + [parts[|parts| - 1] + part]
  }

  /** `str.split` on one character: always at least one part. */
  function Split(s: string, separator: char): (parts: seq<string>)
    ensures |parts| >= 1
  {
    if s == "" then [""]
    else
      var parts := Split(s[..|s| - 1], separator);
      var last := s[|s| - 1];
      if last == separator then parts + [""] else AddToLast(parts, [last])
  }

  /** `str.join` */
  function Join(parts: seq<string>, separator: char): string {
    if parts == [] then ""
    else if |parts| == 1 then parts[0]
    else Join(parts[..|parts| - 1], separator) + [separator] + parts[|parts| - 1]
  }

  lemma AddToLastTwice(parts: seq<string>, a: string, b: string)
    requires parts != []
    ensures AddToLast(AddToLast(parts, a), b) == AddToLast(parts, a + b)
    ensures AddToLast(parts, "") == parts
  {
    var last := parts[|parts| - 1];
    assert last + (a + b) == (last + a) + b;
    assert last + "" == last;
  }

  lemma SplitOneMore(s: string, c: char, separator: char)
    ensures Split(s + [c], separator) == if c == separator then Split(s, separator) + [""]
            else AddToLast(Split(s, separator), [c])
  {
    assert (s + [c])[..|s + [c]| - 1] == s;
  }

  /** A part without separators is appended to the last part. */
  lemma {:induction false} SplitAppend(s: string, part: string, separator: char)
    requires separator !in part
    ensures Split(s + part, separator) == AddToLast(Split(s, separator), part)
  {
    var parts := Split(s, separator);
    if part == "" {
      assert s + part == s;
      AddToLastTwice(parts, "", "");
    } else {
      var n := |part| - 1;
      var front, last := part[..n], part[n];
      assert part == front + [last] && last != separator;
      calc {
        Split(s + part, separator);
        { assert s + part == s + front + [last]; }
        Split(s + front + [last], separator);
        { SplitOneMore(s + front, last, separator); }
        AddToLast(Split(s + front, separator), [last]);
        { SplitAppend(s, front, separator); }
        AddToLast(AddToLast(parts, front), [last]);
        { AddToLastTwice(parts, front, [last]); }
        AddToLast(parts, part);
      }
    }
  }

  lemma SplitAfterSeparator(s: string, part: string, separator: char)
    requires separator !in part
    ensures Split(s + [separator] + part, separator) == Split(s, separator) + [part]
  {
    SplitOneMore(s, separator, separator);
    SplitAppend(s + [separator], part, separator);
    assert "" + part == part;
  }

  /** Splitting what was joined gives the parts back, when no part contains the separator. */
  lemma {:induction false} SplitOfJoin(parts: seq<string>, separator: char)
    requires parts != [] && forall i | 0 <= i < |parts| :: separator !in parts[i]
    ensures Split(Join(parts, separator), separator) == parts
  {
    var n := |parts| - 1;
    var last := parts[n];
    if n == 0 {
      SplitAppend("", last, separator);
      assert "" + last == last;
    } else {
      var front := parts[..n];
      SplitOfJoin(front, separator);
      SplitAfterSeparator(Join(front, separator), last, separator);
      assert Join(parts, separator) == Join(front, separator) + [separator] + last;
      assert parts == front + [last];
    }
  }

  lemma {:induction false} PartsHaveNoSeparator(s: string, separator: char)
    ensures forall i | 0 <= i < |Split(s, separator)| :: separator !in Split(s, separator)[i]
  {
    if s != "" {
      PartsHaveNoSeparator(s[..|s| - 1], separator);
    }
  }

  /** Joining what was split gives the text back. */
  lemma {:induction false} JoinOfSplit(s: string, separator: char)
    ensures Join(Split(s, separator), separator) == s
  {
    if s != "" {
      var n := |s| - 1;
      var parts := Split(s[..n], separator);
      JoinOfSplit(s[..n], separator);
      JoinWithEmpty(parts, separator);
      JoinAddedToLast(parts, [s[n]], separator);
      assert s == s[..n] + [s[n]];
    }
  }

  lemma JoinWithEmpty(parts: seq<string>, separator: char)
    requires parts != []
    ensures Join(parts + [""], separator) == Join(parts, separator) + [separator]
  {
    assert (parts + [""])[..|parts|] == parts;
    assert Join(parts, separator) + [separator] + "" == Join(parts, separator) + [separator];
  }

  lemma JoinAddedToLast(parts: seq<string>, more: string, separator: char)
    requires parts != []
    ensures Join(AddToLast(parts, more), separator) == Join(parts, separator) + more
  {
    var n, added := |parts| - 1, AddToLast(parts, more);
    assert added[..n] == parts[..n] && added[n] == parts[n] + more;
    if n > 0 {
      var front := Join(parts[..n], separator) + [separator];
      assert front + (parts[n] + more) == (front + parts[n]) + more;
    }
  }

  ghost predicate AllSpace(s: string) {
    forall i | 0 <= i < |s| :: IsSpace(s[i])
  }

  lemma {:induction false} LeftIsSpace(s: string) returns (left: string)
    ensures AllSpace(left) && s == left + StripLeft(s)
  {
    left := "";
    if s != "" {
      var m := |s| - 1;
      left := LeftIsSpace(s[..m]);
      assert s == s[..m] + [s[m]];
      if StripLeft(s) == "" {
        left := left + [s[m]];
      }
    }
  }

  lemma {:induction false} RightIsSpace(s: string) returns (right: string)
    ensures AllSpace(right) && s == StripRight(s) + right
  {
    right := "";
    if s != "" && IsSpace(s[|s| - 1]) {
      var m := |s| - 1;
      right := RightIsSpace(s[..m]);
      assert s == s[..m] + [s[m]];
      right := right + [s[m]];
    }
  }

  /** Stripping takes white space off the ends, all of it, and nothing else. */
  lemma StripMeans(s: string) returns (left: string, right: string)
    ensures AllSpace(left) && AllSpace(right) && s == left + Strip(s) + right && Stripped(Strip(s))
  {
    left := LeftIsSpace(s);
    right := RightIsSpace(StripLeft(s));
    StripStrips(s);
    Regrouped(left, Strip(s), right);
  }

  lemma Regrouped(a: string, b: string, c: string)
    ensures a + (b + c) == a + b + c
  {
  }
}
