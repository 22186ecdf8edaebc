/** What a normalized path looks like, and when normalizing it again changes it. */
module PathNormalForm {
  import opened PythonText
  import opened PathNormalization

  /** Parts a normalized path can have. */
  ghost predicate Clean(parts: seq<string>) {
    AllPlain(parts) && forall i | 0 <= i < |parts| :: '/' !in parts[i]
  }

  lemma {:induction false} JoinAfterEmpty(parts: seq<string>)
    requires parts != []
    ensures Join([""] + parts, '/') == ToPath(parts)
  {
    var n := |parts| - 1;
    if n == 0 {
      assert ([""] + parts)[..1] == [""];
      assert "" + ['/'] + parts[0] == "/" + parts[0];
    } else {
      JoinAfterEmpty(parts[..n]);
      assert ([""] + parts)[..n + 1] == [""] + parts[..n];
      assert ToPath(parts[..n]) + ['/'] + parts[n] == "/" + (Join(parts[..n], '/') + ['/'] + parts[n]);
    }
  }

  lemma SplitOfPath(parts: seq<string>)
    requires Clean(parts)
    ensures Split(ToPath(parts), '/') == [""] + if parts == [] then [""] else parts
  {
    if parts == [] {
      SplitAfterSeparator("", "", '/');
      assert "" + ['/'] + "" == ToPath(parts);
    } else {
      JoinAfterEmpty(parts);
      SplitOfJoin([""] + parts, '/');
    }
  }

  /** Reading a path's parts back from its text. */
  lemma PartsOfPath(parts: seq<string>)
    requires Clean(parts)
    ensures Walk(Split(ToPath(parts), '/')) == Walked(parts, false)
  {
    SplitOfPath(parts);
    if parts == [] {
      LeadingEmptyVanishes([""]);
      WalkOne(AT_ROOT, "");
    } else {
      LeadingEmptyVanishes(parts);
      PlainPartsStay(parts);
    }
  }

  lemma LeadingEmptyVanishes(rest: seq<string>)
    ensures Walk([""] + rest) == Walk(rest)
  {
    SkippedPartsVanish([], "", rest);
    assert [] + [""] + rest == [""] + rest && [] + rest == rest;
  }

  lemma {:induction false} SplitKeepsChars(s: string, c: char, i: nat)
    requires i < |Split(s, '/')| && c in Split(s, '/')[i]
    ensures c in s
  {
    var n := |s| - 1;
    var before := Split(s[..n], '/');
    if i < |before| && c in before[i] {
      SplitKeepsChars(s[..n], c, i);
    }
  }

  lemma {:induction false} WalkKeepsParts(parts: seq<string>)
    requires Walk(parts).Walked?
    ensures forall part | part in Walk(parts).parts :: part in parts
  {
    if parts != [] {
      WalkKeepsParts(parts[..|parts| - 1]);
    }
  }

  lemma {:induction false} JoinKeepsChars(parts: seq<string>, c: char)
    requires c in Join(parts, '/')
    ensures c == '/' || exists i | 0 <= i < |parts| :: c in parts[i]
  {
    if |parts| > 1 {
      var n := |parts| - 1;
      if c in Join(parts[..n], '/') {
        JoinKeepsChars(parts[..n], c);
        if c != '/' {
          var i :| 0 <= i < n && c in parts[..n][i];
          assert c in parts[i];
        }
      }
    }
  }

  /** The normalized path is the clean parts of the resolved one behind slashes; no other character gets in. */
  lemma NormalForm(raw: string) returns (parts: seq<string>)
    requires Normalize(raw).Normalized?
    ensures Clean(parts) && Normalize(raw).path == ToPath(parts)
    ensures forall c | c in Normalize(raw).path && c != '/' :: c in raw
  {
    var value := Strip(raw);
    var all := Split(value, '/');
    parts := Walk(all).parts;
    WalkedDepth(all);
    WalkKeepsParts(all);
    PartsHaveNoSeparator(value, '/');
    forall i | 0 <= i < |parts| ensures '/' !in parts[i] {
      assert parts[i] in parts;
    }
    forall c | c in ToPath(parts) && c != '/' ensures c in raw {
      JoinKeepsChars(parts, c);
      var i :| 0 <= i < |parts| && c in parts[i];
      assert parts[i] in parts;
      var k :| 0 <= k < |all| && all[k] == parts[i];
      SplitKeepsChars(value, c, k);
      StripKeepsChars(raw, c);
    }
  }

  lemma {:induction false} StripLeftKeepsChars(s: string, c: char)
    requires c in StripLeft(s)
    ensures c in s
  {
    var n := |s| - 1;
    if c in StripLeft(s[..n]) {
      StripLeftKeepsChars(s[..n], c);
    }
  }

  lemma {:induction false} StripRightKeepsChars(s: string, c: char)
    requires c in StripRight(s)
    ensures c in s
  {
    if s != "" && IsSpace(s[|s| - 1]) {
      StripRightKeepsChars(s[..|s| - 1], c);
    }
  }

  lemma StripKeepsChars(s: string, c: char)
    requires c in Strip(s)
    ensures c in s
  {
    StripRightKeepsChars(StripLeft(s), c);
    StripLeftKeepsChars(s, c);
  }

  // ---------- Lengths ----------

  function Size(parts: seq<string>): nat {
    if parts == [] then 0 else Size(parts[..|parts| - 1]) + |parts[|parts| - 1]| + 1
  }

  lemma SizeOneMore(parts: seq<string>, part: string)
    ensures Size(parts + [part]) == Size(parts) + |part| + 1
  {
    assert (parts + [part])[..|parts|] == parts;
  }

  lemma SizeOfAddToLast(parts: seq<string>, part: string)
    requires parts != []
    ensures Size(AddToLast(parts, part)) == Size(parts) + |part|
  {
    SizeOneMore(parts[..|parts| - 1], parts[|parts| - 1] + part);
  }

  lemma {:induction false} SizeOfSplit(s: string)
    ensures Size(Split(s, '/')) == |s| + 1
  {
    if s == "" {
      SizeOneMore([], "");
      assert [] + [""] == [""];
    } else {
      var n := |s| - 1;
      SizeOfSplit(s[..n]);
      SizeOneMore(Split(s[..n], '/'), "");
      SizeOfAddToLast(Split(s[..n], '/'), [s[n]]);
    }
  }

  lemma {:induction false} SizeOfJoin(parts: seq<string>)
    requires parts != []
    ensures |Join(parts, '/')| + 1 == Size(parts)
  {
    if |parts| > 1 {
      SizeOfJoin(parts[..|parts| - 1]);
    } else {
      SizeOneMore([], parts[0]);
      assert [] + [parts[0]] == parts;
    }
  }

  /** Walking keeps no more than it was given, and drops the empty part before the first slash. */
  lemma {:induction false} WalkShrinks(parts: seq<string>)
    requires parts != [] && parts[0] == "" && Walk(parts).Walked?
    ensures Size(Walk(parts).parts) + 1 <= Size(parts)
  {
    var n := |parts| - 1;
    if n == 0 {
      assert parts == [""];
      SizeOneMore([], "");
      assert [] + [""] == [""];
      WalkOne(AT_ROOT, "");
    } else {
      WalkShrinks(parts[..n]);
      SizeOneMore(Walk(parts[..n]).parts, parts[n]);
    }
  }

  lemma {:induction false} SplitStartsEmpty(value: string)
    requires value != "" && value[0] == '/'
    ensures Split(value, '/')[0] == "" && |Split(value, '/')| > 1
  {
    var n := |value| - 1;
    if n == 0 {
      assert value[..0] == "";
    } else {
      SplitStartsEmpty(value[..n]);
    }
  }

  /** A normalized path is no longer than the stripped path it came from. */
  lemma NormalizeShrinks(raw: string)
    requires Normalize(raw).Normalized?
    ensures |Normalize(raw).path| <= |Strip(raw)|
  {
    var value := Strip(raw);
    var parts := Walk(Split(value, '/')).parts;
    SplitStartsEmpty(value);
    WalkShrinks(Split(value, '/'));
    SizeOfSplit(value);
    if parts != [] {
      SizeOfJoin(parts);
    }
  }

  lemma {:induction false} StripRightShrinks(s: string)
    ensures |StripRight(s)| <= |s|
    ensures s != "" && IsSpace(s[|s| - 1]) ==> |StripRight(s)| < |s|
  {
    if s != "" && IsSpace(s[|s| - 1]) {
      StripRightShrinks(s[..|s| - 1]);
    }
  }

  /**
   Normalizing twice is normalizing once exactly when the result does not end in white space: the second time,
   stripping sees the end of the last part, which the first time was hidden behind what followed it.
   */
  lemma IdempotentIffNoTrailingSpace(raw: string)
    requires Normalize(raw).Normalized?
    ensures var path := Normalize(raw).path;
            Normalize(path) == Normalized(path, false) <==> !IsSpace(path[|path| - 1])
  {
    var path := Normalize(raw).path;
    var parts := NormalForm(raw);
    if IsSpace(path[|path| - 1]) {
      StripRightShrinks(path);
      assert StripLeft(path) == path by { StripLeftEnds(path); }
      if Normalize(path).Normalized? {
        NormalizeShrinks(path);
      }
    } else {
      StripStrips(path);
      CharsStaySupported(raw, path);
      PartsOfPath(parts);
    }
  }

  lemma CharsStaySupported(raw: string, path: string)
    requires Normalize(raw).Normalized? && path == Normalize(raw).path
    ensures '\0' !in path && '\\' !in path && path[0] == '/' && !HasDrive(path)
  {
    var value := Strip(raw);
    var all := Split(value, '/');
    forall c | c in path && c != '/' ensures c in value {
      var parts := Walk(all).parts;
      WalkKeepsParts(all);
      JoinKeepsChars(parts, c);
      var i :| 0 <= i < |parts| && c in parts[i];
      assert parts[i] in parts;
      var k :| 0 <= k < |all| && all[k] == parts[i];
      SplitKeepsChars(value, c, k);
    }
  }

  lemma TrailingSlash(parts: seq<string>)
    requires Clean(parts)
    ensures Walk(Split(ToPath(parts) + ['/'], '/')) == Walked(parts, false)
  {
    var path := ToPath(parts);
    var all := Split(path, '/');
    PartsOfPath(parts);
    SplitAfterSeparator(path, "", '/');
    assert path + ['/'] + "" == path + ['/'];
    SkippedPartsVanish(all, "", []);
    assert all + [""] + [] == all + [""] && all + [] == all;
  }

  /**
   Results that end in white space do occur: a path whose last part ends in it, with a slash behind that part. The
   slash hides the space from stripping, and normalizing takes the slash away.
   */
  lemma SlashHidesSpace(parts: seq<string>)
    requires Clean(parts) && parts != []
    requires '\0' !in ToPath(parts) && '\\' !in ToPath(parts) && IsSpace(ToPath(parts)[|ToPath(parts)| - 1])
    ensures Normalize(ToPath(parts) + ['/']) == Normalized(ToPath(parts), false)
    ensures Normalize(ToPath(parts)) != Normalized(ToPath(parts), false)
  {
    var path := ToPath(parts);
    assert Normalize(path + ['/']) == Normalized(path, false) by {
      assert Strip(path + ['/']) == path + ['/'] by { StripStrips(path + ['/']); }
      assert '\0' !in path + ['/'] && '\\' !in path + ['/'];
      TrailingSlash(parts);
    }
    IdempotentIffNoTrailingSpace(path + ['/']);
  }
}
