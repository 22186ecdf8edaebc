/** Route tags: trimmed, upper-cased, checked and freed of repeats. */
module RouteTags {
  import opened Basics
  import opened PythonText

  datatype TagResult = Tags(tags: seq<string>) | InvalidTag(tag: string)

  /** The upper-case form of one character, which Unicode may make longer. */
  type UpperCase = char -> string

  predicate IsTagChar(c: char) {
    'A' <= c <= 'Z' || '0' <= c <= '9' || c == '_' || c == '-'
  }

  /** Characters that are in a tag already have no other upper-case form. */
  ghost predicate KeepsTagChars(upper: UpperCase) {
    forall c | IsTagChar(c) :: upper(c) == [c]
  }

  /** `ROUTE_TAG_PATTERN` */
  predicate IsTag(s: string) {
    1 <= |s| <= 32 && forall i | 0 <= i < |s| :: IsTagChar(s[i])
  }

  function Upper(s: string, upper: UpperCase): string {
    if s == "" then "" else Upper(s[..|s| - 1], upper) + upper(s[|s| - 1])
  }

  function Clean(raw: string, upper: UpperCase): string {
    Upper(Strip(raw), upper)
  }

  /** The loop of `normalize_route_tags`: the distinct cleaned tags in order, or the first that is no tag. */
  function Collect(raw: seq<string>, upper: UpperCase): TagResult {
    if raw == [] then Tags([])
    else
      var before, tag := Collect(raw[..|raw| - 1], upper), Clean(raw[|raw| - 1], upper);
      if before.InvalidTag? then before
      else if !IsTag(tag) then InvalidTag(tag)
      else if tag in before.tags then before
      else Tags(before.tags + [tag])
  }

  function Normalize(raw: seq<string>, upper: UpperCase): TagResult {
    var r := Collect(raw, upper);
    if r == Tags([]) then InvalidTag("") else r
  }

  /** A text is a list separated by semicolons. */
  function NormalizeText(text: string, upper: UpperCase): TagResult {
    Normalize(Split(text, ';'), upper)
  }

  /** `normalize_route_tags`, with the set of tags seen so far beside the list. */
  method NormalizeRouteTags(raw: seq<string>, upper: UpperCase) returns (r: TagResult)
    ensures r == Normalize(raw, upper)
  {
    var normalized: seq<string>, seen: set<string> := [], {};
    for i := 0 to |raw|
      invariant Collect(raw[..i], upper) == Tags(normalized)
      invariant forall tag :: tag in seen <==> tag in normalized
    {
      assert raw[..i + 1][..i] == raw[..i];
      var tag := Clean(raw[i], upper);
      if tag == "" || !IsTag(tag) {
        InvalidStays(raw, i + 1, upper);
        return InvalidTag(tag);
      }
      if tag in seen {
        continue;
      }
      seen := seen + {tag};
      normalized := normalized + [tag];
    }
    assert raw[..|raw|] == raw;
    r := if normalized == [] then InvalidTag("") else Tags(normalized);
  }

  lemma InvalidOnceMore(front: seq<string>, last: string, upper: UpperCase)
    requires Collect(front, upper).InvalidTag?
    ensures Collect(front + [last], upper) == Collect(front, upper)
  {
    assert (front + [last])[..|front|] == front;
  }

  lemma {:induction false} InvalidStays(raw: seq<string>, n: nat, upper: UpperCase)
    requires n <= |raw| && Collect(raw[..n], upper).InvalidTag?
    ensures Collect(raw, upper) == Collect(raw[..n], upper)
    decreases |raw| - n
  {
    if n == |raw| {
      assert raw[..n] == raw;
    } else {
      InvalidOnceMore(raw[..n], raw[n], upper);
      PrefixGrows(raw, n);
      InvalidStays(raw, n + 1, upper);
    }
  }

  /** The cleaned form of some raw tag. */
  ghost predicate Cleaned(raw: seq<string>, upper: UpperCase, tag: string) {
    exists i | 0 <= i < |raw| :: Clean(raw[i], upper) == tag
  }

  /**
   What normalising means: it succeeds exactly for a nonempty list whose entries all clean to tags, and then gives
   those tags and no others, each once; otherwise it names a cleaned entry that is no tag.
   */
  lemma NormalizeMeans(raw: seq<string>, upper: UpperCase)
    ensures Normalize(raw, upper).Tags? <==> raw != [] && forall i | 0 <= i < |raw| :: IsTag(Clean(raw[i], upper))
    ensures Normalize(raw, upper).Tags? ==>
              && Distinct(Normalize(raw, upper).tags)
              && forall tag :: tag in Normalize(raw, upper).tags <==> Cleaned(raw, upper, tag)
    ensures Normalize(raw, upper).InvalidTag? ==> !IsTag(Normalize(raw, upper).tag)
    ensures Normalize(raw, upper).InvalidTag? && raw != [] ==> Cleaned(raw, upper, Normalize(raw, upper).tag)
  {
    CollectSucceeds(raw, upper);
    if Collect(raw, upper).Tags? {
      forall tag ensures Distinct(Collect(raw, upper).tags)
        && (tag in Collect(raw, upper).tags <==> Cleaned(raw, upper, tag)) {
        CollectGives(raw, upper, tag);
      }
      assert raw != [] ==> Cleaned(raw, upper, Clean(raw[0], upper));
    }
  }

  lemma {:induction false} CollectSucceeds(raw: seq<string>, upper: UpperCase)
    ensures Collect(raw, upper).Tags? <==> forall i | 0 <= i < |raw| :: IsTag(Clean(raw[i], upper))
    ensures Collect(raw, upper).InvalidTag? ==>
              !IsTag(Collect(raw, upper).tag) && Cleaned(raw, upper, Collect(raw, upper).tag)
  {
    if raw != [] {
      var n := |raw| - 1;
      CollectSucceeds(raw[..n], upper);
      if Collect(raw, upper).InvalidTag? {
        CleanedOneMore(raw, upper, Collect(raw, upper).tag);
      }
    }
  }

  lemma {:induction false} CollectGives(raw: seq<string>, upper: UpperCase, tag: string)
    requires Collect(raw, upper).Tags?
    ensures Distinct(Collect(raw, upper).tags)
    ensures tag in Collect(raw, upper).tags <==> Cleaned(raw, upper, tag)
  {
    if raw != [] {
      CollectGives(raw[..|raw| - 1], upper, tag);
      CleanedOneMore(raw, upper, tag);
    }
  }

  lemma CleanedOneMore(raw: seq<string>, upper: UpperCase, tag: string)
    requires raw != []
    ensures Cleaned(raw, upper, tag) <==> Cleaned(raw[..|raw| - 1], upper, tag) || Clean(raw[|raw| - 1], upper) == tag
  {
    var n := |raw| - 1;
    if i :| 0 <= i < |raw| && Clean(raw[i], upper) == tag {
      assert i < n ==> raw[..n][i] == raw[i];
    }
    if i :| 0 <= i < n && Clean(raw[..n][i], upper) == tag {
      assert raw[i] == raw[..n][i];
    }
  }

  lemma {:induction false} UpperOfTag(s: string, upper: UpperCase)
    requires KeepsTagChars(upper) && forall i | 0 <= i < |s| :: IsTagChar(s[i])
    ensures Upper(s, upper) == s
  {
    if s != "" {
      UpperOfTag(s[..|s| - 1], upper);
    }
  }

  /** A tag is clean already. */
  lemma CleanOfTag(s: string, upper: UpperCase)
    requires KeepsTagChars(upper) && IsTag(s)
    ensures Clean(s, upper) == s
  {
    assert Strip(s) == s by {
      assert IsTagChar(s[0]) && IsTagChar(s[|s| - 1]);
      StripStrips(s);
    }
    UpperOfTag(s, upper);
  }

  lemma {:induction false} CollectOfTags(tags: seq<string>, upper: UpperCase)
    requires KeepsTagChars(upper) && Distinct(tags) && forall i | 0 <= i < |tags| :: IsTag(tags[i])
    ensures Collect(tags, upper) == Tags(tags)
  {
    if tags != [] {
      var n := |tags| - 1;
      CollectOfTags(tags[..n], upper);
      CleanOfTag(tags[n], upper);
      assert tags[..n] + [tags[n]] == tags;
    }
  }

  /** Normalising again changes nothing, and the tags survive being written out as a text. */
  lemma NormalizeIsIdempotent(raw: seq<string>, upper: UpperCase)
    requires KeepsTagChars(upper) && Normalize(raw, upper).Tags?
    ensures var tags := Normalize(raw, upper).tags;
            Normalize(tags, upper) == Tags(tags) && NormalizeText(Join(tags, ';'), upper) == Tags(tags)
  {
    var tags := Normalize(raw, upper).tags;
    NormalizeMeans(raw, upper);
    forall i | 0 <= i < |tags| ensures IsTag(tags[i]) && ';' !in tags[i] {
      assert tags[i] in tags;
      var k :| 0 <= k < |raw| && Clean(raw[k], upper) == tags[i];
    }
    CollectOfTags(tags, upper);
    SplitOfJoin(tags, ';');
  }

  // ---------- What cleaning does to one entry ----------

  lemma UpperOneMore(s: string, c: char, upper: UpperCase)
    ensures Upper(s + [c], upper) == Upper(s, upper) + upper(c)
  {
    assert (s + [c])[..|s|] == s;
  }

  lemma {:induction false} UpperOfBoth(a: string, b: string, upper: UpperCase)
    ensures Upper(a + b, upper) == Upper(a, upper) + Upper(b, upper)
  {
    if b == "" {
      assert a + b == a;
    } else {
      var n := |b| - 1;
      var front, last := b[..n], b[n];
      assert b == front + [last];
      calc {
        Upper(a + b, upper);
        { Regrouped(a, front, [last]); }
        Upper(a + front + [last], upper);
        { UpperOneMore(a + front, last, upper); }
        Upper(a + front, upper) + upper(last);
        { UpperOfBoth(a, front, upper); }
        Upper(a, upper) + Upper(front, upper) + upper(last);
        { Regrouped(Upper(a, upper), Upper(front, upper), upper(last)); }
        Upper(a, upper) + (Upper(front, upper) + upper(last));
        { UpperOneMore(front, last, upper); }
        Upper(a, upper) + Upper(b, upper);
      }
    }
  }

  /**
   White space around an entry does not matter, and what is left is put into upper case: nothing stays nothing, one
   character becomes its upper-case form, and two texts one after the other become theirs.
   */
  lemma CleaningIsDecided(left: string, entry: string, right: string, upper: UpperCase)
    requires AllSpace(left) && AllSpace(right) && Stripped(entry)
    ensures Clean(left + entry + right, upper) == Upper(entry, upper)
  {
    StripOfPadded(left, entry, right);
  }

  lemma UpperIsDecided(a: string, b: string, c: char, upper: UpperCase)
    ensures Upper("", upper) == "" && Upper([c], upper) == upper(c)
    ensures Upper(a + b, upper) == Upper(a, upper) + Upper(b, upper)
  {
    UpperOneMore("", c, upper);
    assert "" + [c] == [c] && "" + upper(c) == upper(c);
    UpperOfBoth(a, b, upper);
  }

  lemma {:induction false} LeftOfPadded(left: string, s: string)
    requires AllSpace(left)
    ensures StripLeft(left + s) == StripLeft(s)
  {
    if s == "" {
      assert left + s == left;
      if left != "" {
        var n := |left| - 1;
        LeftOfPadded(left[..n], "");
        assert left[..n] + "" == left[..n];
      }
    } else {
      var n := |s| - 1;
      LeftOfPadded(left, s[..n]);
      assert (left + s)[..|left| + n] == left + s[..n];
    }
  }

  lemma {:induction false} RightOfPadded(s: string, right: string)
    requires AllSpace(right)
    ensures StripRight(s + right) == StripRight(s)
  {
    if right == "" {
      assert s + right == s;
    } else {
      var n := |right| - 1;
      RightOfPadded(s, right[..n]);
      assert (s + right)[..|s| + n] == s + right[..n];
    }
  }

  lemma StripOfPadded(left: string, entry: string, right: string)
    requires AllSpace(left) && AllSpace(right) && Stripped(entry)
    ensures Strip(left + entry + right) == entry
  {
    LeftOfPadded(left, entry + right);
    assert left + (entry + right) == left + entry + right;
    if entry == "" {
      assert entry + right == right;
      LeftOfPadded(right, "");
      assert right + "" == right;
    } else {
      StripLeftEnds(entry + right);
      RightOfPadded(entry, right);
    }
  }
}
