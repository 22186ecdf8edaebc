/** Candidate paths: checked, and resolved lexically part by part. */
module PathNormalization {
  import opened Basics
  import opened PythonText

  datatype PathCode = PathInvalid | PathTraversalRejected | PathSymlinkEscape | PathNotAllowlisted

  datatype NormalizedPath = Normalized(path: string, hadParent: bool) | Rejected(code: PathCode)

  /** The parts of a path kept so far, and whether ".." occurred; None once ".." led above the root. */
  datatype Walked = Walked(parts: seq<string>, hadParent: bool) | Escaped

  predicate IsSkipped(part: string) {
    part == "" || part == "."
  }

  function Enter(w: Walked, part: string): Walked {
    if w.Escaped? || IsSkipped(part) then w
    else if part == ".." then
      if w.parts == [] then Escaped else Walked(w.parts[..|w.parts| - 1], true)
    else w.(parts := w.parts + [part])
  }

  function WalkFrom(w: Walked, parts: seq<string>): Walked {
    if parts == [] then w else Enter(WalkFrom(w, parts[..|parts| - 1]), parts[|parts| - 1])
  }

  const AT_ROOT := Walked([], false)

  function Walk(parts: seq<string>): Walked {
    WalkFrom(AT_ROOT, parts)
  }

  function ToPath(parts: seq<string>): string {
    "/" + Join(parts, '/')
  }

  /** `_WINDOWS_DRIVE_PATTERN` */
  predicate HasDrive(s: string) {
    |s| >= 3 && ('A' <= s[0] <= 'Z' || 'a' <= s[0] <= 'z') && s[1] == ':' && (s[2] == '\\' || s[2] == '/')
  }

  predicate Unsupported(value: string) {
    value == "" || '\0' in value || '\\' in value || HasDrive(value) || value[0] != '/'
  }

  function Normalize(raw: string): NormalizedPath {
    var value := Strip(raw);
    if Unsupported(value) then Rejected(PathInvalid)
    else
      var w := Walk(Split(value, '/'));
      if w.Escaped? then Rejected(PathTraversalRejected) else Normalized(ToPath(w.parts), w.hadParent)
  }

  /** `_normalize_candidate_path` */
  method NormalizeCandidatePath(raw: string) returns (r: NormalizedPath)
    ensures r == Normalize(raw)
  {
    var value := Strip(raw);
    if value == "" || '\0' in value || '\\' in value || HasDrive(value) || value[0] != '/' {
      return Rejected(PathInvalid);
    }
    var parts := Split(value, '/');
    var kept: seq<string>, hadParent := [], false;
    for i := 0 to |parts|
      invariant Walk(parts[..i]) == Walked(kept, hadParent)
    {
      assert parts[..i + 1][..i] == parts[..i];
      if parts[i] == "" || parts[i] == "." {
        continue;
      }
      if parts[i] == ".." {
        hadParent := true;
        if kept == [] {
          EscapeIsFinal(parts, i + 1);
          return Rejected(PathTraversalRejected);
        }
        kept := kept[..|kept| - 1];
        continue;
      }
      kept := kept + [parts[i]];
    }
    assert parts[..|parts|] == parts;
    r := Normalized(if kept == [] then "/" else "/" + Join(kept, '/'), hadParent);
  }

  lemma {:induction false} EscapeIsFinal(parts: seq<string>, n: nat)
    requires n <= |parts| && Walk(parts[..n]) == Escaped
    ensures Walk(parts) == Escaped
  {
    if n == |parts| {
      assert parts[..n] == parts;
    } else {
      var m := |parts| - 1;
      assert parts[..m][..n] == parts[..n];
      EscapeIsFinal(parts[..m], n);
    }
  }

  // ---------- What lexical resolution is ----------

  lemma {:induction false} WalkOn(w: Walked, a: seq<string>, b: seq<string>)
    ensures WalkFrom(w, a + b) == WalkFrom(WalkFrom(w, a), b)
  {
    if b == [] {
      assert a + b == a;
    } else {
      var n := |b| - 1;
      WalkOn(w, a, b[..n]);
      assert (a + b)[..|a| + n] == a + b[..n];
    }
  }

  /** Two walks that stand at the same place end at the same place. */
  ghost predicate SamePlace(a: Walked, b: Walked) {
    a.Escaped? == b.Escaped? && (a.Walked? && b.Walked? ==> a.parts == b.parts)
  }

  lemma {:induction false} SamePlaceStays(a: Walked, b: Walked, parts: seq<string>)
    requires SamePlace(a, b)
    ensures SamePlace(WalkFrom(a, parts), WalkFrom(b, parts))
  {
    if parts != [] {
      SamePlaceStays(a, b, parts[..|parts| - 1]);
    }
  }

  predicate IsPlain(part: string) {
    part != "" && part != "." && part != ".."
  }

  lemma WalkOne(w: Walked, part: string)
    ensures WalkFrom(w, [part]) == Enter(w, part)
  {
    assert [part][..0] == [];
    assert WalkFrom(w, [part][..0]) == w;
  }

  /** Going into a part and out again, anywhere in a path, leads nowhere else. */
  lemma DetourCancels(a: seq<string>, part: string, b: seq<string>)
    requires part != "" && part != "." && part != ".."
    ensures SamePlace(Walk(a + [part, ".."] + b), Walk(a + b))
  {
    WalkOn(AT_ROOT, a, [part, ".."]);
    DetourOnly(Walk(a), part);
    WalkOn(AT_ROOT, a + [part, ".."], b);
    WalkOn(AT_ROOT, a, b);
    SamePlaceStays(Walk(a + [part, ".."]), Walk(a), b);
  }

  lemma DetourOnly(w: Walked, part: string)
    requires part != "" && part != "." && part != ".."
    ensures SamePlace(WalkFrom(w, [part, ".."]), w)
  {
    WalkOn(w, [part], [".."]);
    WalkOne(w, part);
    WalkOne(Enter(w, part), "..");
    assert [part] + [".."] == [part, ".."];
    assert w.Walked? ==> (w.parts + [part])[..|w.parts|] == w.parts;
  }

  /** Empty parts and dots do not matter. */
  lemma SkippedPartsVanish(a: seq<string>, part: string, b: seq<string>)
    requires part == "" || part == "."
    ensures Walk(a + [part] + b) == Walk(a + b)
  {
    WalkOn(AT_ROOT, a, [part]);
    WalkOne(Walk(a), part);
    WalkOn(AT_ROOT, a + [part], b);
    WalkOn(AT_ROOT, a, b);
  }

  ghost predicate AllPlain(parts: seq<string>) {
    forall i | 0 <= i < |parts| :: IsPlain(parts[i])
  }

  /** A path of plain parts is resolved already. */
  lemma {:induction false} PlainPartsStay(parts: seq<string>)
    requires AllPlain(parts)
    ensures Walk(parts) == Walked(parts, false)
  {
    if parts != [] {
      PlainPartsStay(parts[..|parts| - 1]);
      assert parts == parts[..|parts| - 1] + [parts[|parts| - 1]];
    }
  }

  /** How far below the root a path leads, counted without keeping any part. */
  function Depth(parts: seq<string>): int {
    if parts == [] then 0
    else Depth(parts[..|parts| - 1])
         + if parts[|parts| - 1] == ".." then -1 else if IsPlain(parts[|parts| - 1]) then 1 else 0
  }

  /** What is kept of a path that stays below the root. */
  lemma {:induction false} WalkedDepth(parts: seq<string>)
    ensures Walk(parts).Walked? ==> |Walk(parts).parts| == Depth(parts) && AllPlain(Walk(parts).parts)
  {
    if parts != [] {
      WalkedDepth(parts[..|parts| - 1]);
    }
  }

  /** Some beginning of the path leads above the root. */
  ghost predicate GoesAbove(parts: seq<string>) {
    exists n: nat :: IsAbove(parts, n)
  }

  predicate IsAbove(parts: seq<string>, n: nat) {
    n <= |parts| && Depth(parts[..n]) < 0
  }

  lemma AboveInPrefix(parts: seq<string>, m: nat, n: nat)
    requires m <= |parts|
    ensures n <= m ==> (IsAbove(parts[..m], n) <==> IsAbove(parts, n))
    ensures IsAbove(parts, |parts|) <==> Depth(parts) < 0
  {
    if n <= m {
      assert parts[..m][..n] == parts[..n];
    }
    assert parts[..|parts|] == parts;
  }

  lemma GoesAboveOneMore(parts: seq<string>)
    requires parts != []
    ensures GoesAbove(parts) <==> GoesAbove(parts[..|parts| - 1]) || Depth(parts) < 0
  {
    AboveAtTheEnd(parts);
    if GoesAbove(parts) {
      AboveBefore(parts);
    }
    if GoesAbove(parts[..|parts| - 1]) {
      AboveAfter(parts);
    }
  }

  lemma AboveAtTheEnd(parts: seq<string>)
    ensures Depth(parts) < 0 ==> GoesAbove(parts)
  {
    assert parts[..|parts|] == parts;
    assert Depth(parts) < 0 ==> IsAbove(parts, |parts|);
  }

  lemma AboveBefore(parts: seq<string>)
    requires parts != [] && GoesAbove(parts)
    ensures GoesAbove(parts[..|parts| - 1]) || Depth(parts) < 0
  {
    var n: nat :| IsAbove(parts, n);
    AboveInPrefix(parts, |parts| - 1, n);
  }

  lemma AboveAfter(parts: seq<string>)
    requires parts != [] && GoesAbove(parts[..|parts| - 1])
    ensures GoesAbove(parts)
  {
    var n: nat :| IsAbove(parts[..|parts| - 1], n);
    AboveInPrefix(parts, |parts| - 1, n);
  }

  /** A path is rejected as traversal exactly when some beginning of it leads above the root. */
  lemma {:induction false} EscapesIffAboveRoot(parts: seq<string>)
    ensures Walk(parts) == Escaped <==> GoesAbove(parts)
  {
    if parts == [] {
      assert forall n: nat | n <= 0 :: parts[..n] == [];
    } else {
      EscapesIffAboveRoot(parts[..|parts| - 1]);
      GoesAboveOneMore(parts);
      WalkedDepth(parts[..|parts| - 1]);
    }
  }

  /** ".." was seen, of a path that stays below the root. */
  lemma {:induction false} ParentsAreSeen(parts: seq<string>)
    ensures Walk(parts).Walked? ==> (Walk(parts).hadParent <==> ".." in parts)
  {
    if parts != [] {
      var n := |parts| - 1;
      ParentsAreSeen(parts[..n]);
      assert parts == parts[..n] + [parts[n]];
    }
  }

  /**
   A path is invalid exactly if nothing is left of it when stripped, it does not start with a slash, or it holds a zero
   or a backslash; it is a traversal exactly if some beginning of it leads above the root; and any other is resolved.
   */
  lemma NormalizingIsDecided(raw: string)
    ensures var value := Strip(raw);
            if value == "" || value[0] != '/' || '\0' in value || '\\' in value
            then Normalize(raw) == Rejected(PathInvalid)
            else if GoesAbove(Split(value, '/')) then Normalize(raw) == Rejected(PathTraversalRejected)
            else
              && Normalize(raw).Normalized? && (Normalize(raw).hadParent <==> ".." in Split(value, '/'))
              && Normalize(raw).path == ToPath(Walk(Split(value, '/')).parts)
  {
    EscapesIffAboveRoot(Split(Strip(raw), '/'));
    ParentsAreSeen(Split(Strip(raw), '/'));
  }
}
