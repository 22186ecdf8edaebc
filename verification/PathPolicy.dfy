/** The allowlist: which root a path lies under, what an operator sees of it, and how that is read back. */
module PathPolicy {
  import opened Basics
  import opened PythonText
  import opened PathNormalization
  import opened PathNormalForm

  /** The parts a PurePosixPath has below the root. */
  function Kept(parts: seq<string>): seq<string> {
    if parts == [] then []
    else Kept(parts[..|parts| - 1]) + if IsSkipped(parts[|parts| - 1]) then [] else [parts[|parts| - 1]]
  }

  function Parts(path: string): seq<string> {
    Kept(Split(path, '/'))
  }

  /** A path in the form normalizing gives. */
  ghost predicate IsNormal(path: string) {
    Clean(Parts(path)) && path == ToPath(Parts(path))
  }

  /** The candidate is the root or lies below it, part by part. */
  predicate Under(candidate: string, root: string) {
    Parts(root) <= Parts(candidate)
  }

  /** `_matching_root`: the longest of the roots the candidate lies under, the first of them on a tie. */
  function MatchingRoot(candidate: string, roots: seq<string>): Option<string> {
    if roots == [] then None
    else
      var best, last := MatchingRoot(candidate, roots[..|roots| - 1]), roots[|roots| - 1];
      if Under(candidate, last) && (best.None? || |last| > |best.value|) then Some(last) else best
  }

  /** `_display_from_root` */
  function Display(path: string, root: string): string
    requires Under(path, root)
  {
    ToPath(Parts(path)[|Parts(root)|..])
  }

  /** A link resolver may be configured; without one paths stand for themselves. */
  type Resolver = Option<string -> string>

  /** What is shown of a rejected path is not kept. */
  datatype Validation = Green(normalized: string, display: string) | Red(code: PathCode)

  function Resolve(path: string, resolver: Resolver): NormalizedPath {
    if resolver.None? then Normalized(path, false) else Normalize(resolver.value(path))
  }

  /** `validate_path` for one purpose's roots. */
  function Validate(raw: string, roots: seq<string>, resolver: Resolver): Validation {
    var candidate := Normalize(raw);
    if candidate.Rejected? then Red(candidate.code)
    else
      var resolved := Resolve(candidate.path, resolver);
      if resolved.Rejected? then Red(PathSymlinkEscape)
      else if MatchingRoot(resolved.path, roots).None? && MatchingRoot(candidate.path, roots).Some? then
        Red(PathSymlinkEscape)
      else
        var root := MatchingRoot(resolved.path, roots);
        if root.None? then Red(if candidate.hadParent then PathTraversalRejected else PathNotAllowlisted)
        else (MatchIsAbove(resolved.path, roots); Green(resolved.path, Display(resolved.path, root.value)))
  }

  lemma {:induction false} MatchIsAbove(candidate: string, roots: seq<string>)
    ensures var root := MatchingRoot(candidate, roots);
            root.Some? ==> root.value in roots && Under(candidate, root.value)
  {
    if roots != [] {
      MatchIsAbove(candidate, roots[..|roots| - 1]);
    }
  }

  lemma {:induction false} MatchIsLongest(candidate: string, roots: seq<string>, i: nat)
    requires i < |roots| && Under(candidate, roots[i])
    ensures MatchingRoot(candidate, roots).Some? && |roots[i]| <= |MatchingRoot(candidate, roots).value|
  {
    var n := |roots| - 1;
    if i < n {
      MatchIsLongest(candidate, roots[..n], i);
    }
  }

  // ---------- Normal paths ----------

  lemma {:induction false} KeptIsWalk(parts: seq<string>)
    requires Walk(parts).Walked? && !Walk(parts).hadParent
    ensures Kept(parts) == Walk(parts).parts
  {
    if parts != [] {
      KeptIsWalk(parts[..|parts| - 1]);
    }
  }

  lemma PartsOfNormal(parts: seq<string>)
    requires Clean(parts)
    ensures Parts(ToPath(parts)) == parts && IsNormal(ToPath(parts))
  {
    PartsOfPath(parts);
    KeptIsWalk(Split(ToPath(parts), '/'));
  }

  lemma NormalizedIsNormal(raw: string)
    requires Normalize(raw).Normalized?
    ensures IsNormal(Normalize(raw).path)
  {
    var parts := NormalForm(raw);
    PartsOfNormal(parts);
  }

  lemma {:induction false} JoinOfMore(parts: seq<string>, n: nat)
    requires 0 < n <= |parts|
    ensures |Join(parts[..n], '/')| <= |Join(parts, '/')|
    ensures n < |parts| ==> |Join(parts[..n], '/')| < |Join(parts, '/')|
  {
    if n < |parts| {
      var m := |parts| - 1;
      if n < m {
        JoinOfMore(parts[..m], n);
        assert parts[..m][..n] == parts[..n];
      }
    } else {
      assert parts[..n] == parts;
    }
  }

  /** Among normal roots above one path the longer text is the deeper root. */
  lemma LongerIsDeeper(a: string, b: string, candidate: string)
    requires IsNormal(a) && IsNormal(b) && Under(candidate, a) && Under(candidate, b) && |a| <= |b|
    ensures Parts(a) <= Parts(b)
  {
    var p, q := Parts(a), Parts(b);
    if |p| > |q| {
      assert p[..|q|] == q;
      if q == [] {
        LastOfJoin(p);
      } else {
        JoinOfMore(p, |q|);
      }
    }
  }

  ghost predicate NormalRoots(roots: seq<string>) {
    forall i | 0 <= i < |roots| :: IsNormal(roots[i])
  }

  /** A path is in the allowlist when it lies under some root. */
  predicate Allowlisted(path: string, roots: seq<string>) {
    exists i | 0 <= i < |roots| :: Under(path, roots[i])
  }

  /**
   Green, exactly: the candidate can be normalized, what it resolves to can be too, and that lies part by part under
   an allowed root.
   */
  lemma GreenIsContainment(raw: string, roots: seq<string>, resolver: Resolver)
    ensures Validate(raw, roots, resolver).Green? <==>
              && Normalize(raw).Normalized?
              && Resolve(Normalize(raw).path, resolver).Normalized?
              && Allowlisted(Resolve(Normalize(raw).path, resolver).path, roots)
  {
    if Normalize(raw).Normalized? && Resolve(Normalize(raw).path, resolver).Normalized? {
      var path := Resolve(Normalize(raw).path, resolver).path;
      MatchIsAbove(path, roots);
      if i :| 0 <= i < |roots| && Under(path, roots[i]) {
        MatchIsLongest(path, roots, i);
      }
    }
  }

  /** The root a path is shown from is the deepest allowed root above it. */
  lemma MatchingRootIsDeepest(path: string, roots: seq<string>, i: nat)
    requires NormalRoots(roots) && i < |roots| && Under(path, roots[i])
    ensures MatchingRoot(path, roots).Some?
    ensures var root := MatchingRoot(path, roots).value;
            root in roots && Under(path, root) && Parts(roots[i]) <= Parts(root)
  {
    MatchIsLongest(path, roots, i);
    MatchIsAbove(path, roots);
    var root := MatchingRoot(path, roots).value;
    var k :| 0 <= k < |roots| && roots[k] == root;
    assert IsNormal(roots[i]) && IsNormal(roots[k]);
    LongerIsDeeper(roots[i], root, path);
  }

  // ---------- Reading a shown path back ----------

  function StripSlashes(s: string): string {
    if s != "" && s[|s| - 1] == '/' then StripSlashes(s[..|s| - 1]) else s
  }

  /** The candidate `_validate_folder_path` builds from a root and a shown path. */
  function Rejoin(root: string, display: string): string {
    StripSlashes(root) + if display == "/" then "" else display
  }

  lemma {:induction false} JoinAppend(a: seq<string>, b: seq<string>)
    requires a != [] && b != []
    ensures Join(a + b, '/') == Join(a, '/') + "/" + Join(b, '/')
  {
    var n := |b| - 1;
    if n == 0 {
      assert (a + b)[..|a|] == a;
    } else {
      JoinAppend(a, b[..n]);
      assert (a + b)[..|a| + n] == a + b[..n];
      assert Join(a, '/') + "/" + (Join(b[..n], '/') + ['/'] + b[n])
        == (Join(a, '/') + "/" + Join(b[..n], '/')) + ['/'] + b[n];
    }
  }

  lemma {:induction false} LastOfJoin(parts: seq<string>)
    requires parts != [] && AllPlain(parts)
    ensures Join(parts, '/') != ""
            && Join(parts, '/')[|Join(parts, '/')| - 1] == parts[|parts| - 1][|parts[|parts| - 1]| - 1]
  {
    assert IsPlain(parts[|parts| - 1]);
  }

  /** A normal root other than "/" has no slash to strip; the root "/" is nothing but one. */
  lemma StrippedRoot(root: string)
    requires IsNormal(root)
    ensures StripSlashes(root) == if root == "/" then "" else root
  {
    if Parts(root) != [] {
      LastOfJoin(Parts(root));
      var last := Parts(root)[|Parts(root)| - 1];
      assert last[|last| - 1] in last;
    } else {
      assert "/"[..0] == "";
      assert StripSlashes("/"[..0]) == "";
    }
  }

  lemma PathsConcatenate(above: seq<string>, below: seq<string>)
    requires above != [] && below != []
    ensures ToPath(above + below) == ToPath(above) + ToPath(below)
  {
    JoinAppend(above, below);
    assert "/" + (Join(above, '/') + "/" + Join(below, '/')) == ("/" + Join(above, '/')) + ("/" + Join(below, '/'));
  }

  lemma OnlyTheRootIsSlash(parts: seq<string>)
    requires AllPlain(parts)
    ensures ToPath(parts) == "/" <==> parts == []
  {
    if parts != [] {
      LastOfJoin(parts);
    }
  }

  lemma RejoinParts(above: seq<string>, below: seq<string>)
    requires Clean(above) && Clean(below) && above != []
    ensures Rejoin(ToPath(above), ToPath(below)) == ToPath(above + below)
  {
    PartsOfNormal(above);
    StrippedRoot(ToPath(above));
    OnlyTheRootIsSlash(above);
    OnlyTheRootIsSlash(below);
    if below == [] {
      assert above + below == above;
      assert ToPath(above) + "" == ToPath(above);
    } else {
      PathsConcatenate(above, below);
    }
  }

  lemma RejoinAtSlash(below: seq<string>)
    requires Clean(below)
    ensures Rejoin("/", ToPath(below)) == if below == [] then "" else ToPath(below)
  {
    assert "/"[..0] == "" && StripSlashes("/"[..0]) == "";
    OnlyTheRootIsSlash(below);
    assert "" + ToPath(below) == ToPath(below);
  }

  /** A normal path is what its root and its shown form make again, unless both are "/". */
  lemma RejoinRebuilds(path: string, root: string)
    requires IsNormal(path) && IsNormal(root) && Under(path, root)
    ensures Rejoin(root, Display(path, root)) == path <==> !(root == "/" && path == "/")
  {
    var above, below := Parts(root), Parts(path)[|Parts(root)|..];
    assert Parts(path) == above + below;
    OnlyTheRootIsSlash(above);
    OnlyTheRootIsSlash(Parts(path));
    if above == [] {
      RejoinAtSlash(below);
      assert above + below == below;
    } else {
      RejoinParts(above, below);
    }
  }

  /** `_validate_folder_path`: as it stands, and otherwise below each root in order. */
  function ValidateFolder(display: string, roots: seq<string>, resolver: Resolver): Validation {
    var direct := Validate(display, roots, resolver);
    if direct.Green? then direct
    else
      var joined := FirstJoined(display, roots, roots, resolver);
      if joined.Some? then joined.value else direct
  }

  function FirstJoined(display: string, candidates: seq<string>, roots: seq<string>,
                       resolver: Resolver): Option<Validation> {
    if candidates == [] then None
    else
      var first := Validate(Rejoin(candidates[0], display), roots, resolver);
      if first.Green? then Some(first) else FirstJoined(display, candidates[1..], roots, resolver)
  }

  /** Characters and ends that survive being normalized again. */
  predicate Plain(path: string) {
    path != "" && '\0' !in path && '\\' !in path && !IsSpace(path[|path| - 1])
  }

  lemma NormalPathStays(path: string)
    requires IsNormal(path) && Plain(path)
    ensures Normalize(path) == Normalized(path, false)
  {
    StripStrips(path);
    PartsOfPath(Parts(path));
  }

  /** Any normal path under an allowed root is accepted as it is. */
  lemma NormalPathIsGreen(path: string, roots: seq<string>)
    requires IsNormal(path) && Plain(path) && Allowlisted(path, roots)
    ensures Validate(path, roots, None).Green? && Validate(path, roots, None).normalized == path
  {
    NormalPathStays(path);
    GreenIsContainment(path, roots, None);
    GreenIsNormalized(path, roots);
  }

  lemma GreenIsNormalized(raw: string, roots: seq<string>)
    requires Validate(raw, roots, None).Green?
    ensures Normalize(raw).Normalized? && Validate(raw, roots, None).normalized == Normalize(raw).path
  {
  }

  /** What a shown path becomes below some root. */
  lemma RejoinBelow(root: string, below: seq<string>)
    requires IsNormal(root) && root != "/" && Clean(below)
    ensures var path := Rejoin(root, ToPath(below));
            path == ToPath(Parts(root) + below) && IsNormal(path) && Parts(path) == Parts(root) + below
              && Under(path, root)
  {
    OnlyTheRootIsSlash(Parts(root));
    RejoinParts(Parts(root), below);
    PartsOfNormal(Parts(root) + below);
  }

  lemma RejoinStaysPlain(path: string, shownFrom: string, root: string)
    requires IsNormal(path) && IsNormal(shownFrom) && Under(path, shownFrom) && Plain(path) && Plain(root)
    requires IsNormal(root) && root != "/"
    ensures Plain(Rejoin(root, Display(path, shownFrom)))
  {
    var display := Display(path, shownFrom);
    StrippedRoot(root);
    if display != "/" {
      RejoinRebuilds(path, shownFrom);
      assert path != "/" by {
        OnlyTheRootIsSlash(Parts(path));
        OnlyTheRootIsSlash(Parts(path)[|Parts(shownFrom)|..]);
      }
      assert path == StripSlashes(shownFrom) + display;
      assert path[|path| - 1] == display[|display| - 1];
      assert forall c | c in display :: c in path;
    } else {
      assert root + "" == root;
    }
  }

  lemma SameRootIffSamePath(first: string, m: string, below: seq<string>)
    requires IsNormal(first) && IsNormal(m)
    ensures Parts(first) + below == Parts(m) + below <==> first == m
  {
    if Parts(first) + below == Parts(m) + below {
      assert Parts(first) == (Parts(first) + below)[..|Parts(first)|];
      assert Parts(m) == (Parts(m) + below)[..|Parts(m)|];
    }
  }

  lemma FirstRootIsRead(display: string, roots: seq<string>)
    requires roots != [] && Validate(display, roots, None).Red?
             && Validate(Rejoin(roots[0], display), roots, None).Green?
    ensures ValidateFolder(display, roots, None) == Validate(Rejoin(roots[0], display), roots, None)
  {
  }

  lemma RootIsNormal(path: string, roots: seq<string>, m: string)
    requires NormalRoots(roots) && MatchingRoot(path, roots) == Some(m)
    ensures IsNormal(m) && Under(path, m)
  {
    MatchIsAbove(path, roots);
    var k :| 0 <= k < |roots| && roots[k] == m;
    assert IsNormal(roots[k]);
  }

  lemma BelowTheFirstIsNormal(path: string, first: string, m: string)
    requires IsNormal(first) && IsNormal(m) && IsNormal(path) && Under(path, m) && first != "/"
    ensures var candidate := Rejoin(first, Display(path, m));
            IsNormal(candidate) && Under(candidate, first) && (candidate == path <==> m == first)
  {
    var above, below := Parts(m), Parts(path)[|Parts(m)|..];
    assert Parts(path) == above + below;
    assert Clean(below) by { CleanEnd(above, below); }
    RejoinBelow(first, below);
    SameRootIffSamePath(first, m, below);
  }

  /**
   The candidate built from the first root: a normal path below it, and the shown path's own only if that is its root.
   */
  lemma BelowTheFirst(path: string, first: string, m: string)
    requires IsNormal(first) && IsNormal(m) && IsNormal(path) && Under(path, m)
    requires first != "/" && Plain(first) && Plain(path)
    ensures var candidate := Rejoin(first, Display(path, m));
            IsNormal(candidate) && Plain(candidate) && Under(candidate, first) && (candidate == path <==> m == first)
  {
    BelowTheFirstIsNormal(path, first, m);
    RejoinStaysPlain(path, m, first);
  }

  lemma ReadBelowFirst(path: string, roots: seq<string>, m: string)
    requires roots != [] && IsNormal(roots[0]) && roots[0] != "/" && Plain(roots[0]) && IsNormal(m)
    requires IsNormal(path) && Plain(path) && Under(path, m) && Validate(Display(path, m), roots, None).Red?
    ensures var v := ValidateFolder(Display(path, m), roots, None);
            v.Green? && v.normalized == Rejoin(roots[0], Display(path, m)) && (v.normalized == path <==> m == roots[0])
  {
    var display := Display(path, m);
    BelowTheFirst(path, roots[0], m);
    NormalPathIsGreen(Rejoin(roots[0], display), roots);
    FirstRootIsRead(display, roots);
  }

  /** What is shown of a path is a normal path with the remaining parts. */
  lemma ShownParts(path: string, m: string)
    requires IsNormal(path) && IsNormal(m) && Under(path, m)
    ensures IsNormal(Display(path, m)) && Parts(Display(path, m)) == Parts(path)[|Parts(m)|..]
    ensures Display(path, m) == path <==> m == "/"
  {
    var above, below := Parts(m), Parts(path)[|Parts(m)|..];
    assert Parts(path) == above + below;
    assert Clean(below) by { CleanEnd(above, below); }
    PartsOfNormal(below);
    OnlyAllIsAll(path, m, above, below);
  }

  lemma CleanEnd(above: seq<string>, below: seq<string>)
    requires Clean(above + below)
    ensures Clean(below)
  {
    forall i | 0 <= i < |below| ensures IsPlain(below[i]) && '/' !in below[i] {
      assert below[i] == (above + below)[|above| + i];
    }
  }

  lemma OnlyAllIsAll(path: string, m: string, above: seq<string>, below: seq<string>)
    requires IsNormal(path) && IsNormal(m) && Clean(below) && Parts(path) == above + below && Parts(m) == above
    ensures ToPath(below) == path <==> m == "/"
  {
    PartsOfNormal(below);
    OnlyTheRootIsSlash(above);
    if above == [] {
      assert above + below == below;
    }
  }

  /** Unless it is only "/", it is the end of the path's text. */
  lemma ShownIsTheEnd(path: string, m: string) returns (n: nat)
    requires IsNormal(path) && IsNormal(m) && Under(path, m)
    ensures n <= |path| && (Display(path, m) == "/" || Display(path, m) == path[n..])
  {
    var above, below := Parts(m), Parts(path)[|Parts(m)|..];
    assert Parts(path) == above + below;
    n := 0;
    if above == [] {
      assert above + below == below;
    } else if below != [] {
      PathsConcatenate(above, below);
      n := |m|;
      assert path[n..] == ToPath(below);
    }
  }

  /** What is shown of a plain normal path is one too, and stays below the root it is shown from. */
  lemma DisplayIsNormal(path: string, m: string)
    requires IsNormal(path) && Plain(path) && IsNormal(m) && Under(path, m)
    ensures var display := Display(path, m);
            IsNormal(display) && Plain(display) && Parts(display) == Parts(path)[|Parts(m)|..]
    ensures Display(path, m) == path <==> m == "/"
  {
    var display := Display(path, m);
    var n := ShownIsTheEnd(path, m);
    ShownParts(path, m);
    if display != "/" {
      assert display != "" && display[|display| - 1] == path[|path| - 1];
      assert forall c | c in display :: c in path;
    }
  }

  lemma AllowedIffGreen(path: string, roots: seq<string>)
    requires IsNormal(path) && Plain(path)
    ensures Allowlisted(path, roots) <==> Validate(path, roots, None).Green?
  {
    NormalPathStays(path);
    GreenIsContainment(path, roots, None);
  }

  /**
   A path shown from root `m` is read back as itself exactly when "/" is that root, so that all of it is shown, or
   what is shown is not itself under some root and `m` is the first root.
   */
  lemma ReadBackIffFirstRoot(path: string, roots: seq<string>, m: string)
    requires NormalRoots(roots) && roots != [] && Plain(roots[0])
    requires IsNormal(path) && Plain(path) && MatchingRoot(path, roots) == Some(m) && Under(path, m)
    ensures var display := Display(path, m);
            var v := ValidateFolder(display, roots, None);
            && v.Green?
            && (v.normalized == path <==> m == "/" || (!Allowlisted(display, roots) && m == roots[0]))
            && v.normalized == if Allowlisted(display, roots) then display else Rejoin(roots[0], display)
  {
    var display := Display(path, m);
    assert IsNormal(m) by { RootIsNormal(path, roots, m); }
    if Allowlisted(display, roots) {
      ShownAllowed(path, roots, m);
    } else {
      assert IsNormal(roots[0]);
      assert roots[0] != "/" && m != "/" by { SlashAllowsAll(display, roots); MatchIsAbove(path, roots); }
      assert Validate(display, roots, None).Red? by { DisplayIsNormal(path, m); AllowedIffGreen(display, roots); }
      ReadBelowFirst(path, roots, m);
    }
  }

  lemma ShownAllowed(path: string, roots: seq<string>, m: string)
    requires IsNormal(path) && Plain(path) && IsNormal(m) && Under(path, m) && Allowlisted(Display(path, m), roots)
    ensures var v := ValidateFolder(Display(path, m), roots, None);
            v.Green? && v.normalized == Display(path, m) && (v.normalized == path <==> m == "/")
  {
    DisplayIsNormal(path, m);
    NormalPathIsGreen(Display(path, m), roots);
  }

  lemma SlashAllowsAll(path: string, roots: seq<string>)
    ensures "/" in roots ==> Allowlisted(path, roots)
  {
    assert Parts("/") == [] by { PartsOfNormal([]); }
    if i :| 0 <= i < |roots| && roots[i] == "/" {
      assert Under(path, roots[i]);
    }
  }

  /** The same from the folder an operator enters: what a green answer shows, entered again. */
  lemma ShownFolderIsReadBack(raw: string, roots: seq<string>)
    requires NormalRoots(roots) && roots != [] && Plain(roots[0])
    requires Validate(raw, roots, None).Green?
    requires Plain(Validate(raw, roots, None).normalized)
    ensures var v := Validate(raw, roots, None);
            var again := ValidateFolder(v.display, roots, None);
            var root := MatchingRoot(v.normalized, roots);
            && again.Green? && root.Some?
            && (again.normalized == v.normalized
                <==> root.value == "/" || (!Allowlisted(v.display, roots) && root.value == roots[0]))
  {
    var path := Normalize(raw).path;
    NormalizedIsNormal(raw);
    MatchIsAbove(path, roots);
    ReadBackIffFirstRoot(path, roots, MatchingRoot(path, roots).value);
  }

  predicate EndsInSpace(path: string) {
    path != "" && IsSpace(path[|path| - 1])
  }

  /** Reading a path that ends in white space strips it: what comes of it is shorter. */
  lemma StrippedIsShorter(path: string)
    requires path != "" && path[0] == '/' && EndsInSpace(path)
    ensures Normalize(path).Normalized? ==> |Normalize(path).path| < |path|
  {
    assert StripLeft(path) == path by { StripLeftEnds(path); }
    StripRightShrinks(path);
    if Normalize(path).Normalized? {
      NormalizeShrinks(path);
    }
  }

  lemma ShownIsNotLonger(path: string, root: string)
    requires IsNormal(path) && IsNormal(root) && Under(path, root) && EndsInSpace(path)
    ensures var shown := Display(path, root);
            && shown != "" && shown[0] == '/' && |shown| <= |path| && (shown == "/" || EndsInSpace(shown))
  {
    var shown := Display(path, root);
    var n := ShownIsTheEnd(path, root);
    if shown != "/" {
      assert shown != "" && shown[|shown| - 1] == path[|path| - 1];
    }
  }

  /** What a text no longer than the path is read as is not the path. */
  lemma ReadShorter(text: string, path: string, roots: seq<string>)
    requires text != "" && text[0] == '/' && |text| <= |path| && EndsInSpace(path) && |path| > 1
    requires text == "/" || EndsInSpace(text)
    ensures var v := Validate(text, roots, None); v.Green? ==> v.normalized != path
  {
    if Normalize(text).Normalized? {
      if text == "/" {
        assert Strip("/") == "/" by { StripStrips("/"); }
        NormalizeShrinks(text);
      } else {
        StrippedIsShorter(text);
      }
    }
  }

  lemma OneRootReads(shown: string, root: string)
    ensures ValidateFolder(shown, [root], None)
            in {Validate(shown, [root], None), Validate(Rejoin(root, shown), [root], None)}
  {
    assert FirstJoined(shown, [root][1..], [root], None) == None;
  }

  /** With one root, a path that ends in white space is never read back as itself. */
  lemma SpaceIsLost(path: string, root: string)
    requires IsNormal(path) && IsNormal(root) && Under(path, root) && EndsInSpace(path)
    ensures var v := ValidateFolder(Display(path, root), [root], None); v.Green? ==> v.normalized != path
  {
    var shown := Display(path, root);
    OneRootReads(shown, root);
    assert path[0] == '/' && path != "/";
    ShownIsNotLonger(path, root);
    ReadShorter(shown, path, [root]);
    RejoinRebuilds(path, root);
    ReadShorter(path, path, [root]);
  }

  /** One root, and a folder below it that repeats its name: what is shown names another folder. */
  lemma RepeatedNameIsLost(name: string, rest: string)
    requires Clean([name, rest]) && Plain(rest) && '\0' !in name && '\\' !in name
    ensures var root, path, shown := "/" + name, "/" + name + "/" + name + "/" + rest, "/" + name + "/" + rest;
            && Validate(path, [root], None) == Green(path, shown)
            && ValidateFolder(shown, [root], None).Green?
            && ValidateFolder(shown, [root], None).normalized == shown != path
  {
    var root, path, shown := "/" + name, "/" + name + "/" + name + "/" + rest, "/" + name + "/" + rest;
    assert Clean([name, name, rest]) && Clean([name, rest, rest]) by {
      assert name == [name, rest][0] && rest == [name, rest][1];
    }
    PartsOfShortPaths(name, name, rest);
    PartsOfShortPaths(name, rest, rest);
    assert [name, name, rest][1..] == [name, rest];
    assert ToPath([name, rest]) == shown by { ShortPaths(name, rest, rest); }
    assert Plain(path) && Plain(shown) by { PlainShortPaths(name, rest); }
    RepeatedName(path, shown, root);
  }

  lemma PartsOfShortPaths(a: string, b: string, c: string)
    requires Clean([a, b, c])
    ensures IsNormal("/" + a) && Parts("/" + a) == [a]
    ensures IsNormal("/" + a + "/" + b) && Parts("/" + a + "/" + b) == [a, b]
    ensures IsNormal("/" + a + "/" + b + "/" + c) && Parts("/" + a + "/" + b + "/" + c) == [a, b, c]
  {
    ShortPaths(a, b, c);
    assert a == [a, b, c][0] && b == [a, b, c][1] && c == [a, b, c][2];
    PartsOfNormal([a]);
    PartsOfNormal([a, b]);
    PartsOfNormal([a, b, c]);
  }

  lemma PlainShortPaths(name: string, rest: string)
    requires Plain(rest) && '\0' !in name && '\\' !in name
    ensures Plain("/" + name + "/" + rest) && Plain("/" + name + "/" + name + "/" + rest)
  {
    var shown, path := "/" + name + "/" + rest, "/" + name + "/" + name + "/" + rest;
    assert path[|path| - 1] == rest[|rest| - 1] == shown[|shown| - 1];
  }

  lemma RepeatedDataIsLost(path: string, root: string)
    requires path == "/data/data/x" && root == "/data"
    ensures Validate(path, [root], None) == Green(path, "/data/x")
    ensures var v := ValidateFolder(Validate(path, [root], None).display, [root], None);
            v.Green? && v.normalized == "/data/x"
  {
    var name, rest := [path[1], path[2], path[3], path[4]], [path[11]];
    assert path == "/" + name + "/" + name + "/" + rest && root == "/" + name && "/data/x" == "/" + name + "/" + rest;
    assert Clean([name, rest]) && Plain(rest) && '\0' !in name && '\\' !in name;
    RepeatedNameIsLost(name, rest);
  }

  lemma ShortPaths(a: string, b: string, c: string)
    ensures ToPath([a]) == "/" + a
    ensures ToPath([a, b]) == "/" + a + "/" + b
    ensures ToPath([a, b, c]) == "/" + a + "/" + b + "/" + c
  {
    assert [a, b][..1] == [a];
    assert [a, b, c][..2] == [a, b];
    assert Join([a, b], '/') == a + "/" + b;
    assert Join([a, b, c], '/') == Join([a, b], '/') + "/" + c;
  }

  lemma RepeatedName(path: string, below: string, root: string)
    requires IsNormal(path) && IsNormal(below) && Plain(path) && Plain(below)
    requires Under(path, root) && Under(below, root) && Display(path, root) == below
    ensures Validate(path, [root], None) == Green(path, below)
    ensures ValidateFolder(below, [root], None).Green? && ValidateFolder(below, [root], None).normalized == below
  {
    assert [root][..0] == [];
    assert MatchingRoot(path, [root]) == Some(root);
    NormalPathStays(path);
    assert Under(below, [root][0]);
    NormalPathIsGreen(below, [root]);
  }

  // ---------- What the policy answers, case by case ----------

  /**
   A normal path lies under a normal root exactly if it is the root, or the root is "/", or its text goes on with a
   slash where the root's ends.
   */
  lemma UnderIsTextual(path: string, root: string)
    requires IsNormal(path) && IsNormal(root)
    ensures Under(path, root) <==> path == root || root == "/" || root + "/" <= path
  {
    var above, parts := Parts(root), Parts(path);
    OnlyTheRootIsSlash(above);
    if root != "/" && above <= parts {
      UnderStartsWith(path, root);
    }
    if root != "/" && root + "/" <= path {
      StartsWithUnder(path, root);
    }
  }

  lemma UnderStartsWith(path: string, root: string)
    requires IsNormal(path) && IsNormal(root) && Under(path, root) && root != "/"
    ensures path == root || root + "/" <= path
  {
    var above, below := Parts(root), Parts(path)[|Parts(root)|..];
    assert Parts(path) == above + below;
    OnlyTheRootIsSlash(above);
    if below == [] {
      assert above + below == above;
    } else {
      PathsConcatenate(above, below);
      assert path == root + ("/" + Join(below, '/'));
    }
  }

  lemma StartsWithUnder(path: string, root: string)
    requires IsNormal(path) && IsNormal(root) && root + "/" <= path
    ensures Under(path, root)
  {
    var rest := path[|root| + 1..];
    var before, after, more := Split(root, '/'), Split(path, '/'), Split(rest, '/');
    assert path == root + ['/'] + rest;
    assert after == before + more by { SplitOfBoth(root, rest); }
    SplitOfPath(Parts(root));
    SplitOfPath(Parts(path));
    if Parts(root) != [] {
      PrefixAfterFirst("", Parts(root), more, Parts(path), after);
    }
  }

  lemma PrefixAfterFirst(first: string, a: seq<string>, more: seq<string>, b: seq<string>, all: seq<string>)
    requires all == [first] + a + more && a != [] && more != []
    requires all == [first] + if b == [] then [first] else b
    ensures a <= b
  {
    assert |all| >= 3;
    assert b == all[1..] && a + more == all[1..];
  }

  lemma AddToTheEnd(a: seq<string>, b: seq<string>, part: string)
    requires b != []
    ensures AddToLast(a + b, part) == a + AddToLast(b, part)
  {
    assert (a + b)[..|a + b| - 1] == a + b[..|b| - 1];
  }

  lemma {:induction false} SplitOfBoth(a: string, b: string)
    ensures Split(a + ['/'] + b, '/') == Split(a, '/') + Split(b, '/')
  {
    if b == "" {
      SplitAfterSeparator(a, "", '/');
    } else {
      var n := |b| - 1;
      SplitOfBoth(a, b[..n]);
      assert a + ['/'] + b == (a + ['/'] + b[..n]) + [b[n]] && b == b[..n] + [b[n]];
      SplitOfBothOnce(a + ['/'] + b[..n], Split(a, '/'), b[..n], b[n]);
    }
  }

  lemma SplitOfBothOnce(front: string, before: seq<string>, b: string, c: char)
    requires Split(front, '/') == before + Split(b, '/')
    ensures Split(front + [c], '/') == before + Split(b + [c], '/')
  {
    SplitOneMore(front, c, '/');
    SplitOneMore(b, c, '/');
    AddToTheEnd(before, Split(b, '/'), [c]);
  }

  /** What the path stands for: itself, or what a configured resolver makes of it, normalized. */
  function StandsFor(path: string, resolver: Resolver): NormalizedPath {
    match resolver
    case None => Normalized(path, false)
    case Some(link) => Normalize(link(path))
  }

  /**
   The answer for any text: a text that cannot be normalized is refused for that reason; one that stands for something
   under an allowed root is green, as that, shown from the deepest such root; one that itself lies under a root but does
   not stand for such a thing is an escape by a link; and any other is a traversal if it had "..", or not allowed.
   */
  lemma ValidationIsDecided(raw: string, roots: seq<string>, resolver: Resolver)
    ensures var v, candidate := Validate(raw, roots, resolver), Normalize(raw);
            if candidate.Rejected? then v == Red(candidate.code)
            else
              var target := StandsFor(candidate.path, resolver);
              if target.Rejected? then v == Red(PathSymlinkEscape)
              else if Allowlisted(target.path, roots) then
                && MatchingRoot(target.path, roots).Some?
                && var root := MatchingRoot(target.path, roots).value;
                   Under(target.path, root) && v == Green(target.path, Display(target.path, root))
              else if Allowlisted(candidate.path, roots) then v == Red(PathSymlinkEscape)
              else v == Red(if candidate.hadParent then PathTraversalRejected else PathNotAllowlisted)
  {
    if Normalize(raw).Normalized? {
      var path := Normalize(raw).path;
      MatchIffAllowed(path, roots);
      if Resolve(path, resolver).Normalized? {
        MatchIffAllowed(Resolve(path, resolver).path, roots);
      }
    }
  }

  lemma MatchIffAllowed(path: string, roots: seq<string>)
    ensures MatchingRoot(path, roots).Some? <==> Allowlisted(path, roots)
    ensures MatchingRoot(path, roots).Some? ==> Under(path, MatchingRoot(path, roots).value)
  {
    MatchIsAbove(path, roots);
    if i :| 0 <= i < |roots| && Under(path, roots[i]) {
      MatchIsLongest(path, roots, i);
    }
  }
}
