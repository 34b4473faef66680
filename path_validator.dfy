/**
 * Path-traversal defences of the web server (PathValidator.java): a case-insensitive scan for
 * traversal sequences, file-name sanitising, and the containment test on normalised,
 * absolutised paths. Paths follow `java.nio` on a Unix file system: a parsed path is its
 * absoluteness and its list of non-empty names.
 */
module PathValidator {
  import opened Wrappers
  import opened Text

  // ---------------------------------------------------------------------------------------
  // Traversal sequences
  // ---------------------------------------------------------------------------------------

  /** The five sequences every pattern of `containsTraversalSequence` comes down to. */
  predicate HasTraversal(s: string)
  {
    Contains(s, "..") || Contains(s, "%2e%2e") || Contains(s, "%252e") || Contains(s, ".%2e") || Contains(s, "%2e.")
  }

  /** The slash and backslash variants each contain a shorter pattern. */
  lemma LongerPatternsReduce(s: string)
    ensures Contains(s, "..%2f") || Contains(s, "..%5c") ==> Contains(s, "..")
    ensures Contains(s, "%2e%2e%2f") || Contains(s, "%2e%2e%5c") ==> Contains(s, "%2e%2e")
  {
    if Contains(s, "..%2f") { ContainsPrefixOf(s, "..%2f", ".."); }
    if Contains(s, "..%5c") { ContainsPrefixOf(s, "..%5c", ".."); }
    if Contains(s, "%2e%2e%2f") { ContainsPrefixOf(s, "%2e%2e%2f", "%2e%2e"); }
    if Contains(s, "%2e%2e%5c") { ContainsPrefixOf(s, "%2e%2e%5c", "%2e%2e"); }
  }

  /**
   * `containsTraversalSequence`: false for null; otherwise the lower-cased input is searched for
   * "..", five encoded variants and two mixed ones. The four patterns that extend another one
   * add nothing, so the test is the five-sequence one.
   */
  function ContainsTraversalSequence(input: Option<string>): (r: bool)
    ensures input.None? ==> !r
    ensures input.Some? ==> (r <==> HasTraversal(ToLower(input.value)))
  {
    if input.None? then false
    else
      var lower := ToLower(input.value);
      LongerPatternsReduce(lower);
      Contains(lower, "..")
      || (Contains(lower, "%2e%2e") || Contains(lower, "%252e") || Contains(lower, "..%2f")
          || Contains(lower, "..%5c") || Contains(lower, "%2e%2e%2f") || Contains(lower, "%2e%2e%5c"))
      || (Contains(lower, ".%2e") || Contains(lower, "%2e."))
  }

  /** The scan ignores case: an input and its lower-cased form are flagged alike. */
  lemma TraversalCaseInsensitive(s: string)
    ensures ContainsTraversalSequence(Some(s)) == ContainsTraversalSequence(Some(ToLower(s)))
  {
    ToLowerIdempotent(s);
  }

  /** Lowering keeps '.' and '%' where they are and makes no new ones. */
  lemma LowerKeepsDotAndPercent(s: string)
    ensures forall i :: 0 <= i < |s| ==> (ToLower(s)[i] == '.' <==> s[i] == '.')
    ensures ('%' in ToLower(s)) <==> ('%' in s)
  {
    if '%' in ToLower(s) {
      var i :| 0 <= i < |s| && ToLower(s)[i] == '%';
      assert s[i] == '%';
    }
    if '%' in s {
      var i :| 0 <= i < |s| && s[i] == '%';
      assert ToLower(s)[i] == '%';
    }
  }

  /** Lowering neither creates nor removes a "..". */
  lemma LowerDotDot(s: string)
    ensures Contains(ToLower(s), "..") <==> Contains(s, "..")
  {
    var l := ToLower(s);
    LowerKeepsDotAndPercent(s);
    if Contains(l, "..") {
      var i :| 0 <= i <= |l| - 2 && OccursAt(l, "..", i);
      assert l[i] == l[i..i + 2][0] && l[i + 1] == l[i..i + 2][1];
      assert s[i..i + 2] == "..";
      assert OccursAt(s, "..", i);
    }
    if Contains(s, "..") {
      var i :| 0 <= i <= |s| - 2 && OccursAt(s, "..", i);
      assert s[i] == s[i..i + 2][0] && s[i + 1] == s[i..i + 2][1];
      assert l[i..i + 2] == "..";
      assert OccursAt(l, "..", i);
    }
  }

  /** Without a '%', an input is flagged exactly when it contains "..". */
  lemma TraversalWithoutPercent(s: string)
    requires '%' !in s
    ensures ContainsTraversalSequence(Some(s)) <==> Contains(s, "..")
  {
    var l := ToLower(s);
    LowerKeepsDotAndPercent(s);
    LowerDotDot(s);
    if Contains(l, "%2e%2e") { ContainsChars(l, "%2e%2e", '%'); }
    if Contains(l, "%252e") { ContainsChars(l, "%252e", '%'); }
    if Contains(l, ".%2e") { ContainsChars(l, ".%2e", '%'); }
    if Contains(l, "%2e.") { ContainsChars(l, "%2e.", '%'); }
  }

  // ---------------------------------------------------------------------------------------
  // File names
  // ---------------------------------------------------------------------------------------

  /** The text after the last '/' or '\\' (all of it when there is neither). */
  function AfterLastSeparator(s: string): (r: string)
    ensures '/' !in r && '\\' !in r
    ensures |r| <= |s| && r == s[|s| - |r|..]
    ensures '/' !in s && '\\' !in s ==> r == s
  {
    var slash := LastIndexOf(s, '/');
    var backslash := LastIndexOf(s, '\\');
    var cut := if slash >= backslash then slash else backslash;
    if cut < 0 then s
    else
      assert slash >= 0 ==> s[cut + 1..] == s[slash + 1..][cut - slash..];
      assert backslash >= 0 ==> s[cut + 1..] == s[backslash + 1..][cut - backslash..];
      s[cut + 1..]
  }

  /** The last separator decides: whatever comes before it is dropped. */
  lemma AfterLastSeparatorOf(dir: string, sep: char, name: string)
    requires sep == '/' || sep == '\\'
    requires '/' !in name && '\\' !in name
    ensures AfterLastSeparator(dir + [sep] + name) == name
  {
    var s := dir + [sep] + name;
    assert s[|dir|] == sep;
    assert s[|dir| + 1..] == name;
    LastIndexOfAfter(dir, sep, name);
    assert forall k | |dir| < k < |s| :: s[k] == name[k - |dir| - 1];
  }

  /** `replace("\0", "").replace("\n", "").replace("\r", "")`. */
  function StripControl(s: string): (r: string)
    ensures '\0' !in r && '\n' !in r && '\r' !in r
    ensures forall c :: c in r ==> c in s
    ensures '\0' !in s && '\n' !in s && '\r' !in s ==> r == s
  {
    var a := RemoveAll(s, "\0");
    var b := RemoveAll(a, "\n");
    RemoveCharGone(s, '\0');
    RemoveCharGone(a, '\n');
    RemoveCharGone(b, '\r');
    RemoveAbsentChar(s, '\0');
    RemoveAbsentChar(s, '\n');
    RemoveAbsentChar(s, '\r');
    RemoveAll(b, "\r")
  }

  /** No path separator and no control character the sanitiser strips. */
  predicate PlainName(s: string)
  {
    '/' !in s && '\\' !in s && '\0' !in s && '\n' !in s && '\r' !in s
  }

  /**
   * `sanitizeFileName`: null for a null, empty or traversal-flagged name; otherwise the text after
   * the last separator with NUL, LF and CR removed, unless that is empty or starts with '.'.
   */
  function SanitizeFileName(fileName: Option<string>): (r: Option<string>)
    ensures fileName.None? || fileName == Some("") || ContainsTraversalSequence(fileName) ==> r.None?
    ensures r.Some? ==> |r.value| > 0 && r.value[0] != '.' && PlainName(r.value)
    ensures r.Some? ==> forall c :: c in r.value ==> c in fileName.value
  {
    if fileName.None? || fileName.value == "" then None
    else if ContainsTraversalSequence(fileName) then None
    else
      var last := AfterLastSeparator(fileName.value);
      var sanitized := StripControl(last);
      if sanitized == "" then None
      else if sanitized[0] == '.' then None
      else Some(sanitized)
  }

  /** A plain name not starting with '.' after any directory part comes back as the bare name. */
  lemma SanitizeKeepsLastName(dir: string, sep: char, name: string)
    requires sep == '/' || sep == '\\'
    requires PlainName(name) && name != "" && name[0] != '.'
    requires !ContainsTraversalSequence(Some(dir + [sep] + name))
    ensures SanitizeFileName(Some(dir + [sep] + name)) == Some(name)
  {
    AfterLastSeparatorOf(dir, sep, name);
  }

  /** A name that is already plain is returned unchanged. */
  lemma SanitizePlainUnchanged(name: string)
    requires PlainName(name) && name != "" && name[0] != '.'
    requires !ContainsTraversalSequence(Some(name))
    ensures SanitizeFileName(Some(name)) == Some(name)
  {
  }

  /** Without separators, the sanitiser only strips the control characters. */
  lemma SanitizeWithoutSeparators(s: string)
    requires s != "" && '/' !in s && '\\' !in s && !ContainsTraversalSequence(Some(s))
    ensures StripControl(s) != "" && StripControl(s)[0] != '.' ==> SanitizeFileName(Some(s)) == Some(StripControl(s))
  {
  }

  lemma DotsTogether()
    ensures HasTraversal("a..b")
  {
    assert OccursAt("a..b", "..", 1);
  }

  /** Dropping the NUL of "a.\0.b" brings its dots together. */
  lemma NulRemoved()
    ensures StripControl("a.\0.b") == "a..b"
  {
    var s := "a.\0.b";
    assert RemoveAll(s, "\0") == "a..b" by {
      assert s[..1] != "\0" && s[1..][..1] != "\0" && s[2..][..1] == "\0";
      assert s[1..][1..] == s[2..] && s[2..][1..] == ".b";
      assert RemoveAll(".b", "\0") == ".b" by {
        assert ".b"[..1] != "\0" && ".b"[1..] == "b" && "b"[..1] != "\0";
      }
    }
    RemoveAbsentChar("a..b", '\n');
    RemoveAbsentChar("a..b", '\r');
  }

  /**
   * The traversal scan runs before the NUL bytes are stripped, so a name can pass it and still
   * come out with "..": "a.\0.b" becomes "a..b".
   */
  lemma SanitizeCanFormDotDot()
    ensures SanitizeFileName(Some("a.\0.b")) == Some("a..b")
    ensures HasTraversal("a..b")
  {
    var s := "a.\0.b";
    assert s[0] == 'a' && s[1] == '.' && s[2] == '\0' && s[3] == '.' && s[4] == 'b';
    NoDoubledChar(s, '.');
    assert ['.', '.'] == "..";
    assert '%' !in s && '/' !in s && '\\' !in s;
    TraversalWithoutPercent(s);
    NulRemoved();
    SanitizeWithoutSeparators(s);
    DotsTogether();
  }

  // ---------------------------------------------------------------------------------------
  // Paths
  // ---------------------------------------------------------------------------------------

  /** A `java.nio.file.Path` on a Unix file system. */
  datatype JPath = JPath(absolute: bool, names: seq<string>)

  /** `Paths.get` refuses a string with a NUL character. */
  datatype PathError = NulCharacter(input: string)

  /** The non-empty strings of a list, in order (repeated and trailing separators collapse). */
  function NonEmptyNames(pieces: seq<string>): (r: seq<string>)
    ensures forall n :: n in r ==> n in pieces && n != ""
    ensures (forall p :: p in pieces ==> p != "") ==> r == pieces
  {
    if |pieces| == 0 then []
    else
      assert forall p :: p in pieces[1..] ==> p in pieces;
      assert pieces[0] in pieces && [pieces[0]] + pieces[1..] == pieces;
      (if pieces[0] == "" then [] else [pieces[0]]) + NonEmptyNames(pieces[1..])
  }

  /** `Paths.get(s)`: absolute when it starts with '/', named by the non-empty pieces between separators. */
  function ParsePath(s: string): (r: Result<JPath, PathError>)
    ensures r.Err? <==> '\0' in s
    ensures r.Ok? ==> r.value.absolute == StartsWith(s, "/")
    ensures r.Ok? ==> forall n :: n in r.value.names ==> n != "" && '/' !in n && Contains(s, n)
  {
    if '\0' in s then Err(NulCharacter(s))
    else
      PiecesParts(s, '/');
      Ok(JPath(StartsWith(s, "/"), NonEmptyNames(Pieces(s, '/'))))
  }

  /** A non-empty name without '/' parses to a one-name relative path. */
  lemma ParsePlainName(s: string)
    requires s != "" && '/' !in s && '\0' !in s
    ensures ParsePath(s) == Ok(JPath(false, [s]))
  {
    PiecesOfPlain(s, '/');
  }

  /** `p.resolve(other)`: an absolute `other` replaces `p`, a relative one is appended to it. */
  function Resolve(p: JPath, other: JPath): (r: JPath)
    ensures other.absolute ==> r == other
    ensures !other.absolute ==> r.absolute == p.absolute && r.names == p.names + other.names
  {
    if other.absolute then other else JPath(p.absolute, p.names + other.names)
  }

  /**
   * `normalize()` on the names: "." is dropped, ".." removes the name before it; a ".." with
   * nothing to remove is dropped at the root of an absolute path and kept in a relative one.
   */
  function NormalizeNames(names: seq<string>, absolute: bool): (r: seq<string>)
    ensures "." !in r
    ensures absolute ==> ".." !in r
    decreases |names|
  {
    if |names| == 0 then []
    else
      var init := NormalizeNames(names[..|names| - 1], absolute);
      var n := names[|names| - 1];
      if n == "." then init
      else if n == ".." then
        if |init| > 0 && init[|init| - 1] != ".." then init[..|init| - 1]
        else if absolute then init
        else init + [".."]
      else init + [n]
  }

  function Normalize(p: JPath): JPath
  {
    JPath(p.absolute, NormalizeNames(p.names, p.absolute))
  }

  /** `toAbsolutePath()`, with `cwd` the names of the working directory; the result is not normalised. */
  function ToAbsolute(p: JPath, cwd: seq<string>): (r: JPath)
    ensures r.absolute
  {
    if p.absolute then p else JPath(true, cwd + p.names)
  }

  /**
   * `isPathSafe(Path, Path)`: the request, normalised and then made absolute, starts with the base
   * treated the same way. `startsWith` compares whole names, and both sides are absolute.
   */
  function IsPathSafe(requested: JPath, base: JPath, cwd: seq<string>): (r: bool)
    ensures r <==> ToAbsolute(Normalize(base), cwd).names <= ToAbsolute(Normalize(requested), cwd).names
  {
    var rq := ToAbsolute(Normalize(requested), cwd);
    var b := ToAbsolute(Normalize(base), cwd);
    |b.names| <= |rq.names| && b.names == rq.names[..|b.names|]
  }

  /** `isPathSafe(String, Path)`: a string `Paths.get` refuses is unsafe. */
  function IsPathSafeString(requested: string, base: JPath, cwd: seq<string>): (r: bool)
    ensures r <==> '\0' !in requested && IsPathSafe(ParsePath(requested).value, base, cwd)
  {
    match ParsePath(requested)
    case Err(_) => false
    case Ok(p) => IsPathSafe(p, base, cwd)
  }

  /** The containment test is on names, not characters: "/srv/trees2" is not inside "/srv/trees". */
  lemma SafetyComparesNames(cwd: seq<string>)
    ensures StartsWith("/srv/trees2", "/srv/trees")
    ensures !IsPathSafe(JPath(true, ["srv", "trees2"]), JPath(true, ["srv", "trees"]), cwd)
  {
    assert NormalizeNames(["srv", "trees2"], true) == ["srv", "trees2"] by {
      assert ["srv", "trees2"][..1] == ["srv"];
      assert NormalizeNames(["srv"], true) == ["srv"];
    }
    assert NormalizeNames(["srv", "trees"], true) == ["srv", "trees"] by {
      assert ["srv", "trees"][..1] == ["srv"];
      assert NormalizeNames(["srv"], true) == ["srv"];
    }
  }

  /** Appending names without ".." keeps what the normalised path started with. */
  lemma {:induction false} NormalizeExtends(names: seq<string>, more: seq<string>, absolute: bool)
    requires ".." !in more
    ensures NormalizeNames(names, absolute) <= NormalizeNames(names + more, absolute)
    decreases |more|
  {
    if |more| == 0 {
      assert names + more == names;
    } else {
      var init := more[..|more| - 1];
      NormalizeExtends(names, init, absolute);
      assert (names + more)[..|names + more| - 1] == names + init;
    }
  }

  /** A base and a path below it, with names without "..", is safe whatever the working directory. */
  lemma BelowBaseIsSafe(base: JPath, more: seq<string>, cwd: seq<string>)
    requires ".." !in more
    ensures IsPathSafe(JPath(base.absolute, base.names + more), base, cwd)
  {
    NormalizeExtends(base.names, more, base.absolute);
  }

  // ---------------------------------------------------------------------------------------
  // Resolving inside a base directory
  // ---------------------------------------------------------------------------------------

  /** What the resolving methods throw. */
  datatype ResolveError =
    | InvalidFileName(fileName: Option<string>)     // SecurityException: sanitising failed
    | EmptyPath                                     // SecurityException: null or empty relative path
    | TraversalDetected(input: string)              // SecurityException: traversal sequence or escape
    | Escaped(relativePath: string)                 // SecurityException: outside the base after resolving
    | Unparsable(error: PathError)                  // InvalidPathException from `resolve`

  /**
   * `resolveSafePath`: the sanitised name resolved against the base, or a SecurityException. The
   * second check can never fail: a sanitised name is one plain name, so it always lands directly
   * inside the base.
   */
  function ResolveSafePath(fileName: Option<string>, base: JPath, cwd: seq<string>): (r: Result<JPath, ResolveError>)
    ensures SanitizeFileName(fileName).None? <==> r == Err(InvalidFileName(fileName))
    ensures SanitizeFileName(fileName).Some? ==>
              r == Ok(JPath(base.absolute, base.names + [SanitizeFileName(fileName).value]))
    ensures r.Ok? ==> IsPathSafe(r.value, base, cwd)
  {
    var sanitized := SanitizeFileName(fileName);
    if sanitized.None? then Err(InvalidFileName(fileName))
    else
      ParsePlainName(sanitized.value);
      BelowBaseIsSafe(base, [sanitized.value], cwd);
      match ParsePath(sanitized.value)
      case Err(e) => Err(Unparsable(e))
      case Ok(p) =>
        var resolved := Resolve(base, p);
        if !IsPathSafe(resolved, base, cwd) then Err(TraversalDetected(fileName.GetOr("")))
        else Ok(resolved)
  }

  /**
   * `resolveSafeRelativePath`: refuses a null or empty path and a traversal-flagged one, resolves
   * the rest (subdirectories included) against the base and refuses a result outside it.
   */
  function ResolveSafeRelativePath(relativePath: Option<string>, base: JPath, cwd: seq<string>): (r: Result<JPath, ResolveError>)
    ensures relativePath.None? || relativePath == Some("") ==> r == Err(EmptyPath)
    ensures relativePath.Some? && relativePath.value != "" && ContainsTraversalSequence(relativePath) ==>
              r == Err(TraversalDetected(relativePath.value))
    ensures r.Ok? ==> relativePath.Some? && ParsePath(relativePath.value).Ok? &&
                      r.value == Resolve(base, ParsePath(relativePath.value).value) && IsPathSafe(r.value, base, cwd)
  {
    if relativePath.None? || relativePath.value == "" then Err(EmptyPath)
    else if ContainsTraversalSequence(relativePath) then Err(TraversalDetected(relativePath.value))
    else
      match ParsePath(relativePath.value)
      case Err(e) => Err(Unparsable(e))
      case Ok(p) =>
        var resolved := Resolve(base, p);
        if !IsPathSafe(resolved, base, cwd) then Err(Escaped(relativePath.value))
        else Ok(resolved)
  }

  /**
   * An accepted relative path that does not start with '/' keeps its subdirectory names below the
   * base, and the escape check never fires for it: without ".." nothing can climb out.
   */
  lemma RelativePathStaysInside(relativePath: string, base: JPath, cwd: seq<string>)
    requires relativePath != "" && !StartsWith(relativePath, "/") && '\0' !in relativePath
    requires !ContainsTraversalSequence(Some(relativePath))
    ensures ResolveSafeRelativePath(Some(relativePath), base, cwd) ==
            Ok(JPath(base.absolute, base.names + ParsePath(relativePath).value.names))
  {
    var names := ParsePath(relativePath).value.names;
    LowerDotDot(relativePath);
    assert !Contains(relativePath, "..");
    assert ".." !in names;
    BelowBaseIsSafe(base, names, cwd);
  }

  /** "/name" parses to an absolute path of one name. */
  lemma ParseRootedName(name: string)
    requires name != "" && '/' !in name && '\0' !in name
    ensures ParsePath("/" + name) == Ok(JPath(true, [name]))
  {
    PiecesAppend("", '/', name);
    assert "" + ['/'] + name == "/" + name;
    PiecesOfPlain(name, '/');
    assert NonEmptyNames(["", name]) == [name] by {
      assert ["", name][1..] == [name];
    }
  }

  /** "/etc" has none of the traversal sequences. */
  lemma EtcNotFlagged()
    ensures !ContainsTraversalSequence(Some("/etc"))
  {
    var s := "/etc";
    assert '.' !in s && '%' !in s;
    TraversalWithoutPercent(s);
    if Contains(s, "..") { ContainsChars(s, "..", '.'); }
  }

  /** An absolute path outside the base is refused even though it has no traversal sequence. */
  lemma AbsoluteOutsideRefused(cwd: seq<string>)
    ensures ResolveSafeRelativePath(Some("/etc"), JPath(true, ["srv"]), cwd) == Err(Escaped("/etc"))
  {
    EtcNotFlagged();
    ParseRootedName("etc");
    EtcOutsideSrv(cwd);
  }

  /** "/etc" is not below "/srv". */
  lemma EtcOutsideSrv(cwd: seq<string>)
    ensures !IsPathSafe(Resolve(JPath(true, ["srv"]), JPath(true, ["etc"])), JPath(true, ["srv"]), cwd)
  {
    assert NormalizeNames(["etc"], true) == ["etc"] by {
      assert ["etc"][..0] == [];
    }
    assert NormalizeNames(["srv"], true) == ["srv"] by {
      assert ["srv"][..0] == [];
    }
    assert "srv" != "etc";
  }
}
