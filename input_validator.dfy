/**
 * Input checks of the web API (InputValidator.java): identifier syntax and length, the payload
 * size limit in UTF-8 bytes, a second file-name sanitiser that deletes dangerous substrings, and
 * a case-sensitive traversal scan.
 */
module InputValidator {
  import opened Wrappers
  import opened Text
  import PathValidator

  const MaxIdLength: nat := 100
  const MaxJsonSizeBytes: nat := 10 * 1024 * 1024

  /** A character of the class `[a-zA-Z0-9_]`. */
  predicate IdChar(c: char)
  {
    ('a' <= c <= 'z') || ('A' <= c <= 'Z') || ('0' <= c <= '9') || c == '_'
  }

  /** Java `length()`: characters outside the Basic Multilingual Plane take two UTF-16 units. */
  function Utf16Length(s: string): (r: nat)
    ensures |s| <= r <= 2 * |s|
    ensures (forall i :: 0 <= i < |s| ==> s[i] as int < 0x1_0000) ==> r == |s|
  {
    if |s| == 0 then 0 else (if s[0] as int < 0x1_0000 then 1 else 2) + Utf16Length(s[1..])
  }

  /** `VALID_IDENTIFIER.matcher(s).matches()` for `^[a-zA-Z0-9_]+$`. */
  predicate MatchesIdentifier(s: string)
  {
    |s| > 0 && forall i :: 0 <= i < |s| ==> IdChar(s[i])
  }

  /**
   * `isValidTreeId`: null, empty, longer than 100 UTF-16 units, or with a character outside
   * `[a-zA-Z0-9_]` is invalid. Valid ids are ASCII, so their length is their character count.
   */
  function IsValidTreeId(id: Option<string>): (r: bool)
    ensures r <==> id.Some? && 1 <= |id.value| <= MaxIdLength && forall i :: 0 <= i < |id.value| ==> IdChar(id.value[i])
  {
    if id.None? || id.value == "" then false
    else if Utf16Length(id.value) > MaxIdLength then false
    else MatchesIdentifier(id.value)
  }

  /** `isValidIdentifier` delegates to `isValidTreeId`. */
  function IsValidIdentifier(identifier: Option<string>): bool
  {
    IsValidTreeId(identifier)
  }

  /** The length of `getBytes(UTF_8)`: one to four bytes per code point. */
  function Utf8Length(s: string): (r: nat)
    ensures |s| <= r <= 4 * |s|
    ensures (forall i :: 0 <= i < |s| ==> s[i] as int < 0x80) ==> r == |s|
  {
    if |s| == 0 then 0
    else
      var c := s[0] as int;
      (if c < 0x80 then 1 else if c < 0x800 then 2 else if c < 0x1_0000 then 3 else 4) + Utf8Length(s[1..])
  }

  /**
   * `isValidJsonSize`: false for null, otherwise whether the UTF-8 encoding fits in 10 MiB. Up to
   * 2,621,440 characters always fit, more than 10,485,760 never do, and ASCII text fits exactly
   * when it has at most 10,485,760 characters.
   */
  function IsValidJsonSize(json: Option<string>): (r: bool)
    ensures json.None? ==> !r
    ensures json.Some? && 4 * |json.value| <= MaxJsonSizeBytes ==> r
    ensures json.Some? && |json.value| > MaxJsonSizeBytes ==> !r
    ensures json.Some? && (forall i :: 0 <= i < |json.value| ==> json.value[i] as int < 0x80) ==>
              (r <==> |json.value| <= MaxJsonSizeBytes)
  {
    json.Some? && Utf8Length(json.value) <= MaxJsonSizeBytes
  }

  /** `replace` of "..", "/", "\\", NUL, LF and CR by nothing, one pass each, in that order. */
  function StripDangerous(s: string): (r: string)
    ensures PathValidator.PlainName(r)
    ensures forall c :: c in r ==> c in s
  {
    var a := RemoveAll(s, "..");
    var b := RemoveAll(a, "/");
    var c := RemoveAll(b, "\\");
    var d := RemoveAll(c, "\0");
    var e := RemoveAll(d, "\n");
    RemoveCharGone(a, '/');
    RemoveCharGone(b, '\\');
    RemoveCharGone(c, '\0');
    RemoveCharGone(d, '\n');
    RemoveCharGone(e, '\r');
    RemoveAll(e, "\r")
  }

  /** Text without a '.' or any of the stripped characters passes through unchanged. */
  lemma StripDangerousAbsent(s: string)
    requires '.' !in s && PathValidator.PlainName(s)
    ensures StripDangerous(s) == s
  {
    if Contains(s, "..") { ContainsChars(s, "..", '.'); }
    RemoveAllAbsent(s, "..");
    RemoveAbsentChar(s, '/');
    RemoveAbsentChar(s, '\\');
    RemoveAbsentChar(s, '\0');
    RemoveAbsentChar(s, '\n');
    RemoveAbsentChar(s, '\r');
  }

  /**
   * `sanitizeFileName`: null for a null or empty name; otherwise the name with the dangerous
   * substrings deleted, unless that is empty or starts with '.'.
   */
  function SanitizeFileName(fileName: Option<string>): (r: Option<string>)
    ensures fileName.None? || fileName == Some("") ==> r.None?
    ensures r.Some? ==> r.value != "" && r.value[0] != '.' && PathValidator.PlainName(r.value)
    ensures r.Some? ==> forall c :: c in r.value ==> c in fileName.value
  {
    if fileName.None? || fileName.value == "" then None
    else
      var sanitized := StripDangerous(fileName.value);
      if sanitized == "" then None
      else if sanitized[0] == '.' then None
      else Some(sanitized)
  }

  /** Deleting the '/' of "a./.b" joins its dots. */
  lemma SlashRemoved()
    ensures RemoveAll("a./.b", "/") == "a..b"
  {
    var s := "a./.b";
    assert s[..1] != "/" && s[1..][..1] != "/" && s[2..][..1] == "/";
    assert s[1..][1..] == s[2..] && s[2..][1..] == ".b";
    assert RemoveAll(".b", "/") == ".b" by {
      assert ".b"[..1] != "/" && ".b"[1..] == "b" && "b"[..1] != "/";
    }
  }

  lemma StripDotSlashDot()
    ensures StripDangerous("a./.b") == "a..b"
  {
    var s := "a./.b";
    assert s[0] == 'a' && s[1] == '.' && s[2] == '/' && s[3] == '.' && s[4] == 'b';
    NoDoubledChar(s, '.');
    assert ['.', '.'] == "..";
    RemoveAllAbsent("a./.b", "..");
    SlashRemoved();
    assert '\\' !in "a..b" && '\0' !in "a..b" && '\n' !in "a..b" && '\r' !in "a..b";
    RemoveAbsentChar("a..b", '\\');
    RemoveAbsentChar("a..b", '\0');
    RemoveAbsentChar("a..b", '\n');
    RemoveAbsentChar("a..b", '\r');
  }

  lemma DotsJoined()
    ensures Contains("a..b", "..")
  {
    assert OccursAt("a..b", "..", 1);
  }

  /**
   * ".." is deleted before "/", so deleting the separator can join two dots: "a./.b" comes out
   * as "a..b".
   */
  lemma SanitizeCanLeaveDotDot()
    ensures SanitizeFileName(Some("a./.b")) == Some("a..b")
    ensures Contains("a..b", "..")
  {
    StripDotSlashDot();
    DotsJoined();
  }

  /** The patterns that extend ".." add nothing. */
  lemma DotDotVariantsReduce(s: string)
    ensures Contains(s, "..%2f") || Contains(s, "..%5c") ==> Contains(s, "..")
  {
    if Contains(s, "..%2f") { ContainsPrefixOf(s, "..%2f", ".."); }
    if Contains(s, "..%5c") { ContainsPrefixOf(s, "..%5c", ".."); }
  }

  /**
   * `containsPathTraversal`: false for null; otherwise whether the input, with its case as given,
   * contains one of seven sequences, which come down to five.
   */
  function ContainsPathTraversal(input: Option<string>): (r: bool)
    ensures input.None? ==> !r
    ensures input.Some? ==>
              (r <==> Contains(input.value, "..") || Contains(input.value, "./") || Contains(input.value, ".\\")
                      || Contains(input.value, "%2e%2e") || Contains(input.value, "%252e"))
  {
    if input.None? then false
    else
      var s := input.value;
      DotDotVariantsReduce(s);
      Contains(s, "..") || Contains(s, "./") || Contains(s, ".\\") || Contains(s, "%2e%2e")
      || Contains(s, "%252e") || Contains(s, "..%2f") || Contains(s, "..%5c")
  }

  /** Text with no '.' and no lower-case 'e' is never flagged. */
  lemma NoDotNoLowerE(s: string)
    requires '.' !in s && 'e' !in s
    ensures !ContainsPathTraversal(Some(s))
  {
    if Contains(s, "..") { ContainsChars(s, "..", '.'); }
    if Contains(s, "./") { ContainsChars(s, "./", '.'); }
    if Contains(s, ".\\") { ContainsChars(s, ".\\", '.'); }
    if Contains(s, "%2e%2e") { ContainsChars(s, "%2e%2e", 'e'); }
    if Contains(s, "%252e") { ContainsChars(s, "%252e", 'e'); }
  }

  /** Unlike the path validator's scan, this one is case-sensitive: "%2E%2E" passes it. */
  lemma CaseSensitiveUnlikePathValidator()
    ensures !ContainsPathTraversal(Some("%2E%2E"))
    ensures PathValidator.ContainsTraversalSequence(Some("%2E%2E"))
  {
    NoDotNoLowerE("%2E%2E");
    assert ToLower("%2E%2E") == "%2e%2e";
    assert OccursAt("%2e%2e", "%2e%2e", 0);
  }

  /**
   * A valid tree id has no '.' and no separator or control character: neither scan flags it, and
   * both sanitisers return it unchanged.
   */
  lemma ValidIdIsSafe(id: string)
    requires IsValidTreeId(Some(id))
    ensures !ContainsPathTraversal(Some(id))
    ensures SanitizeFileName(Some(id)) == Some(id)
    ensures !PathValidator.ContainsTraversalSequence(Some(id))
    ensures PathValidator.SanitizeFileName(Some(id)) == Some(id)
  {
    assert '%' !in id && '.' !in id && PathValidator.PlainName(id);
    if Contains(id, "..") { ContainsChars(id, "..", '.'); }
    if Contains(id, "./") { ContainsChars(id, "./", '.'); }
    if Contains(id, ".\\") { ContainsChars(id, ".\\", '.'); }
    if Contains(id, "%2e%2e") { ContainsChars(id, "%2e%2e", '%'); }
    if Contains(id, "%252e") { ContainsChars(id, "%252e", '%'); }
    StripDangerousAbsent(id);
    PathValidator.TraversalWithoutPercent(id);
    PathValidator.SanitizePlainUnchanged(id);
  }
}
