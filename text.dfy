/**
 * String primitives of the Java and JavaScript runtimes that the Tree-Engine code relies on.
 * Strings are sequences of characters; case mapping is modelled on the ASCII letters only.
 */
module Text {
  import opened Wrappers

  /** `sub` occurs in `s` starting at index `i`. */
  predicate OccursAt(s: string, sub: string, i: int)
  {
    0 <= i && i + |sub| <= |s| && s[i..i + |sub|] == sub
  }

  /** Java `String.contains` / JS `String.prototype.includes`. */
  predicate Contains(s: string, sub: string)
  {
    exists i | 0 <= i <= |s| - |sub| :: OccursAt(s, sub, i)
  }

  /** Java `startsWith` / JS `startsWith`. */
  predicate StartsWith(s: string, prefix: string)
  {
    prefix <= s
  }

  /** Java and JS `endsWith`. */
  predicate EndsWith(s: string, suffix: string)
  {
    |suffix| <= |s| && s[|s| - |suffix|..] == suffix
  }

  lemma ContainsCharIff(s: string, c: char)
    ensures Contains(s, [c]) <==> c in s
  {
    if c in s {
      var i :| 0 <= i < |s| && s[i] == c;
      assert OccursAt(s, [c], i);
    }
    if Contains(s, [c]) {
      var i :| 0 <= i <= |s| - 1 && OccursAt(s, [c], i);
      assert s[i] == s[i..i + 1][0];
    }
  }

  lemma PrefixContained(s: string, sub: string)
    requires StartsWith(s, sub)
    ensures Contains(s, sub)
  {
    assert OccursAt(s, sub, 0);
  }

  /** Occurrence is transitive: a string containing `t` contains everything `t` contains. */
  lemma ContainsTrans(s: string, t: string, u: string)
    requires Contains(s, t) && Contains(t, u)
    ensures Contains(s, u)
  {
    var i :| 0 <= i <= |s| - |t| && OccursAt(s, t, i);
    var j :| 0 <= j <= |t| - |u| && OccursAt(t, u, j);
    var w := s[i + j..i + j + |u|];
    forall k | 0 <= k < |u|
      ensures w[k] == u[k]
    {
      assert u[k] == t[j + k] == s[i + j + k];
    }
    assert w == u;
    assert OccursAt(s, u, i + j);
  }

  /** Everything a string contains is also contained in any string around it. */
  lemma ContainsInfix(a: string, s: string, b: string, sub: string)
    requires Contains(s, sub)
    ensures Contains(a + s + b, sub)
  {
    var i :| 0 <= i <= |s| - |sub| && OccursAt(s, sub, i);
    assert (a + s + b)[|a| + i..|a| + i + |sub|] == s[i..i + |sub|];
    assert OccursAt(a + s + b, sub, |a| + i);
  }

  /** A string containing `sub` contains every character of `sub`. */
  lemma ContainsChars(s: string, sub: string, c: char)
    requires Contains(s, sub) && c in sub
    ensures c in s
  {
    var i :| 0 <= i <= |s| - |sub| && OccursAt(s, sub, i);
    var k :| 0 <= k < |sub| && sub[k] == c;
    assert s[i + k] == sub[k];
  }

  /** A string in which no two neighbouring characters are both `c` does not contain `c` doubled. */
  lemma NoDoubledChar(s: string, c: char)
    requires forall i :: 0 <= i < |s| - 1 ==> !(s[i] == c && s[i + 1] == c)
    ensures !Contains(s, [c, c])
  {
    forall i | 0 <= i <= |s| - 2
      ensures !OccursAt(s, [c, c], i)
    {
      assert s[i..i + 2][0] == s[i] && s[i..i + 2][1] == s[i + 1];
    }
  }

  /** A string containing `long` contains every prefix of it. */
  lemma ContainsPrefixOf(s: string, long: string, short: string)
    requires Contains(s, long) && StartsWith(long, short)
    ensures Contains(s, short)
  {
    PrefixContained(long, short);
    ContainsTrans(s, long, short);
  }

  // ---------------------------------------------------------------------------------------------
  // Removal of every occurrence (Java `String.replace(target, "")`)

  /**
   * Java `s.replace(pat, "")`: scans left to right and drops each non-overlapping occurrence.
   */
  function RemoveAll(s: string, pat: string): (r: string)
    requires |pat| > 0
    ensures |r| <= |s|
    ensures forall c :: c in r ==> c in s
    decreases |s|
  {
    if |s| < |pat| then s
    else if s[..|pat|] == pat then RemoveAll(s[|pat|..], pat)
    else [s[0]] + RemoveAll(s[1..], pat)
  }

  /** A pattern that does not occur leaves the string unchanged. */
  lemma {:induction false} RemoveAllAbsent(s: string, pat: string)
    requires |pat| > 0 && !Contains(s, pat)
    ensures RemoveAll(s, pat) == s
    decreases |s|
  {
    if |s| >= |pat| {
      assert !OccursAt(s, pat, 0);
      assert s[..|pat|] != pat by { assert s[0..|pat|] == s[..|pat|]; }
      forall i | 0 <= i <= |s[1..]| - |pat|
        ensures !OccursAt(s[1..], pat, i)
      {
        assert !OccursAt(s, pat, i + 1);
        assert s[1 + i..1 + i + |pat|] == s[1..][i..i + |pat|];
      }
      RemoveAllAbsent(s[1..], pat);
    }
  }

  /** A dot-led pattern appended to a dot-free string is removed and nothing else. */
  lemma {:induction false} RemoveDottedSuffix(p: string, pat: string)
    requires |pat| > 0 && pat[0] == '.' && '.' !in p
    ensures RemoveAll(p + pat, pat) == p
    decreases |p|
  {
    var s := p + pat;
    if |p| == 0 {
      assert s == pat && s[|pat|..] == "";
    } else {
      assert s[..|pat|][0] == p[0];
      assert s[1..] == p[1..] + pat;
      RemoveDottedSuffix(p[1..], pat);
      assert [p[0]] + p[1..] == p;
    }
  }

  /** Removing a character that does not occur changes nothing. */
  lemma RemoveAbsentChar(s: string, c: char)
    ensures c !in s ==> RemoveAll(s, [c]) == s
  {
    if c !in s {
      ContainsCharIff(s, c);
      RemoveAllAbsent(s, [c]);
    }
  }

  /** Removing a single character keeps exactly the other characters, in order. */
  function Without(s: string, c: char): (r: string)
  {
    if |s| == 0 then "" else (if s[0] == c then "" else [s[0]]) + Without(s[1..], c)
  }

  lemma {:induction false} RemoveCharIsWithout(s: string, c: char)
    ensures RemoveAll(s, [c]) == Without(s, c)
    decreases |s|
  {
    if |s| > 0 {
      RemoveCharIsWithout(s[1..], c);
    }
  }

  lemma {:induction false} WithoutRemoves(s: string, c: char)
    ensures c !in Without(s, c)
    ensures forall x :: x != c ==> (x in Without(s, c) <==> x in s)
    decreases |s|
  {
    if |s| > 0 {
      WithoutRemoves(s[1..], c);
      assert s == [s[0]] + s[1..];
    }
  }

  /** After `s.replace(c, "")` for a one-character `c`, `c` no longer occurs; nothing else is lost. */
  lemma RemoveCharGone(s: string, c: char)
    ensures c !in RemoveAll(s, [c])
    ensures forall x :: x != c ==> (x in RemoveAll(s, [c]) <==> x in s)
  {
    RemoveCharIsWithout(s, c);
    WithoutRemoves(s, c);
  }

  // ---------------------------------------------------------------------------------------------
  // Splitting on one separator character

  /** Every piece between separators, empty ones included (JS `s.split(c)`). */
  function Pieces(s: string, c: char): (r: seq<string>)
    ensures |r| >= 1
    decreases |s|
  {
    if |s| == 0 then [""]
    else if s[0] == c then [""] + Pieces(s[1..], c)
    else
      var rest := Pieces(s[1..], c);
      [[s[0]] + rest[0]] + rest[1..]
  }

  lemma {:induction false} PiecesOfPlain(s: string, c: char)
    requires c !in s
    ensures Pieces(s, c) == [s]
    decreases |s|
  {
    if |s| > 0 {
      PiecesOfPlain(s[1..], c);
      assert [s[0]] + s[1..] == s;
    }
  }

  lemma {:induction false} PiecesAppend(a: string, c: char, b: string)
    requires c !in a
    ensures Pieces(a + [c] + b, c) == [a] + Pieces(b, c)
    decreases |a|
  {
    if |a| == 0 {
      assert a + [c] + b == [c] + b;
      assert ([c] + b)[1..] == b;
    } else {
      PiecesAppend(a[1..], c, b);
      assert (a + [c] + b)[1..] == a[1..] + [c] + b;
      assert [a[0]] + a[1..] == a;
    }
  }

  /** The pieces of `c`, a separator-free segment, `c` and `t` are "", the segment, then the pieces of `t`. */
  lemma RootedSegmentPieces(seg: string, c: char, t: string)
    requires c !in seg
    ensures Pieces([c] + seg + [c] + t, c) == ["", seg] + Pieces(t, c)
  {
    assert [c] + seg + [c] + t == "" + [c] + (seg + [c] + t);
    PiecesAppend("", c, seg + [c] + t);
    PiecesAppend(seg, c, t);
  }

  /** The first piece is a prefix of the string; no piece holds the separator and each occurs in the string. */
  lemma {:induction false} PiecesParts(s: string, c: char)
    ensures StartsWith(s, Pieces(s, c)[0])
    ensures forall p :: p in Pieces(s, c) ==> c !in p && Contains(s, p)
    decreases |s|
  {
    if |s| == 0 {
      assert OccursAt(s, "", 0);
    } else {
      PiecesParts(s[1..], c);
      var rest := Pieces(s[1..], c);
      assert [s[0]] + s[1..] + "" == s;
      forall p | p in rest
        ensures Contains(s, p)
      {
        ContainsInfix([s[0]], s[1..], "", p);
      }
      if s[0] == c {
        assert OccursAt(s, "", 0);
      } else {
        var first := [s[0]] + rest[0];
        assert s[..|first|] == [s[0]] + s[1..][..|rest[0]|];
        assert OccursAt(s, first, 0);
        assert Pieces(s, c) == [first] + rest[1..];
      }
    }
  }

  /** Drops the empty strings at the end of a list of pieces. */
  function DropTrailingEmpty(ps: seq<string>): (r: seq<string>)
    ensures |r| <= |ps| && r == ps[..|r|]
    ensures |r| > 0 ==> r[|r| - 1] != ""
    ensures forall k :: |r| <= k < |ps| ==> ps[k] == ""
  {
    if |ps| == 0 then []
    else if ps[|ps| - 1] == "" then DropTrailingEmpty(ps[..|ps| - 1])
    else ps
  }

  /**
   * Java `s.split(c)`: the whole string when `c` does not occur; otherwise the pieces with the
   * trailing empty ones dropped (so `"a:".split(":")` is `["a"]` and `":".split(":")` is empty).
   */
  function JavaSplit(s: string, c: char): seq<string>
  {
    if c !in s then [s] else DropTrailingEmpty(Pieces(s, c))
  }

  /** A separator at the end adds one empty piece. */
  lemma {:induction false} PiecesSnocSeparator(s: string, c: char)
    ensures Pieces(s + [c], c) == Pieces(s, c) + [""]
    decreases |s|
  {
    if |s| == 0 {
      assert s + [c] == [c] && [c][1..] == "";
    } else {
      assert (s + [c])[1..] == s[1..] + [c];
      PiecesSnocSeparator(s[1..], c);
    }
  }

  /** Java's split ignores one trailing separator (the empty last piece is dropped). */
  lemma JavaSplitTrailingSeparator(s: string, c: char)
    requires s != ""
    ensures JavaSplit(s + [c], c) == JavaSplit(s, c)
  {
    var ps := Pieces(s, c);
    PiecesSnocSeparator(s, c);
    assert c in s + [c] by { assert (s + [c])[|s|] == c; }
    assert (ps + [""])[..|ps|] == ps;
    assert JavaSplit(s + [c], c) == DropTrailingEmpty(ps);
    if c !in s {
      PiecesOfPlain(s, c);
      assert DropTrailingEmpty([s]) == [s];
    }
  }

  /** Index of the first occurrence of `c`, or -1 (Java and JS `indexOf`). */
  function IndexOf(s: string, c: char): (i: int)
    ensures -1 <= i < |s|
    ensures i == -1 <==> c !in s
    ensures i >= 0 ==> s[i] == c && c !in s[..i]
    decreases |s|
  {
    if |s| == 0 then -1
    else if s[0] == c then 0
    else
      var k := IndexOf(s[1..], c);
      assert k >= 0 ==> s[1..][..k] == s[1..k + 1];
      if k == -1 then -1 else k + 1
  }

  /** Index of the last occurrence of `c`, or -1 (Java `lastIndexOf`). */
  function LastIndexOf(s: string, c: char): (i: int)
    ensures -1 <= i < |s|
    ensures i == -1 <==> c !in s
    ensures i >= 0 ==> s[i] == c && c !in s[i + 1..]
    decreases |s|
  {
    if |s| == 0 then -1
    else if s[|s| - 1] == c then |s| - 1
    else
      var k := LastIndexOf(s[..|s| - 1], c);
      assert s[..|s| - 1] + [s[|s| - 1]] == s;
      assert k >= 0 ==> s[k + 1..] == s[..|s| - 1][k + 1..] + [s[|s| - 1]];
      k
  }

  /**
   * Java `s.split(c, 2)`: at most two pieces and no trailing pieces dropped, so
   * `"a:".split(":", 2)` is `["a", ""]`.
   */
  function JavaSplit2(s: string, c: char): (r: seq<string>)
    ensures 1 <= |r| <= 2
    ensures |r| == 1 <==> c !in s
  {
    var i := IndexOf(s, c);
    if i < 0 then [s] else [s[..i], s[i + 1..]]
  }

  lemma {:induction false} IndexOfAfter(a: string, c: char, b: string)
    requires c !in a
    ensures IndexOf(a + [c] + b, c) == |a|
    decreases |a|
  {
    if |a| > 0 {
      assert (a + [c] + b)[1..] == a[1..] + [c] + b;
      IndexOfAfter(a[1..], c, b);
    }
  }

  lemma {:induction false} LastIndexOfAfter(a: string, c: char, b: string)
    requires c !in b
    ensures LastIndexOf(a + [c] + b, c) == |a|
    decreases |b|
  {
    var s := a + [c] + b;
    if |b| > 0 {
      assert s[..|s| - 1] == a + [c] + b[..|b| - 1];
      assert s[|s| - 1] == b[|b| - 1];
      LastIndexOfAfter(a, c, b[..|b| - 1]);
    }
  }

  /** `(a + c + b).split(c, 2)` is `[a, b]` when `a` has no separator; `b` may hold more of them. */
  lemma JavaSplit2Pair(a: string, c: char, b: string)
    requires c !in a
    ensures JavaSplit2(a + [c] + b, c) == [a, b]
  {
    IndexOfAfter(a, c, b);
    assert (a + [c] + b)[..|a|] == a;
    assert (a + [c] + b)[|a| + 1..] == b;
  }

  /** A name, one separator and a non-empty name without separators split back into the two names. */
  lemma JavaSplitPair(a: string, c: char, b: string)
    requires c !in a && c !in b && b != ""
    ensures JavaSplit(a + [c] + b, c) == [a, b]
  {
    PiecesAppend(a, c, b);
    PiecesOfPlain(b, c);
    assert (a + [c] + b)[|a|] == c;
  }

  // ---------------------------------------------------------------------------------------------
  // Case and whitespace

  /** ASCII lowering of one character. */
  function LowerChar(c: char): (r: char)
  {
    if 'A' <= c <= 'Z' then (c as int + 32) as char else c
  }

  /** ASCII upper-casing of one character. */
  function UpperChar(c: char): (r: char)
  {
    if 'a' <= c <= 'z' then (c as int - 32) as char else c
  }

  /** `toLowerCase()` restricted to the ASCII letters. */
  function ToLower(s: string): (r: string)
    ensures |r| == |s|
    ensures forall i :: 0 <= i < |s| ==> r[i] == LowerChar(s[i])
  {
    seq(|s|, i requires 0 <= i < |s| => LowerChar(s[i]))
  }

  lemma ToLowerIdempotent(s: string)
    ensures ToLower(ToLower(s)) == ToLower(s)
  {
  }

  /** Lowering commutes with concatenation. */
  lemma ToLowerConcat(a: string, b: string)
    ensures ToLower(a + b) == ToLower(a) + ToLower(b)
  {
  }

  /** Java `trim()`: strips every leading and trailing character at or below U+0020. */
  function JavaTrim(s: string): (r: string)
    ensures |r| <= |s|
    ensures |r| > 0 ==> r[0] > ' ' && r[|r| - 1] > ' '
    decreases |s|
  {
    if |s| == 0 then s
    else if s[0] <= ' ' then JavaTrim(s[1..])
    else if s[|s| - 1] <= ' ' then JavaTrim(s[..|s| - 1])
    else s
  }

  /** A string with no space-or-control character at either end is its own trim. */
  lemma JavaTrimKeeps(s: string)
    requires |s| > 0 ==> s[0] > ' ' && s[|s| - 1] > ' '
    ensures JavaTrim(s) == s
  {
  }

  /** The JavaScript WhiteSpace and LineTerminator characters that `String.prototype.trim` strips. */
  predicate IsJsSpace(c: char)
  {
    c == '\t' || c == '\n' || c == '\U{B}' || c == '\U{C}' || c == '\r' || c == ' '
    || c == '\U{A0}' || c == '\U{1680}' || ('\U{2000}' <= c <= '\U{200A}')
    || c == '\U{2028}' || c == '\U{2029}' || c == '\U{202F}' || c == '\U{205F}'
    || c == '\U{3000}' || c == '\U{FEFF}'
  }

  /** JS `trim()`. */
  function JsTrim(s: string): (r: string)
    ensures |r| <= |s|
    ensures |r| > 0 ==> !IsJsSpace(r[0]) && !IsJsSpace(r[|r| - 1])
    decreases |s|
  {
    if |s| == 0 then s
    else if IsJsSpace(s[0]) then JsTrim(s[1..])
    else if IsJsSpace(s[|s| - 1]) then JsTrim(s[..|s| - 1])
    else s
  }

  /** Joins strings with a separator (JS `Array.prototype.join`). */
  function Join(parts: seq<string>, sep: string): string
  {
    if |parts| == 0 then ""
    else if |parts| == 1 then parts[0]
    else parts[0] + sep + Join(parts[1..], sep)
  }

  // ---------------------------------------------------------------------------------------------
  // Numerals

  /** A decimal numeral, as Java and JavaScript print a non-negative integer. */
  function Decimal(n: nat): (r: string)
    ensures |r| >= 1 && forall i :: 0 <= i < |r| ==> '0' <= r[i] <= '9'
  {
    if n < 10 then [('0' as int + n) as char] else Decimal(n / 10) + [('0' as int + n % 10) as char]
  }

  /** The value of a string of decimal digits. */
  function DigitsValue(s: string): nat
  {
    if |s| == 0 then 0
    else
      var d := s[|s| - 1] as int - '0' as int;
      DigitsValue(s[..|s| - 1]) * 10 + (if 0 <= d <= 9 then d else 0)
  }

  /** The numeral reads back as the number. */
  lemma {:induction false} DecimalRoundTrip(n: nat)
    ensures DigitsValue(Decimal(n)) == n
  {
    if n >= 10 {
      DecimalRoundTrip(n / 10);
      var s := Decimal(n);
      assert s[..|s| - 1] == Decimal(n / 10);
    }
  }

  /** The value of a digit in base 10 or 16, or -1 when it is none. */
  function DigitIn(c: char, radix: nat): (d: int)
    ensures -1 <= d < radix || (radix < 10 && d < 10)
    ensures radix == 10 ==> (d >= 0 <==> '0' <= c <= '9')
    ensures radix == 10 && d >= 0 ==> d == c as int - '0' as int
  {
    if '0' <= c <= '9' then c as int - '0' as int
    else if radix == 16 && 'a' <= c <= 'f' then c as int - 'a' as int + 10
    else if radix == 16 && 'A' <= c <= 'F' then c as int - 'A' as int + 10
    else -1
  }

  /** How many characters at the start of `s` are digits in `radix`. */
  function LeadingDigits(s: string, radix: nat): (n: nat)
    ensures n <= |s|
    ensures forall i :: 0 <= i < n ==> DigitIn(s[i], radix) >= 0
    ensures n < |s| ==> DigitIn(s[n], radix) < 0
    decreases |s|
  {
    if |s| == 0 || DigitIn(s[0], radix) < 0 then 0 else 1 + LeadingDigits(s[1..], radix)
  }

  /** The value of a string of digits in `radix`. */
  function ValueIn(s: string, radix: nat): nat
  {
    if |s| == 0 then 0
    else
      var d := DigitIn(s[|s| - 1], radix);
      ValueIn(s[..|s| - 1], radix) * radix + (if d >= 0 then d else 0)
  }

  /** Leading white space removed, as `parseInt` does first. */
  function TrimStart(s: string): (r: string)
    ensures |r| <= |s| && r == s[|s| - |r|..]
    ensures |r| > 0 ==> !IsJsSpace(r[0])
    decreases |s|
  {
    if |s| > 0 && IsJsSpace(s[0]) then TrimStart(s[1..]) else s
  }

  /**
   * JavaScript `parseInt(s)` without a radix: leading white space, an optional sign, then the
   * longest run of digits, hexadecimal after "0x" or "0X"; None (NaN) when there is no digit.
   */
  function JsParseInt(s: string): (r: Option<int>)
  {
    var t := TrimStart(s);
    var negative := |t| > 0 && t[0] == '-';
    var u := if |t| > 0 && (t[0] == '-' || t[0] == '+') then t[1..] else t;
    var magnitude := if |u| >= 2 && u[0] == '0' && (u[1] == 'x' || u[1] == 'X') then DigitRun(u[2..], 16) else DigitRun(u, 10);
    match magnitude
    case None => None
    case Some(value) => var signed: int := if negative then -(value as int) else value as int; Some(signed)
  }

  /** The value of the longest run of digits at the start of `v`, or None when `v` starts with none. */
  function DigitRun(v: string, radix: nat): (r: Option<nat>)
  {
    var n := LeadingDigits(v, radix);
    if n == 0 then None else Some(ValueIn(v[..n], radix))
  }

  /** For decimal digits the two readings agree. */
  lemma {:induction false} ValueInDecimal(s: string)
    requires forall i :: 0 <= i < |s| ==> '0' <= s[i] <= '9'
    ensures ValueIn(s, 10) == DigitsValue(s)
  {
    if |s| > 0 {
      ValueInDecimal(s[..|s| - 1]);
    }
  }

  /** A string of decimal digits has no leading white space, and all of it is digits. */
  lemma DigitsPlain(s: string)
    requires |s| > 0 && forall i :: 0 <= i < |s| ==> '0' <= s[i] <= '9'
    ensures TrimStart(s) == s
    ensures LeadingDigits(s, 10) == |s|
  {
    assert !IsJsSpace(s[0]);
    var n := LeadingDigits(s, 10);
    assert n < |s| ==> DigitIn(s[n], 10) >= 0;
  }

  /** The run of a whole string of decimal digits is all of it. */
  lemma DigitRunOfDigits(s: string)
    requires |s| > 0 && forall i :: 0 <= i < |s| ==> '0' <= s[i] <= '9'
    ensures DigitRun(s, 10) == Some(DigitsValue(s))
  {
    DigitsPlain(s);
    ValueInDecimal(s);
    assert s[..|s|] == s;
  }

  /** Text with no leading white space, sign or "0x" is read as its decimal run. */
  lemma ParseIntUnsigned(s: string)
    requires TrimStart(s) == s && |s| > 0 && s[0] != '-' && s[0] != '+' && !(|s| >= 2 && s[0] == '0' && (s[1] == 'x' || s[1] == 'X'))
    ensures JsParseInt(s) == match DigitRun(s, 10) case None => None case Some(v) => Some(v)
  {
    var t := TrimStart(s);
    assert t == s;
    assert !(|t| > 0 && (t[0] == '-' || t[0] == '+'));
    assert !(|t| >= 2 && t[0] == '0' && (t[1] == 'x' || t[1] == 'X'));
  }

  /** A string of decimal digits is read whole. */
  lemma ParseIntOfDigits(s: string)
    requires |s| > 0 && forall i :: 0 <= i < |s| ==> '0' <= s[i] <= '9'
    ensures JsParseInt(s) == Some(DigitsValue(s))
  {
    DigitsPlain(s);
    DigitRunOfDigits(s);
    ParseIntUnsigned(s);
  }

  /** `parseInt` reads a numeral back as its number. */
  lemma ParseIntOfDecimal(n: nat)
    ensures JsParseInt(Decimal(n)) == Some(n)
  {
    ParseIntOfDigits(Decimal(n));
    DecimalRoundTrip(n);
  }

  /** Text that starts with no digit, sign or white space is NaN. */
  lemma ParseIntNoDigit(s: string)
    requires |s| > 0 && !('0' <= s[0] <= '9') && s[0] != '-' && s[0] != '+' && !IsJsSpace(s[0])
    ensures JsParseInt(s).None?
  {
    assert TrimStart(s) == s;
  }
}
