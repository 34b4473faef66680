/**
 * Access tokens of the web editor (AuthenticationManager.java): a token is 32 random bytes
 * written as 64 lower-case hex digits, compared in constant time; with authentication disabled
 * every request is accepted. The random bytes are a parameter.
 */
module Authentication {
  import opened Wrappers

  const TokenBytes: nat := 32

  /** A Java `byte`. */
  type JByte = x: int | -128 <= x <= 127

  /** The unsigned value `%x` prints for a byte: a negative byte counts from 256. */
  function Unsigned(b: JByte): (r: nat)
    ensures r < 256 && (r - b) % 256 == 0
  {
    if b < 0 then b + 256 else b
  }

  /** The lower-case hex digit for 0..15. */
  function HexDigit(k: nat): (c: char)
    requires k < 16
  {
    if k < 10 then ('0' as int + k) as char else ('a' as int + k - 10) as char
  }

  predicate IsLowerHexDigit(c: char)
  {
    ('0' <= c <= '9') || ('a' <= c <= 'f')
  }

  /** The value of a lower-case hex digit (0 for any other character). */
  function DigitValue(c: char): (k: nat)
    ensures k < 16
    ensures IsLowerHexDigit(c) ==> HexDigit(k) == c
  {
    if '0' <= c <= '9' then c as int - '0' as int
    else if 'a' <= c <= 'f' then c as int - 'a' as int + 10
    else 0
  }

  /** `String.format("%02x", b)`: two digits whose value is the unsigned byte. */
  function ByteHex(b: JByte): (r: string)
    ensures |r| == 2 && IsLowerHexDigit(r[0]) && IsLowerHexDigit(r[1])
    ensures DigitValue(r[0]) * 16 + DigitValue(r[1]) == Unsigned(b)
  {
    [HexDigit(Unsigned(b) / 16), HexDigit(Unsigned(b) % 16)]
  }

  /** The hex text of a byte sequence, two digits per byte in order. */
  function Hex(bytes: seq<JByte>): (r: string)
    ensures |r| == 2 * |bytes|
    ensures forall i :: 0 <= i < |r| ==> IsLowerHexDigit(r[i])
  {
    if |bytes| == 0 then ""
    else Hex(bytes[..|bytes| - 1]) + ByteHex(bytes[|bytes| - 1])
  }

  /** Byte `i` is spelled by characters `2i` and `2i + 1`. */
  lemma {:induction false} HexAt(bytes: seq<JByte>, i: int)
    requires 0 <= i < |bytes|
    ensures Hex(bytes)[2 * i..2 * i + 2] == ByteHex(bytes[i])
    decreases |bytes|
  {
    var init := bytes[..|bytes| - 1];
    if i < |bytes| - 1 {
      HexAt(init, i);
      assert Hex(bytes)[2 * i..2 * i + 2] == Hex(init)[2 * i..2 * i + 2];
    } else {
      assert Hex(bytes)[2 * i..] == ByteHex(bytes[i]);
    }
  }

  /** Reading hex text back, two digits at a time. */
  function DecodeHex(s: string): (r: seq<nat>)
    requires |s| % 2 == 0
    ensures |r| == |s| / 2
  {
    if |s| == 0 then []
    else DecodeHex(s[..|s| - 2]) + [DigitValue(s[|s| - 2]) * 16 + DigitValue(s[|s| - 1])]
  }

  /** The unsigned value of each byte. */
  function UnsignedAll(bytes: seq<JByte>): (r: seq<nat>)
    ensures |r| == |bytes| && forall i :: 0 <= i < |bytes| ==> r[i] == Unsigned(bytes[i])
  {
    if |bytes| == 0 then [] else UnsignedAll(bytes[..|bytes| - 1]) + [Unsigned(bytes[|bytes| - 1])]
  }

  /** Decoding one more pair of digits appends one value. */
  lemma DecodeHexSnoc(s: string, d: string)
    requires |s| % 2 == 0 && |d| == 2
    ensures DecodeHex(s + d) == DecodeHex(s) + [DigitValue(d[0]) * 16 + DigitValue(d[1])]
  {
    var h := s + d;
    assert |h| - 2 == |s|;
    assert h[..|h| - 2] == s;
    assert h[|h| - 2] == d[0] && h[|h| - 1] == d[1];
  }

  /** The hex text reads back as the unsigned bytes: nothing is lost in the encoding. */
  lemma {:induction false} HexRoundTrip(bytes: seq<JByte>)
    ensures DecodeHex(Hex(bytes)) == UnsignedAll(bytes)
    decreases |bytes|
  {
    if |bytes| > 0 {
      var n := |bytes|;
      var init := bytes[..n - 1];
      var last := ByteHex(bytes[n - 1]);
      assert Hex(bytes) == Hex(init) + last;
      HexRoundTrip(init);
      DecodeHexSnoc(Hex(init), last);
      assert DigitValue(last[0]) * 16 + DigitValue(last[1]) == Unsigned(bytes[n - 1]);
      assert UnsignedAll(bytes) == UnsignedAll(init) + [Unsigned(bytes[n - 1])];
    }
  }

  /** Different bytes give different tokens. */
  lemma HexInjective(a: seq<JByte>, b: seq<JByte>)
    requires Hex(a) == Hex(b)
    ensures a == b
  {
    HexRoundTrip(a);
    HexRoundTrip(b);
    assert |a| == |b|;
    forall i | 0 <= i < |a|
      ensures a[i] == b[i]
    {
      assert UnsignedAll(a)[i] == UnsignedAll(b)[i];
    }
  }

  /** `bytesToHex`: appends two digits per byte to a `StringBuilder`. */
  method BytesToHex(bytes: seq<JByte>) returns (s: string)
    ensures s == Hex(bytes)
  {
    s := "";
    for i := 0 to |bytes|
      invariant s == Hex(bytes[..i])
    {
      assert bytes[..i + 1][..i] == bytes[..i];
      s := s + ByteHex(bytes[i]);
    }
    assert bytes[..|bytes|] == bytes;
  }

  /** `generateToken` on the 32 bytes the random source fills in. */
  method GenerateToken(randomBytes: seq<JByte>) returns (token: string)
    requires |randomBytes| == TokenBytes
    ensures token == Hex(randomBytes) && |token| == 64
  {
    token := BytesToHex(randomBytes);
  }

  // ---------------------------------------------------------------------------------------
  // Constant-time comparison
  // ---------------------------------------------------------------------------------------

  /** Bitwise exclusive or of two non-negative integers. */
  function Xor(x: nat, y: nat): nat
    decreases x + y
  {
    if x == 0 && y == 0 then 0 else 2 * Xor(x / 2, y / 2) + (if x % 2 == y % 2 then 0 else 1)
  }

  /** Bitwise or of two non-negative integers. */
  function BitOr(x: nat, y: nat): nat
    decreases x + y
  {
    if x == 0 && y == 0 then 0 else 2 * BitOr(x / 2, y / 2) + (if x % 2 == 0 && y % 2 == 0 then 0 else 1)
  }

  /** `x ^ y` is zero exactly when `x` and `y` are equal. */
  lemma {:induction false} XorZero(x: nat, y: nat)
    ensures Xor(x, y) == 0 <==> x == y
    decreases x + y
  {
    if x != 0 || y != 0 {
      XorZero(x / 2, y / 2);
    }
  }

  /** `r | z` is zero exactly when both are. */
  lemma {:induction false} BitOrZero(x: nat, y: nat)
    ensures BitOr(x, y) == 0 <==> x == 0 && y == 0
    decreases x + y
  {
    if x != 0 || y != 0 {
      BitOrZero(x / 2, y / 2);
    }
  }

  /**
   * `constantTimeEquals`: a null on either side is equal only to null; strings of different
   * lengths are unequal; otherwise the character differences are or-ed together over the whole
   * length and the strings are equal when nothing differed.
   */
  method ConstantTimeEquals(a: Option<string>, b: Option<string>) returns (r: bool)
    ensures r <==> a == b
  {
    if a.None? || b.None? {
      return a == b;
    }
    var x, y := a.value, b.value;
    if |x| != |y| {
      return false;
    }
    var result: nat := 0;
    for i := 0 to |x|
      invariant result == 0 <==> x[..i] == y[..i]
    {
      var d := Xor(x[i] as int, y[i] as int);
      XorZero(x[i] as int, y[i] as int);
      BitOrZero(result, d);
      assert x[..i + 1] == x[..i] + [x[i]] && y[..i + 1] == y[..i] + [y[i]];
      assert x[..i + 1] == y[..i + 1] ==> x[..i] == y[..i] by {
        if x[..i + 1] == y[..i + 1] { assert x[..i + 1][..i] == y[..i + 1][..i]; }
      }
      result := BitOr(result, d);
    }
    assert x[..|x|] == x && y[..|y|] == y;
    r := result == 0;
  }

  // ---------------------------------------------------------------------------------------
  // The stored token
  // ---------------------------------------------------------------------------------------

  /** The two authentication settings of the main configuration. */
  class AuthConfig {
    var authEnabled: bool
    var authToken: Option<string>

    constructor (authEnabled: bool, authToken: Option<string>)
      ensures this.authEnabled == authEnabled && this.authToken == authToken
    {
      this.authEnabled := authEnabled;
      this.authToken := authToken;
    }

    /**
     * `validateToken`: with authentication disabled everything passes, null included; otherwise a
     * null or empty token fails and any other passes exactly when it is the stored token.
     */
    method ValidateToken(token: Option<string>) returns (r: bool)
      ensures !authEnabled ==> r
      ensures authEnabled && (token.None? || token == Some("")) ==> !r
      ensures authEnabled && token.Some? && token.value != "" ==> (r <==> token == authToken)
    {
      if !authEnabled {
        return true;
      }
      if token.None? || token.value == "" {
        return false;
      }
      r := ConstantTimeEquals(token, authToken);
    }

    /**
     * `initialize`: a null or empty stored token is replaced by a fresh one; a stored token is
     * kept. The configuration file write and the log lines are not modelled.
     */
    method Initialize(randomBytes: seq<JByte>)
      requires |randomBytes| == TokenBytes
      modifies this
      ensures old(authToken).None? || old(authToken) == Some("") ==> authToken == Some(Hex(randomBytes))
      ensures old(authToken).Some? && old(authToken) != Some("") ==> authToken == old(authToken)
      ensures authEnabled == old(authEnabled)
    {
      if authToken.None? || authToken.value == "" {
        var newToken := GenerateToken(randomBytes);
        authToken := Some(newToken);
      }
    }

    /** `regenerateToken`: always stores a fresh token and returns it. */
    method RegenerateToken(randomBytes: seq<JByte>) returns (newToken: string)
      requires |randomBytes| == TokenBytes
      modifies this
      ensures authToken == Some(newToken)
      ensures newToken == Hex(randomBytes) && |newToken| == 64
      ensures authEnabled == old(authEnabled)
    {
      newToken := GenerateToken(randomBytes);
      authToken := Some(newToken);
    }
  }
}
