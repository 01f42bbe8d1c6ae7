/** The secrets a token is issued with and the one-way hash they are stored
    under. Randomness is an input: the numeric code is the value drawn by
    `randomInt(10^5, 10^6 - 1)` (upper bound exclusive), the hex secret is made
    from the 16 bytes drawn by `randomBytes(16)`. */
module Secrets {

  newtype byte = x: int | 0 <= x < 256

  // ---------------------------------------------------------------------------
  // Six-digit codes: `String(n)`

  /** The bounds passed to `randomInt`; the upper one is exclusive. */
  const CodeMin: int := 100000
  const CodeBound: int := 999999

  predicate IsDigit(c: char) { '0' <= c <= '9' }

  function DigitChar(d: int): char
    requires 0 <= d < 10
  {
    ('0' as int + d) as char
  }

  /** `String(n)` for a non-negative integer: its decimal digits, most
      significant first, with no leading zero. */
  function DecimalString(n: nat): (s: string)
    ensures |s| >= 1
    ensures forall i :: 0 <= i < |s| ==> IsDigit(s[i])
    ensures n > 0 ==> s[0] != '0'
  {
    if n < 10 then [DigitChar(n)] else DecimalString(n / 10) + [DigitChar(n % 10)]
  }

  /** The number a string of decimal digits denotes. */
  function ParseDecimal(s: string): int {
    if s == [] then 0 else ParseDecimal(s[..|s| - 1]) * 10 + (s[|s| - 1] as int - '0' as int)
  }

  function Pow10(k: nat): nat {
    if k == 0 then 1 else 10 * Pow10(k - 1)
  }

  /** Reading the digits back gives the number: `String` is injective on codes. */
  lemma {:induction false} DecimalRoundTrip(n: nat)
    ensures ParseDecimal(DecimalString(n)) == n
  {
    var s := DecimalString(n);
    if n >= 10 {
      DecimalRoundTrip(n / 10);
      assert s[..|s| - 1] == DecimalString(n / 10);
    }
  }

  /** A number with k digits prints as k characters. */
  lemma {:induction false} DecimalLength(n: nat, k: nat)
    requires k >= 1 && Pow10(k - 1) <= n < Pow10(k)
    ensures |DecimalString(n)| == k
  {
    if k > 1 {
      assert Pow10(k - 1) == 10 * Pow10(k - 2);
      DecimalLength(n / 10, k - 1);
    }
  }

  /** Six decimal digits, the first of them not zero. */
  predicate IsSixDigitCode(s: string) {
    |s| == 6 && (forall i :: 0 <= i < |s| ==> IsDigit(s[i])) && s[0] != '0'
  }

  /** Every code `randomInt` can draw prints as exactly six digits and denotes
      the code drawn; because the upper bound is exclusive, "999999" is never
      issued. */
  lemma SixDigitCode(n: int)
    requires CodeMin <= n < CodeBound
    ensures IsSixDigitCode(DecimalString(n))
    ensures ParseDecimal(DecimalString(n)) == n
    ensures DecimalString(n) != "999999"
  {
    assert Pow10(5) == 100000 && Pow10(6) == 1000000;
    DecimalLength(n, 6);
    DecimalRoundTrip(n);
    assert "999999"[..5] == "99999" && "99999"[..4] == "9999" && "9999"[..3] == "999";
    assert "999"[..2] == "99" && "99"[..1] == "9" && "9"[..0] == "";
    assert ParseDecimal("999999") == 999999;
  }

  // ---------------------------------------------------------------------------
  // Hex secrets: `randomBytes(16).toString("hex")`

  predicate IsHexChar(c: char) { '0' <= c <= '9' || 'a' <= c <= 'f' }

  function HexDigit(d: int): (c: char)
    requires 0 <= d < 16
    ensures IsHexChar(c)
  {
    if d < 10 then ('0' as int + d) as char else ('a' as int + d - 10) as char
  }

  function HexValue(c: char): (d: int)
    requires IsHexChar(c)
    ensures 0 <= d < 16
  {
    if '0' <= c <= '9' then c as int - '0' as int else c as int - 'a' as int + 10
  }

  /** Lower-case hex, two characters per byte, high nibble first. */
  function HexString(bytes: seq<byte>): (s: string)
    ensures |s| == 2 * |bytes|
    ensures forall i :: 0 <= i < |s| ==> IsHexChar(s[i])
  {
    if bytes == [] then []
    else [HexDigit(bytes[0] as int / 16), HexDigit(bytes[0] as int % 16)] + HexString(bytes[1..])
  }

  /** Reads hex text two characters at a time. */
  function HexDecode(s: string): seq<byte>
    requires |s| % 2 == 0
    requires forall i :: 0 <= i < |s| ==> IsHexChar(s[i])
  {
    if s == [] then []
    else [(HexValue(s[0]) * 16 + HexValue(s[1])) as byte] + HexDecode(s[2..])
  }

  /** The hex text determines the bytes it was made from. */
  lemma {:induction false} HexRoundTrip(bytes: seq<byte>)
    ensures HexDecode(HexString(bytes)) == bytes
  {
    if bytes != [] {
      var s := HexString(bytes);
      assert s[2..] == HexString(bytes[1..]);
      HexRoundTrip(bytes[1..]);
    }
  }

  predicate IsHexSecret(s: string) {
    |s| == 32 && forall i :: 0 <= i < |s| ==> IsHexChar(s[i])
  }

  /** Sixteen random bytes give a 32-character lower-case hex secret. */
  lemma HexSecret(bytes: seq<byte>)
    requires |bytes| == 16
    ensures IsHexSecret(HexString(bytes))
  {
  }

  // ---------------------------------------------------------------------------
  // The hash: `bcrypt.hash` / `bcrypt.compare`

  /** A stand-in for `bcrypt.hash` that keeps what the token logic relies on:
      the digest is never the plaintext, and it identifies the plaintext. Salt
      and work factor are not modelled. */
  function Hash(secret: string): (digest: string)
    ensures digest != secret
  {
    "$2b$" + secret
  }

  /** `bcrypt.compare(candidate, digest)`. */
  predicate Compare(candidate: string, digest: string) {
    digest == Hash(candidate)
  }

  /** Comparing against a digest succeeds exactly for the plaintext it was made from. */
  lemma CompareHash(candidate: string, secret: string)
    ensures Compare(candidate, Hash(secret)) <==> candidate == secret
  {
    if Compare(candidate, Hash(secret)) {
      assert Hash(secret)[4..] == secret;
      assert Hash(candidate)[4..] == candidate;
    }
  }
}
