/** The credential strings built at registration (server.js:75-76).
    The random sources are not modelled: the three random bytes and the
    value of `Math.random()` arrive as parameters. */
module CredentialGenerator {
  import opened Records

  newtype Byte = b: int | 0 <= b < 256

  // ---------------------------------------------------------------------------
  // userID: "ID" + randomBytes(3).toString('hex').toUpperCase()
  // ---------------------------------------------------------------------------

  const UserIdPrefix: string := "ID"

  predicate IsLowerHex(c: char) {
    '0' <= c <= '9' || 'a' <= c <= 'f'
  }

  predicate IsUpperHex(c: char) {
    '0' <= c <= '9' || 'A' <= c <= 'F'
  }

  /** The lower-case digit for a nibble, as Buffer's 'hex' encoding writes it. */
  function HexDigit(d: int): (c: char)
    requires 0 <= d < 16
    ensures IsLowerHex(c)
  {
    if d < 10 then (48 + d) as char else (87 + d) as char
  }

  /** `Buffer.toString('hex')`: two lower-case digits per byte, high nibble first. */
  function HexEncode(bytes: seq<Byte>): (s: string)
    ensures |s| == 2 * |bytes|
    ensures forall i :: 0 <= i < |s| ==> IsLowerHex(s[i])
  {
    if bytes == [] then []
    else [HexDigit(bytes[0] as int / 16), HexDigit(bytes[0] as int % 16)] + HexEncode(bytes[1..])
  }

  /** `String.prototype.toUpperCase` on one character, for the ASCII letters it meets here. */
  function UpperChar(c: char): char {
    if 'a' <= c <= 'z' then (c as int - 32) as char else c
  }

  function ToUpperCase(s: string): (r: string)
    ensures |r| == |s|
    ensures forall i :: 0 <= i < |s| ==> r[i] == UpperChar(s[i])
  {
    if s == [] then [] else [UpperChar(s[0])] + ToUpperCase(s[1..])
  }

  /** The identifier handed out for the given three random bytes. */
  function MakeUserId(bytes: seq<Byte>): (id: string)
    requires |bytes| == 3
    ensures IsUserIdFormat(id)
  {
    UserIdPrefix + ToUpperCase(HexEncode(bytes))
  }

  /** "ID" followed by exactly six upper-case hexadecimal digits. */
  predicate IsUserIdFormat(s: string) {
    |s| == 8 && s[..2] == UserIdPrefix && forall i :: 2 <= i < 8 ==> IsUpperHex(s[i])
  }

  function HexValue(c: char): (d: int)
    requires IsUpperHex(c)
    ensures 0 <= d < 16
  {
    if c <= '9' then c as int - 48 else c as int - 55
  }

  /** Reads pairs of upper-case hexadecimal digits back into bytes. */
  function HexDecode(s: string): (bytes: seq<Byte>)
    requires |s| % 2 == 0
    requires forall i :: 0 <= i < |s| ==> IsUpperHex(s[i])
    ensures 2 * |bytes| == |s|
  {
    if s == [] then []
    else [(HexValue(s[0]) * 16 + HexValue(s[1])) as Byte] + HexDecode(s[2..])
  }

  /** The random bytes an identifier was made from, for any string of the identifier format. */
  function ParseUserId(s: string): (r: Option<seq<Byte>>)
    ensures r.Some? <==> IsUserIdFormat(s)
    ensures r.Some? ==> |r.value| == 3
  {
    if IsUserIdFormat(s) then Some(HexDecode(s[2..])) else None
  }

  lemma {:induction false} HexRoundTrip(bytes: seq<Byte>)
    ensures HexDecode(ToUpperCase(HexEncode(bytes))) == bytes
  {
    if bytes != [] {
      var b := bytes[0] as int;
      var s := ToUpperCase(HexEncode(bytes));
      var rest := ToUpperCase(HexEncode(bytes[1..]));
      assert s[2..] == rest;
      assert HexValue(s[0]) == b / 16 && HexValue(s[1]) == b % 16;
      HexRoundTrip(bytes[1..]);
    }
  }

  lemma {:induction false} HexRoundTripUpper(s: string)
    requires |s| % 2 == 0
    requires forall i :: 0 <= i < |s| ==> IsUpperHex(s[i])
    ensures ToUpperCase(HexEncode(HexDecode(s))) == s
  {
    if s != [] {
      var bytes := HexDecode(s);
      var v := HexValue(s[0]) * 16 + HexValue(s[1]);
      assert bytes[0] as int == v && bytes[1..] == HexDecode(s[2..]);
      assert v / 16 == HexValue(s[0]) && v % 16 == HexValue(s[1]);
      var t := ToUpperCase(HexEncode(bytes));
      HexRoundTripUpper(s[2..]);
      assert t[2..] == ToUpperCase(HexEncode(bytes[1..]));
      assert t == s;
    }
  }

  /** Parsing an issued identifier gives back the random bytes it was made from. */
  lemma UserIdRoundTrip(bytes: seq<Byte>)
    requires |bytes| == 3
    ensures ParseUserId(MakeUserId(bytes)) == Some(bytes)
  {
    var id := MakeUserId(bytes);
    assert id[2..] == ToUpperCase(HexEncode(bytes));
    HexRoundTrip(bytes);
  }

  /** Every string of the identifier format is issued for some three bytes. */
  lemma UserIdOnto(s: string)
    requires IsUserIdFormat(s)
    ensures MakeUserId(ParseUserId(s).value) == s
  {
    HexRoundTripUpper(s[2..]);
    assert s == s[..2] + s[2..];
  }

  /** Distinct random draws give distinct identifiers: the 2^24 identifiers
      are in one-to-one correspondence with the 3-byte draws. */
  lemma UserIdInjective(a: seq<Byte>, b: seq<Byte>)
    requires |a| == 3 && |b| == 3
    requires MakeUserId(a) == MakeUserId(b)
    ensures a == b
  {
    UserIdRoundTrip(a);
    UserIdRoundTrip(b);
  }

  // ---------------------------------------------------------------------------
  // pin: Math.floor(1000 + Math.random()*9000).toString()
  // ---------------------------------------------------------------------------

  /** The integer drawn for a value `random` of `Math.random()`, computed
      over the reals: the result is a four-digit number. */
  function PinNumber(random: real): (n: int)
    requires 0.0 <= random < 1.0
    ensures 1000 <= n <= 9999
  {
    (1000.0 + random * 9000.0).Floor
  }

  /** Every number from 1000 to 9999 is drawn for some value of `Math.random()`. */
  lemma PinNumberOnto(n: int)
    requires 1000 <= n <= 9999
    ensures PinNumber((n - 1000) as real / 9000.0) == n
  {
    var r := (n - 1000) as real / 9000.0;
    assert 1000.0 + r * 9000.0 == n as real;
  }

  predicate IsDigit(c: char) {
    '0' <= c <= '9'
  }

  function Digit(d: int): (c: char)
    requires 0 <= d < 10
    ensures IsDigit(c)
  {
    (48 + d) as char
  }

  /** `Number.prototype.toString()` for a non-negative integer: decimal, without leading zeros. */
  function DecimalString(n: nat): (s: string)
    ensures |s| >= 1
    ensures forall i :: 0 <= i < |s| ==> IsDigit(s[i])
    ensures n >= 10 ==> s[0] != '0'
  {
    if n < 10 then [Digit(n)] else DecimalString(n / 10) + [Digit(n % 10)]
  }

  function DigitValue(c: char): (d: int)
    requires IsDigit(c)
    ensures 0 <= d < 10
  {
    c as int - 48
  }

  /** The number a string of decimal digits denotes. */
  function DecimalValue(s: string): nat
    requires forall i :: 0 <= i < |s| ==> IsDigit(s[i])
  {
    if s == [] then 0 else DecimalValue(s[..|s| - 1]) * 10 + DigitValue(s[|s| - 1])
  }

  /** How `toString()` writes a number: at least one digit, no leading zero unless it is "0". */
  predicate IsCanonicalDecimal(s: string) {
    |s| >= 1 && (forall i :: 0 <= i < |s| ==> IsDigit(s[i])) && (|s| > 1 ==> s[0] != '0')
  }

  /** Four decimal digits, the first not zero: the strings of the numbers 1000 to 9999. */
  predicate IsPinFormat(s: string) {
    |s| == 4 && (forall i :: 0 <= i < 4 ==> IsDigit(s[i])) && s[0] != '0'
  }

  /** The PIN issued for a value `random` of `Math.random()`. */
  function MakePin(random: real): (pin: string)
    requires 0.0 <= random < 1.0
    ensures IsPinFormat(pin)
  {
    PinDigits(PinNumber(random));
    DecimalString(PinNumber(random))
  }

  lemma {:induction false} DecimalRoundTrip(n: nat)
    ensures DecimalValue(DecimalString(n)) == n
  {
    if n >= 10 {
      var s := DecimalString(n);
      assert s[..|s| - 1] == DecimalString(n / 10);
      DecimalRoundTrip(n / 10);
    }
  }

  lemma {:induction false} CanonicalIsPositive(s: string)
    requires IsCanonicalDecimal(s) && |s| > 1
    ensures DecimalValue(s) >= 10
  {
    var t := s[..|s| - 1];
    if |t| > 1 {
      assert t[0] == s[0];
      CanonicalIsPositive(t);
    } else {
      assert t[0] == s[0];
      assert DecimalValue(t) == DecimalValue(t[..0]) * 10 + DigitValue(t[0]);
    }
  }

  lemma {:induction false} DecimalRoundTripCanonical(s: string)
    requires IsCanonicalDecimal(s)
    ensures DecimalString(DecimalValue(s)) == s
  {
    if |s| > 1 {
      var t := s[..|s| - 1];
      assert t[0] == s[0];
      assert IsCanonicalDecimal(t);
      CanonicalIsPositive(s);
      DecimalRoundTripCanonical(t);
      assert s == t + [s[|s| - 1]];
    } else {
      assert DecimalValue(s) == DecimalValue(s[..0]) * 10 + DigitValue(s[0]);
    }
  }

  /** The numbers from 1000 to 9999 are exactly those whose decimal string is in PIN format. */
  lemma PinDigits(n: nat)
    ensures IsPinFormat(DecimalString(n)) <==> 1000 <= n <= 9999
  {
    if 1000 <= n <= 9999 {
      assert DecimalString(n) == DecimalString(n / 10) + [Digit(n % 10)];
      assert DecimalString(n / 10) == DecimalString(n / 100) + [Digit(n / 10 % 10)];
      assert DecimalString(n / 100) == DecimalString(n / 1000) + [Digit(n / 100 % 10)];
    } else if IsPinFormat(DecimalString(n)) {
      var s := DecimalString(n);
      DecimalRoundTrip(n);
      PinFormatValue(s);
    }
  }

  lemma PinFormatValue(s: string)
    requires IsPinFormat(s)
    ensures 1000 <= DecimalValue(s) <= 9999
  {
    assert s[..3][..2] == s[..2] && s[..2][..1] == s[..1] && s[..1][..0] == [];
    assert DecimalValue(s[..1]) == DigitValue(s[0]);
    assert DecimalValue(s[..2]) == DecimalValue(s[..1]) * 10 + DigitValue(s[1]);
    assert DecimalValue(s[..3]) == DecimalValue(s[..2]) * 10 + DigitValue(s[2]);
    assert s[..4] == s;
  }

  /** A string is a PIN the generator can issue exactly when it is in PIN format. */
  lemma PinFormatIssued(s: string)
    ensures IsPinFormat(s) <==> exists r: real :: 0.0 <= r < 1.0 && MakePin(r) == s
  {
    if IsPinFormat(s) {
      PinFormatValue(s);
      assert IsCanonicalDecimal(s);
      DecimalRoundTripCanonical(s);
      var n := DecimalValue(s);
      PinNumberOnto(n);
      var r := (n - 1000) as real / 9000.0;
      assert MakePin(r) == s;
    }
  }
}
