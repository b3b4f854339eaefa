/**
 * The firmware-info record of dep.go and its `String` method, which Go
 * formats with `"%v.%v.%v.%v - (%v)"`: each byte in unsigned decimal, no
 * leading zeros.  `Parse` reads such a string back; the round trip shows
 * that the rendering loses nothing.
 */
module Dep {
  import opened Wrappers

  datatype FirmwareInfo = FirmwareInfo(
    majorVersion: bv8,
    minorVersion: bv8,
    patchVersion: bv8,
    rcVersion: bv8,
    packetCount: bv8)

  // ---------------------------------------------------------------------
  // Unsigned decimal

  predicate IsDigit(c: char) { '0' <= c <= '9' }

  predicate AllDigits(s: string) { forall i :: 0 <= i < |s| ==> IsDigit(s[i]) }

  function DigitChar(d: nat): (c: char)
    requires d < 10
    ensures IsDigit(c) && c as int - '0' as int == d
  {
    ('0' as int + d) as char
  }

  /** `%v` of an unsigned integer: decimal digits, no leading zero. */
  function Decimal(n: nat): (s: string)
    ensures |s| >= 1 && AllDigits(s)
    ensures |s| > 1 ==> s[0] != '0'
    decreases n
  {
    if n < 10 then [DigitChar(n)] else Decimal(n / 10) + [DigitChar(n % 10)]
  }

  /** The value of a string of decimal digits. */
  function DecimalValue(s: string): nat
    requires AllDigits(s)
    decreases |s|
  {
    if s == [] then 0
    else DecimalValue(s[..|s| - 1]) * 10 + (s[|s| - 1] as int - '0' as int)
  }

  lemma {:induction false} DecimalRoundTrip(n: nat)
    ensures DecimalValue(Decimal(n)) == n
    decreases n
  {
    if n >= 10 {
      DecimalRoundTrip(n / 10);
      var s := Decimal(n);
      assert s[..|s| - 1] == Decimal(n / 10);
    }
  }

  /** A byte takes one to three digits. */
  lemma {:induction false} DecimalByteLength(n: nat)
    requires n < 256
    ensures 1 <= |Decimal(n)| <= 3
    ensures |Decimal(n)| == (if n < 10 then 1 else if n < 100 then 2 else 3)
  {
    if n >= 10 {
      DecimalByteLength(n / 10);
    }
  }

  // ---------------------------------------------------------------------
  // Rendering

  function ByteDecimal(b: bv8): string { Decimal(b as nat) }

  /** Go's `DasKeyboardFirmwareInfo.String`: `major.minor.patch.rc - (count)`. */
  function Render(d: FirmwareInfo): (s: string)
    ensures 13 <= |s| <= 23
  {
    DecimalByteLength(d.majorVersion as nat);
    DecimalByteLength(d.minorVersion as nat);
    DecimalByteLength(d.patchVersion as nat);
    DecimalByteLength(d.rcVersion as nat);
    DecimalByteLength(d.packetCount as nat);
    // associated to the right, so that the string reads from the front
    ByteDecimal(d.majorVersion) + ("." + (ByteDecimal(d.minorVersion) + ("." + (ByteDecimal(d.patchVersion)
    + ("." + (ByteDecimal(d.rcVersion) + (" - (" + (ByteDecimal(d.packetCount) + ")"))))))))
  }

  // ---------------------------------------------------------------------
  // Reading a rendering back

  /** The length of the run of digits that starts `s`. */
  function DigitRun(s: string): (k: nat)
    ensures k <= |s| && AllDigits(s[..k])
    ensures k < |s| ==> !IsDigit(s[k])
    decreases |s|
  {
    if s != [] && IsDigit(s[0]) then
      var k := 1 + DigitRun(s[1..]);
      assert s[..k] == [s[0]] + s[1..][..k - 1];
      k
    else 0
  }

  /** A byte in decimal at the head of `s`, and what follows it. */
  function ParseByte(s: string): Option<(bv8, string)>
  {
    var k := DigitRun(s);
    if k == 0 then None
    else
      var v := DecimalValue(s[..k]);
      if v < 256 then Some((v as bv8, s[k..])) else None
  }

  /** What follows the literal `lit` at the head of `s`. */
  function Expect(s: string, lit: string): Option<string>
  {
    if |lit| <= |s| && s[..|lit|] == lit then Some(s[|lit|..]) else None
  }

  /** Splits on `.`, ` - (` and `)`, reading the five fields back. */
  function Parse(s: string): Option<FirmwareInfo>
  {
    var (major, s) :- ParseByte(s);
    var s :- Expect(s, ".");
    var (minor, s) :- ParseByte(s);
    var s :- Expect(s, ".");
    var (patch, s) :- ParseByte(s);
    var s :- Expect(s, ".");
    var (rc, s) :- ParseByte(s);
    var s :- Expect(s, " - (");
    var (count, s) :- ParseByte(s);
    var s :- Expect(s, ")");
    if s == [] then Some(FirmwareInfo(major, minor, patch, rc, count)) else None
  }

  lemma {:induction false} DigitRunOfDigits(d: string, rest: string)
    requires AllDigits(d)
    requires rest == [] || !IsDigit(rest[0])
    ensures DigitRun(d + rest) == |d|
    decreases |d|
  {
    if d != [] {
      assert (d + rest)[1..] == d[1..] + rest;
      DigitRunOfDigits(d[1..], rest);
    } else {
      assert d + rest == rest;
    }
  }

  lemma ParseByteOfDecimal(b: bv8, rest: string)
    requires rest == [] || !IsDigit(rest[0])
    ensures ParseByte(ByteDecimal(b) + rest) == Some((b, rest))
  {
    var d := ByteDecimal(b);
    DigitRunOfDigits(d, rest);
    assert (d + rest)[..|d|] == d;
    assert (d + rest)[|d|..] == rest;
    DecimalRoundTrip(b as nat);
  }

  lemma ExpectLiteral(lit: string, rest: string)
    ensures Expect(lit + rest, lit) == Some(rest)
  {
    assert (lit + rest)[..|lit|] == lit;
    assert (lit + rest)[|lit|..] == rest;
  }

  /** Splitting the rendering on its separators recovers all five fields. */
  lemma ParseRender(d: FirmwareInfo)
    ensures Parse(Render(d)) == Some(d)
  {
    var s5 := ")";
    var s4 := ByteDecimal(d.packetCount) + s5;
    var s3 := " - (" + s4;
    var s2 := ByteDecimal(d.rcVersion) + s3;
    var t2 := "." + s2;
    var u2 := ByteDecimal(d.patchVersion) + t2;
    var t1 := "." + u2;
    var u1 := ByteDecimal(d.minorVersion) + t1;
    var t0 := "." + u1;
    var u0 := ByteDecimal(d.majorVersion) + t0;
    assert Render(d) == u0;
    ParseByteOfDecimal(d.majorVersion, t0);
    ExpectLiteral(".", u1);
    ParseByteOfDecimal(d.minorVersion, t1);
    ExpectLiteral(".", u2);
    ParseByteOfDecimal(d.patchVersion, t2);
    ExpectLiteral(".", s2);
    ParseByteOfDecimal(d.rcVersion, s3);
    ExpectLiteral(" - (", s4);
    ParseByteOfDecimal(d.packetCount, s5);
    ExpectLiteral(")", []);
    assert ")" + [] == ")";
  }

  /** Distinct records render to distinct strings. */
  lemma RenderInjective(d: FirmwareInfo, e: FirmwareInfo)
    ensures Render(d) == Render(e) <==> d == e
  {
    if Render(d) == Render(e) {
      ParseRender(d);
      ParseRender(e);
    }
  }
}
