/**
 * The 16-byte device identity in the layout of SDL's game-controller
 * mapping files, and its hex rendering (src/joystick.c:244-295).
 */
module JoyGuid {
  import opened JoyCodes

  /** `uint8_t` */
  type Byte = x: int | 0 <= x < 0x100

  /** `JOY_GUID_SIZE` */
  const GUID_SIZE: nat := 16
  /** Room for two hex digits per GUID byte and the terminating NUL. */
  const GUID_STR_SIZE: nat := 2 * GUID_SIZE + 1

  /** `(uint8_t)(x & 0xff)` */
  function Lo(x: U16): Byte { x % 0x100 }
  /** `(uint8_t)(x >> 8)` */
  function Hi(x: U16): Byte { x / 0x100 }

  /** The 16-bit little-endian value stored at `at` and `at + 1`. */
  function LE16(g: seq<Byte>, at: nat): U16
    requires at + 1 < |g|
  {
    g[at] as int + 0x100 * g[at + 1] as int
  }

  /** Bytes 2-3, 6-7, 10-11, 14 and 15: where SDL keeps a CRC and driver data, zero here. */
  predicate IsReservedByte(i: nat)
  {
    i % 4 >= 2
  }

  /** `dev_info_generate_guid`: bus type, vendor, product and version, each in its own 4-byte slot. */
  function Guid(bustype: U16, vendor: U16, product: U16, version: U16): (g: seq<Byte>)
    ensures |g| == GUID_SIZE
  {
    [Lo(bustype), Hi(bustype), 0, 0,
     Lo(vendor), Hi(vendor), 0, 0,
     Lo(product), Hi(product), 0, 0,
     Lo(version), Hi(version), 0, 0]
  }

  /** Each identity field sits little-endian at the start of its slot, and the rest of the slot is zero. */
  lemma GuidLayout(bustype: U16, vendor: U16, product: U16, version: U16)
    ensures var g := Guid(bustype, vendor, product, version);
      && LE16(g, 0x00) == bustype && LE16(g, 0x04) == vendor
      && LE16(g, 0x08) == product && LE16(g, 0x0c) == version
      && forall i :: 0 <= i < |g| && IsReservedByte(i) ==> g[i] == 0
  {
  }

  /** The four identity fields of a device. */
  datatype Identity = Identity(bustype: U16, vendor: U16, product: U16, version: U16)

  /** Reads the identity back out of a GUID. */
  function GuidIdentity(g: seq<Byte>): Identity
    requires |g| == GUID_SIZE
  {
    Identity(LE16(g, 0x00), LE16(g, 0x04), LE16(g, 0x08), LE16(g, 0x0c))
  }

  /** The GUID determines the identity fields, so two devices share a GUID exactly when all four coincide. */
  lemma GuidRoundTrip(bustype: U16, vendor: U16, product: U16, version: U16)
    ensures GuidIdentity(Guid(bustype, vendor, product, version)) == Identity(bustype, vendor, product, version)
  {
    GuidLayout(bustype, vendor, product, version);
  }

  lemma GuidInjective(a: Identity, b: Identity)
    ensures Guid(a.bustype, a.vendor, a.product, a.version) == Guid(b.bustype, b.vendor, b.product, b.version)
            <==> a == b
  {
    if Guid(a.bustype, a.vendor, a.product, a.version) == Guid(b.bustype, b.vendor, b.product, b.version) {
      GuidRoundTrip(a.bustype, a.vendor, a.product, a.version);
      GuidRoundTrip(b.bustype, b.vendor, b.product, b.version);
    }
  }

  // ---------------------------------------------------------------------
  // Hex rendering

  /** `digits` of `dev_info_generate_guid_str` */
  const HEX_DIGITS: string := "0123456789abcdef"

  /** Value of a lowercase hex digit, -1 for any other character. */
  function HexDigitValue(c: char): int
  {
    if '0' <= c <= '9' then c as int - '0' as int
    else if 'a' <= c <= 'f' then c as int - 'a' as int + 10
    else -1
  }

  /** A lowercase hex digit. */
  predicate IsHexDigit(c: char)
  {
    '0' <= c <= '9' || 'a' <= c <= 'f'
  }

  /** Each digit of the table is a lowercase hex digit and reads back to its position. */
  lemma HexDigitsDecode()
    ensures forall n :: 0 <= n < 16 ==> IsHexDigit(HEX_DIGITS[n]) && HexDigitValue(HEX_DIGITS[n]) == n
  {
  }

  /** A lowercase hex string of whole bytes. */
  predicate IsLowerHex(s: string)
  {
    |s| % 2 == 0 && forall i :: 0 <= i < |s| ==> IsHexDigit(s[i])
  }

  /**
   * `dev_info_generate_guid_str` as evidently intended: byte i becomes
   * characters 2i (high nibble) and 2i+1 (low nibble).
   */
  function HexString(bytes: seq<Byte>): (s: string)
    ensures |s| == 2 * |bytes|
    ensures forall i :: 0 <= i < |bytes| ==>
      s[2 * i] == HEX_DIGITS[bytes[i] / 16] && s[2 * i + 1] == HEX_DIGITS[bytes[i] % 16]
  {
    if bytes == [] then ""
    else
      var last := bytes[|bytes| - 1];
      HexString(bytes[..|bytes| - 1]) + [HEX_DIGITS[last / 16], HEX_DIGITS[last % 16]]
  }

  /** The value of a pair of hex digits, high digit first. */
  function HexPairValue(hi: char, lo: char): int
  {
    16 * HexDigitValue(hi) + HexDigitValue(lo)
  }

  /** Parses a hex string two digits at a time; an odd last digit is ignored. */
  function HexDecode(s: string): (bytes: seq<int>)
    ensures |s| - 1 <= 2 * |bytes| <= |s|
    ensures forall i :: 0 <= i < |bytes| ==> bytes[i] == HexPairValue(s[2 * i], s[2 * i + 1])
  {
    if |s| < 2 then []
    else [HexPairValue(s[0], s[1])] + HexDecode(s[2..])
  }

  /** The rendering is lowercase hex and reads back to the bytes it came from. */
  lemma HexRoundTrip(bytes: seq<Byte>)
    ensures IsLowerHex(HexString(bytes))
    ensures HexDecode(HexString(bytes)) == bytes
  {
    var s := HexString(bytes);
    DoubleIsEven(|bytes|);
    forall i | 0 <= i < |s|
      ensures IsHexDigit(s[i])
    {
      HexDigitAt(bytes, i);
    }
    var d := HexDecode(s);
    assert |d| == |bytes|;
    forall i | 0 <= i < |bytes|
      ensures d[i] == bytes[i]
    {
      assert s[2 * i] == HEX_DIGITS[bytes[i] / 16] && s[2 * i + 1] == HEX_DIGITS[bytes[i] % 16];
      HexByteDecodes(bytes[i]);
    }
  }

  lemma DoubleIsEven(n: nat)
    ensures (2 * n) % 2 == 0
  {
  }

  /** Every position is the high or the low digit of the pair at half of it. */
  lemma Halve(j: nat)
    ensures j == 2 * (j / 2) || j == 2 * (j / 2) + 1
  {
  }

  /** Every character of the rendering is a digit of the table. */
  lemma HexDigitAt(bytes: seq<Byte>, i: nat)
    requires i < 2 * |bytes|
    ensures IsHexDigit(HexString(bytes)[i])
  {
    var s := HexString(bytes);
    var k := i / 2;
    Halve(i);
    assert k < |bytes|;
    HexDigitsDecode();
    if i == 2 * k {
      assert s[i] == HEX_DIGITS[bytes[k] / 16];
    } else {
      assert s[i] == HEX_DIGITS[bytes[k] % 16];
    }
  }


  /** The two digits of one byte read back to that byte. */
  lemma HexByteDecodes(b: Byte)
    ensures HexPairValue(HEX_DIGITS[b / 16], HEX_DIGITS[b % 16]) == b
  {
    HexDigitsDecode();
  }

  /**
   * `dev_info_generate_guid_str` as written: the high digit is
   * `digits[guid[i] >> 8]`, and a byte shifted right by 8 is always 0.
   */
  function HexStringAsWritten(bytes: seq<Byte>): (s: string)
    ensures |s| == 2 * |bytes|
    ensures forall i :: 0 <= i < |bytes| ==>
      s[2 * i] == '0' && s[2 * i + 1] == HEX_DIGITS[bytes[i] % 16]
  {
    if bytes == [] then ""
    else
      var last := bytes[|bytes| - 1];
      HexStringAsWritten(bytes[..|bytes| - 1]) + [HEX_DIGITS[last / 0x100], HEX_DIGITS[last % 16]]
  }

  /** The string as written reads back to the GUID only when every byte is below 16. */
  lemma {:induction false} HexAsWrittenLosesHighNibbles(bytes: seq<Byte>)
    ensures HexDecode(HexStringAsWritten(bytes)) == bytes <==> forall i :: 0 <= i < |bytes| ==> bytes[i] < 16
  {
    if forall i :: 0 <= i < |bytes| ==> bytes[i] < 16 {
      HexAsWrittenKeepsLowBytes(bytes);
    } else {
      var s := HexStringAsWritten(bytes);
      var i :| 0 <= i < |bytes| && bytes[i] >= 16;
      assert s[2 * i] == '0' && s[2 * i + 1] == HEX_DIGITS[bytes[i] % 16];
      HexLowDigitDecodes(bytes[i]);
      assert HexDecode(s)[i] != bytes[i];
    }
  }

  /** Bytes below 16 survive the rendering as written. */
  lemma HexAsWrittenKeepsLowBytes(bytes: seq<Byte>)
    requires forall i :: 0 <= i < |bytes| ==> bytes[i] < 16
    ensures HexDecode(HexStringAsWritten(bytes)) == bytes
  {
    var s := HexStringAsWritten(bytes);
    var d := HexDecode(s);
    assert |d| == |bytes|;
    forall i | 0 <= i < |bytes|
      ensures d[i] == bytes[i]
    {
      assert s[2 * i] == '0' && s[2 * i + 1] == HEX_DIGITS[bytes[i] % 16];
      HexLowDigitDecodes(bytes[i]);
      SmallByte(bytes[i]);
    }
  }

  /** A byte below 16 is its own low nibble and has no bits above the low 8. */
  lemma SmallByte(b: Byte)
    requires b < 16
    ensures b % 16 == b && b / 0x100 == 0
  {
  }

  /** A '0' followed by the low digit of a byte reads back to the low nibble alone. */
  lemma HexLowDigitDecodes(b: Byte)
    ensures HexPairValue('0', HEX_DIGITS[b % 16]) == b % 16
  {
    HexDigitsDecode();
  }

  /** Example: an Xbox 360 pad on USB (bus 3, vendor 0x045e, product 0x028e, version 0x0110). */
  lemma XboxPadGuid()
    ensures Guid(3, 0x045e, 0x028e, 0x0110)
            == [0x03, 0x00, 0x00, 0x00, 0x5e, 0x04, 0x00, 0x00, 0x8e, 0x02, 0x00, 0x00, 0x10, 0x01, 0x00, 0x00]
  {
  }

  /** A string of the right length with the right pair of digits for every byte is the rendering. */
  lemma HexStringIs(bytes: seq<Byte>, s: string)
    requires |s| == 2 * |bytes|
    requires forall i :: 0 <= i < |bytes| ==> s[2 * i] == HEX_DIGITS[bytes[i] / 16] && s[2 * i + 1] == HEX_DIGITS[bytes[i] % 16]
    ensures HexString(bytes) == s
  {
    var h := HexString(bytes);
    forall j | 0 <= j < |s| ensures h[j] == s[j] {
      var k := j / 2;
      Halve(j);
      assert 0 <= k < |bytes|;
      if j == 2 * k {
        assert h[2 * k] == HEX_DIGITS[bytes[k] / 16] == s[2 * k];
      } else {
        assert j == 2 * k + 1;
        assert h[2 * k + 1] == HEX_DIGITS[bytes[k] % 16] == s[2 * k + 1];
      }
    }
  }

  lemma XboxPadGuidString()
    ensures HexString(Guid(3, 0x045e, 0x028e, 0x0110)) == "030000005e0400008e02000010010000"
  {
    XboxPadGuid();
    var g := Guid(3, 0x045e, 0x028e, 0x0110);
    var s := "030000005e0400008e02000010010000";
    forall i | 0 <= i < 16 ensures s[2 * i] == HEX_DIGITS[g[i] / 16] && s[2 * i + 1] == HEX_DIGITS[g[i] % 16] {
    }
    HexStringIs(g, s);
  }

  /** The same for the rendering as written, whose high digits are all '0'. */
  lemma HexStringAsWrittenIs(bytes: seq<Byte>, s: string)
    requires |s| == 2 * |bytes|
    requires forall i :: 0 <= i < |bytes| ==> s[2 * i] == '0' && s[2 * i + 1] == HEX_DIGITS[bytes[i] % 16]
    ensures HexStringAsWritten(bytes) == s
  {
    var w := HexStringAsWritten(bytes);
    forall j | 0 <= j < |s| ensures w[j] == s[j] {
      var k := j / 2;
      Halve(j);
      assert 0 <= k < |bytes|;
      if j == 2 * k {
        assert w[2 * k] == '0' == s[2 * k];
      } else {
        assert j == 2 * k + 1;
        assert w[2 * k + 1] == HEX_DIGITS[bytes[k] % 16] == s[2 * k + 1];
      }
    }
  }

  /** With the shift by 8, every high digit of the example comes out '0'. */
  lemma XboxPadGuidStringAsWritten()
    ensures HexStringAsWritten(Guid(3, 0x045e, 0x028e, 0x0110)) == "030000000e0400000e02000000010000"
  {
    XboxPadGuid();
    var g := Guid(3, 0x045e, 0x028e, 0x0110);
    var w := "030000000e0400000e02000000010000";
    forall i | 0 <= i < 16 ensures w[2 * i] == '0' && w[2 * i + 1] == HEX_DIGITS[g[i] % 16] {
    }
    HexStringAsWrittenIs(g, w);
  }
}
