/**
 * The joystick record `joy_dev_info_t` (src/joystick.h:20-41) and the
 * operations of src/joystick.c that fill and copy it: clearing, GUID and
 * GUID-string generation, the button scan, the axis/hat scan and the deep
 * copy `joy_dev_info_dup`.
 *
 * libevdev is replaced by an `Evdev` value: the device name, the four
 * identity numbers, and for EV_KEY and EV_ABS whether the event type is
 * supported and which codes of it are.
 */
module JoyDevice {
  import opened JoyCodes
  import opened JoyGuid

  /** An entry of the axis and hat maps: the absolute-axis code it stands for. */
  datatype AbsInfo = AbsInfo(code: U16)

  /** What an opened libevdev handle reports about a device. */
  datatype Evdev = Evdev(
    name: string,
    bustype: int, vendor: int, product: int, version: int,
    hasKey: bool, keyCodes: set<nat>,
    hasAbs: bool, absCodes: set<nat>)

  /** The conversion `(uint16_t)x`: reduction modulo 2^16. */
  function Trunc16(x: int): (r: U16)
    ensures (r - x) % 0x1_0000 == 0
  {
    x % 0x1_0000
  }

  // ---------------------------------------------------------------------
  // Scanning a code range

  /** Which codes of a range a scan keeps. */
  datatype Kind = AnyCode | AxisCode | HatCode

  predicate Keeps(k: Kind, code: nat)
  {
    match k
    case AnyCode => true
    case AxisCode => !IsHatCode(code)
    case HatCode => IsHatCode(code)
  }

  predicate Increasing(s: seq<int>)
  {
    forall i, j :: 0 <= i < j < |s| ==> s[i] < s[j]
  }

  /**
   * The codes of kind `k` in [lo, hi) that the device supports, in the
   * order a loop counting up from `lo` meets them.
   */
  function Scan(has: set<nat>, k: Kind, lo: nat, hi: nat): (r: seq<U16>)
    requires hi <= 0x1_0000
    decreases hi
  {
    if hi <= lo then []
    else Scan(has, k, lo, hi - 1) + (if hi - 1 in has && Keeps(k, hi - 1) then [hi - 1] else [])
  }

  /** A scan holds exactly the supported codes of its kind in its range. */
  lemma {:induction false} ScanMembers(has: set<nat>, k: Kind, lo: nat, hi: nat)
    requires hi <= 0x1_0000
    ensures forall c: int :: c in Scan(has, k, lo, hi) <==> lo <= c < hi && c in has && Keeps(k, c)
    decreases hi
  {
    if lo < hi {
      ScanMembers(has, k, lo, hi - 1);
    }
  }

  /** A scan is strictly ascending, so no code appears twice. */
  lemma {:induction false} ScanIncreasing(has: set<nat>, k: Kind, lo: nat, hi: nat)
    requires hi <= 0x1_0000
    ensures Increasing(Scan(has, k, lo, hi))
    decreases hi
  {
    if lo < hi {
      var s := Scan(has, k, lo, hi - 1);
      ScanIncreasing(has, k, lo, hi - 1);
      ScanMembers(has, k, lo, hi - 1);
      assert forall i :: 0 <= i < |s| ==> s[i] in s;
    }
  }

  /** One more code: the scan grows by that code exactly when it is supported and of the kind. */
  lemma ScanStep(has: set<nat>, k: Kind, lo: nat, hi: nat)
    requires lo <= hi < 0x1_0000
    ensures hi in has && Keeps(k, hi) ==> Scan(has, k, lo, hi + 1) == Scan(has, k, lo, hi) + [hi]
    ensures !(hi in has && Keeps(k, hi)) ==> Scan(has, k, lo, hi + 1) == Scan(has, k, lo, hi)
  {
  }

  /** A kept code extends the scan and leaves room below the end of a wider range. */
  lemma ScanKept(has: set<nat>, k: Kind, lo: nat, code: nat, hi: nat)
    requires lo <= code < hi <= 0x1_0000 && code in has && Keeps(k, code)
    ensures Scan(has, k, lo, code + 1) == Scan(has, k, lo, code) + [code]
    ensures |Scan(has, k, lo, code + 1)| == |Scan(has, k, lo, code)| + 1
    ensures |Scan(has, k, lo, code)| < |Scan(has, k, lo, hi)|
  {
    ScanLengthMono(has, k, lo, code + 1, hi);
  }

  /** A code that is not kept leaves the scan as it is. */
  lemma ScanSkipped(has: set<nat>, k: Kind, lo: nat, code: nat)
    requires lo <= code < 0x1_0000 && !(code in has && Keeps(k, code))
    ensures Scan(has, k, lo, code + 1) == Scan(has, k, lo, code)
  {
  }

  /** A scan holds at most one code per code of its range. */
  lemma {:induction false} ScanBound(has: set<nat>, k: Kind, lo: nat, hi: nat)
    requires hi <= 0x1_0000
    ensures |Scan(has, k, lo, hi)| <= if lo <= hi then hi - lo else 0
    decreases hi
  {
    if lo < hi {
      ScanBound(has, k, lo, hi - 1);
    }
  }

  /** Widening the range never shortens the scan. */
  lemma {:induction false} ScanLengthMono(has: set<nat>, k: Kind, lo: nat, mid: nat, hi: nat)
    requires mid <= hi <= 0x1_0000
    ensures |Scan(has, k, lo, mid)| <= |Scan(has, k, lo, hi)|
    decreases hi
  {
    if mid < hi {
      ScanLengthMono(has, k, lo, mid, hi - 1);
    }
  }

  /** A scan is empty exactly when the range holds no supported code of its kind. */
  lemma ScanEmpty(has: set<nat>, k: Kind, lo: nat, hi: nat)
    requires hi <= 0x1_0000
    ensures Scan(has, k, lo, hi) == [] <==> forall c :: lo <= c < hi ==> !(c in has && Keeps(k, c))
  {
    ScanMembers(has, k, lo, hi);
    var s := Scan(has, k, lo, hi);
    if s != [] {
      assert s[0] in s;
    }
  }

  /** A scan of [lo, hi) is the scan of [lo, mid) followed by that of [mid, hi). */
  lemma {:induction false} ScanSplit(has: set<nat>, k: Kind, lo: nat, mid: nat, hi: nat)
    requires lo <= mid <= hi <= 0x1_0000
    ensures Scan(has, k, lo, hi) == Scan(has, k, lo, mid) + Scan(has, k, mid, hi)
    decreases hi
  {
    if mid < hi {
      ScanSplit(has, k, lo, mid, hi - 1);
    }
  }

  /**
   * The axis/hat split of a range: every supported code lands in exactly
   * one of the two scans (ScanMembers), so their lengths add up to the
   * whole scan's.
   */
  lemma {:induction false} ScanPartition(has: set<nat>, lo: nat, hi: nat)
    requires hi <= 0x1_0000
    ensures |Scan(has, AxisCode, lo, hi)| + |Scan(has, HatCode, lo, hi)| == |Scan(has, AnyCode, lo, hi)|
    decreases hi
  {
    if lo < hi {
      ScanPartition(has, lo, hi - 1);
    }
  }

  /** `button_map` as the scan fills it: supported EV_KEY codes in [BTN_JOYSTICK, KEY_MAX). */
  function ButtonCodes(keys: set<nat>): (r: seq<U16>)
    ensures |r| <= KEY_MAX - BTN_JOYSTICK
  {
    ScanBound(keys, AnyCode, BTN_JOYSTICK, KEY_MAX);
    Scan(keys, AnyCode, BTN_JOYSTICK, KEY_MAX)
  }

  /** Supported EV_ABS codes in [ABS_X, ABS_RESERVED) outside the hat block. */
  function AxisCodes(abs: set<nat>): (r: seq<U16>)
    ensures |r| <= ABS_RESERVED
  {
    ScanBound(abs, AxisCode, ABS_X, ABS_RESERVED);
    Scan(abs, AxisCode, ABS_X, ABS_RESERVED)
  }

  /** Supported hat axes, in X/Y order. */
  function HatCodes(abs: set<nat>): (r: seq<U16>)
    ensures |r| <= ABS_RESERVED
  {
    ScanBound(abs, HatCode, ABS_X, ABS_RESERVED);
    Scan(abs, HatCode, ABS_X, ABS_RESERVED)
  }

  /** The map entries for a list of codes. */
  function AbsInfos(codes: seq<U16>): (m: seq<AbsInfo>)
    ensures |m| == |codes| && forall i :: 0 <= i < |m| ==> m[i].code == codes[i]
  {
    seq(|codes|, i requires 0 <= i < |codes| => AbsInfo(codes[i]))
  }

  /** The first |codes| entries of `m` carry `codes`, in order. */
  predicate Filled(m: seq<AbsInfo>, codes: seq<U16>)
  {
    |codes| <= |m| && forall j :: 0 <= j < |codes| ==> m[j].code == codes[j]
  }

  /** `Filled` on the current contents of an array. */
  predicate FilledArray(a: array<AbsInfo>, codes: seq<U16>)
    reads a
  {
    Filled(a[..], codes)
  }

  lemma FilledAppend(m: seq<AbsInfo>, codes: seq<U16>, c: U16)
    requires Filled(m, codes) && |codes| < |m|
    ensures Filled(m[|codes| := AbsInfo(c)], codes + [c])
  {
  }

  /** A map filled to its full length is the map of the codes. */
  lemma FilledExact(m: seq<AbsInfo>, codes: seq<U16>)
    requires Filled(m, codes) && |m| == |codes|
    ensures m == AbsInfos(codes)
  {
  }

  // ---------------------------------------------------------------------
  // The two passes of the scans

  /** The counting pass of `dev_info_scan_buttons`. */
  method CountScan(has: set<nat>, k: Kind, lo: nat, hi: nat) returns (n: nat)
    requires lo <= hi <= 0x1_0000
    ensures n == |Scan(has, k, lo, hi)|
  {
    n := 0;
    var code := lo;
    while code < hi
      invariant lo <= code <= hi
      invariant n == |Scan(has, k, lo, code)|
    {
      ScanStep(has, k, lo, code);
      if code in has && Keeps(k, code) {
        n := n + 1;
      }
      code := code + 1;
    }
  }

  /** The filling pass of `dev_info_scan_buttons`, into a map allocated for the count. */
  method FillScan(has: set<nat>, k: Kind, lo: nat, hi: nat, dst: array<U16>)
    requires lo <= hi <= 0x1_0000
    requires dst.Length == |Scan(has, k, lo, hi)|
    modifies dst
    ensures dst[..] == Scan(has, k, lo, hi)
  {
    var n := 0;
    var code := lo;
    while code < hi
      invariant lo <= code <= hi
      invariant n == |Scan(has, k, lo, code)| && Scan(has, k, lo, code) <= dst[..]
    {
      ScanStep(has, k, lo, code);
      ScanLengthMono(has, k, lo, code + 1, hi);
      if code in has && Keeps(k, code) {
        dst[n] := code;
        n := n + 1;
      }
      code := code + 1;
    }
  }

  /** The counting pass of `dev_info_scan_axes_and_hats`: axes and hat axes, in one walk. */
  method CountAxesAndHats(abs: set<nat>) returns (na: nat, nh: nat)
    ensures na == |AxisCodes(abs)| && nh == |HatCodes(abs)|
  {
    na, nh := 0, 0;
    var code := ABS_X;
    while code < ABS_RESERVED
      invariant ABS_X <= code <= ABS_RESERVED
      invariant na == |Scan(abs, AxisCode, ABS_X, code)| && nh == |Scan(abs, HatCode, ABS_X, code)|
    {
      if code in abs {
        if IsHatCode(code) {
          ScanKept(abs, HatCode, ABS_X, code, ABS_RESERVED);
          ScanSkipped(abs, AxisCode, ABS_X, code);
          nh := nh + 1;
        } else {
          ScanKept(abs, AxisCode, ABS_X, code, ABS_RESERVED);
          ScanSkipped(abs, HatCode, ABS_X, code);
          na := na + 1;
        }
      } else {
        ScanSkipped(abs, AxisCode, ABS_X, code);
        ScanSkipped(abs, HatCode, ABS_X, code);
      }
      code := code + 1;
    }
  }

  /** Store the entry for the next code of a partly filled map. */
  method Put(m: array<AbsInfo>, n: nat, codes: seq<U16>, c: U16)
    requires FilledArray(m, codes) && n == |codes| < m.Length
    modifies m
    ensures FilledArray(m, codes + [c])
  {
    FilledAppend(m[..], codes, c);
    m[n] := AbsInfo(c);
  }

  /** The filling pass of `dev_info_scan_axes_and_hats`: each supported code goes to the hat map or the axis map. */
  method FillAxesAndHats(abs: set<nat>, axes: array<AbsInfo>, hats: array<AbsInfo>)
    requires axes != hats
    requires axes.Length == |AxisCodes(abs)| && hats.Length == |HatCodes(abs)|
    modifies axes, hats
    ensures axes[..] == AbsInfos(AxisCodes(abs)) && hats[..] == AbsInfos(HatCodes(abs))
  {
    var na, nh := 0, 0;
    var code := ABS_X;
    while code < ABS_RESERVED
      invariant ABS_X <= code <= ABS_RESERVED
      invariant na == |Scan(abs, AxisCode, ABS_X, code)| && FilledArray(axes, Scan(abs, AxisCode, ABS_X, code))
      invariant nh == |Scan(abs, HatCode, ABS_X, code)| && FilledArray(hats, Scan(abs, HatCode, ABS_X, code))
    {
      if code in abs {
        if IsHatCode(code) {
          ScanKept(abs, HatCode, ABS_X, code, ABS_RESERVED);
          ScanSkipped(abs, AxisCode, ABS_X, code);
          Put(hats, nh, Scan(abs, HatCode, ABS_X, code), code);
          nh := nh + 1;
        } else {
          ScanKept(abs, AxisCode, ABS_X, code, ABS_RESERVED);
          ScanSkipped(abs, HatCode, ABS_X, code);
          Put(axes, na, Scan(abs, AxisCode, ABS_X, code), code);
          na := na + 1;
        }
      } else {
        ScanSkipped(abs, AxisCode, ABS_X, code);
        ScanSkipped(abs, HatCode, ABS_X, code);
      }
      code := code + 1;
    }
    FilledExact(axes[..], AxisCodes(abs));
    FilledExact(hats[..], HatCodes(abs));
  }

  // ---------------------------------------------------------------------
  // The record as a value

  /** A snapshot of `joy_dev_info_t`; a NULL string or map reads as empty. */
  datatype DevInfo = DevInfo(
    path: string, name: string,
    guid: seq<Byte>, guidStr: seq<char>,
    bustype: U16, vendor: U16, product: U16, version: U16,
    numAxes: U16, numButtons: U16, numHats: U16, numBalls: U16,
    buttonMap: seq<U16>, axisMap: seq<AbsInfo>, hatMap: seq<AbsInfo>)

  /**
   * The size relations of the record: the GUID arrays have their fixed
   * sizes, the counts give the lengths of the button and axis maps, and
   * the hat map holds the hat axes, two per hat.
   */
  predicate WellFormed(v: DevInfo)
  {
    |v.guid| == GUID_SIZE && |v.guidStr| == GUID_STR_SIZE
    && |v.buttonMap| == v.numButtons && |v.axisMap| == v.numAxes && |v.hatMap| / 2 == v.numHats
  }

  /** `n` copies of `x`, the contents of an array after `memset`. */
  function Repeat<T>(x: T, n: nat): (r: seq<T>)
    ensures |r| == n && forall i :: 0 <= i < n ==> r[i] == x
  {
    if n == 0 then [] else Repeat(x, n - 1) + [x]
  }

  /** The record after `dev_info_clear`. */
  const CLEARED: DevInfo := DevInfo(
    "", "", Repeat(0, GUID_SIZE), Repeat('\0', GUID_STR_SIZE),
    0, 0, 0, 0, 0, 0, 0, 0, [], [], [])

  /** The effect of `dev_info_scan_buttons`. */
  function WithButtons(v: DevInfo, dev: Evdev): DevInfo
  {
    if dev.hasKey then
      var b := ButtonCodes(dev.keyCodes);
      v.(numButtons := |b|, buttonMap := b)
    else v
  }

  /** The effect of `dev_info_scan_axes_and_hats`; an odd hat axis count rounds the hat count down. */
  function WithAxesAndHats(v: DevInfo, dev: Evdev): DevInfo
  {
    if dev.hasAbs then
      var a := AxisCodes(dev.absCodes);
      var h := HatCodes(dev.absCodes);
      v.(numAxes := |a|, numHats := |h| / 2, axisMap := AbsInfos(a), hatMap := AbsInfos(h))
    else v
  }

  /** The effect of the body of `iter_get_dev_info` once the device is open. */
  function Loaded(v: DevInfo, dev: Evdev): DevInfo
  {
    var id := Identity(Trunc16(dev.bustype), Trunc16(dev.vendor), Trunc16(dev.product), Trunc16(dev.version));
    var g := Guid(id.bustype, id.vendor, id.product, id.version);
    var named := v.(name := dev.name, bustype := id.bustype, vendor := id.vendor, product := id.product,
                    version := id.version, guid := g, guidStr := HexString(g) + ['\0']);
    WithAxesAndHats(WithButtons(named, dev), dev)
  }

  /** The record the iterator holds for the device node `path` once it has been opened. */
  function Probe(path: string, dev: Evdev): DevInfo
  {
    Loaded(CLEARED.(path := path), dev)
  }

  /**
   * A probed record keeps the size relations of the record, carries the
   * node's path and the device's name, and its GUID and GUID string both
   * read back to the identity fields.
   */
  lemma ProbeWellFormed(path: string, dev: Evdev)
    ensures var v := Probe(path, dev);
      && WellFormed(v) && v.path == path && v.name == dev.name
      && v.bustype == Trunc16(dev.bustype) && v.vendor == Trunc16(dev.vendor)
      && v.product == Trunc16(dev.product) && v.version == Trunc16(dev.version)
      && GuidIdentity(v.guid) == Identity(v.bustype, v.vendor, v.product, v.version)
      && v.guidStr == HexString(v.guid) + ['\0'] && IsLowerHex(HexString(v.guid))
      && HexDecode(HexString(v.guid)) == v.guid
  {
    ProbeFields(path, dev);
    ProbeGuid(path, dev);
  }

  /** The shape, path, name and identity a probe leaves. */
  lemma ProbeFields(path: string, dev: Evdev)
    ensures var v := Probe(path, dev);
      && WellFormed(v) && v.path == path && v.name == dev.name
      && v.bustype == Trunc16(dev.bustype) && v.vendor == Trunc16(dev.vendor)
      && v.product == Trunc16(dev.product) && v.version == Trunc16(dev.version)
  {
  }

  /** The GUID and GUID string a probe leaves. */
  lemma ProbeGuid(path: string, dev: Evdev)
    ensures var v := Probe(path, dev);
      && GuidIdentity(v.guid) == Identity(v.bustype, v.vendor, v.product, v.version)
      && v.guidStr == HexString(v.guid) + ['\0'] && IsLowerHex(HexString(v.guid))
      && HexDecode(HexString(v.guid)) == v.guid
  {
    var v := Probe(path, dev);
    GuidRoundTrip(v.bustype, v.vendor, v.product, v.version);
    HexRoundTrip(v.guid);
  }

  /** Without EV_KEY the button fields stay cleared; without EV_ABS the axis and hat fields do. */
  lemma ProbeUnsupportedTypes(path: string, dev: Evdev)
    ensures !dev.hasKey ==> Probe(path, dev).numButtons == 0 && Probe(path, dev).buttonMap == []
    ensures !dev.hasAbs ==> Probe(path, dev).numAxes == 0 && Probe(path, dev).numHats == 0
    ensures !dev.hasAbs ==> Probe(path, dev).axisMap == [] && Probe(path, dev).hatMap == []
  {
  }

  /**
   * `joy_dev_info_dup` as intended: the copy equals the original field by
   * field, except that the hat map keeps the `2 * numHats` paired entries.
   */
  function Copied(v: DevInfo): (c: DevInfo)
    requires WellFormed(v)
    ensures WellFormed(c)
    ensures c.path == v.path && c.name == v.name && c.guid == v.guid && c.guidStr == v.guidStr
    ensures c.buttonMap == v.buttonMap && c.axisMap == v.axisMap
    ensures |c.hatMap| == 2 * c.numHats && c.hatMap <= v.hatMap
    ensures c == v.(hatMap := c.hatMap)
  {
    v.(hatMap := v.hatMap[..2 * v.numHats])
  }

  /** The copy is the original exactly when the hat map holds whole pairs. */
  lemma CopiedExact(v: DevInfo)
    requires WellFormed(v)
    ensures Copied(v) == v <==> |v.hatMap| % 2 == 0
  {
    if Copied(v) == v {
      assert |v.hatMap| == 2 * v.numHats;
    }
  }

  /**
   * `dev_info_scan_buttons` as written (src/joystick.c:312-326): the count
   * it records, the slots it allocates, the codes it stores. The codes
   * stored are those of the corrected map; the count recorded never falls
   * short of them, and no slot is allocated for any of them.
   */
  function ButtonScanAsWritten(keys: set<nat>): (r: (nat, nat, seq<U16>))
    ensures r.2 == ButtonCodes(keys)
    ensures r.1 == 0 <= |r.2| <= r.0
  {
    ScanSplit(keys, AnyCode, BTN_MISC, BTN_JOYSTICK, KEY_MAX);
    (|Scan(keys, AnyCode, BTN_MISC, KEY_MAX)|, 0, Scan(keys, AnyCode, BTN_JOYSTICK, KEY_MAX))
  }

  /**
   * As written, the fill pass writes past the zero-length allocation as
   * soon as the device has one button in [BTN_JOYSTICK, KEY_MAX), and the
   * recorded count disagrees with the stored codes as soon as it has one
   * in [BTN_MISC, BTN_JOYSTICK).
   */
  lemma ButtonScanAsWrittenOverflows(keys: set<nat>)
    ensures |ButtonScanAsWritten(keys).2| > ButtonScanAsWritten(keys).1
            <==> exists c :: BTN_JOYSTICK <= c < KEY_MAX && c in keys
    ensures ButtonScanAsWritten(keys).0 == |ButtonScanAsWritten(keys).2|
            <==> forall c :: BTN_MISC <= c < BTN_JOYSTICK ==> c !in keys
  {
    ScanEmpty(keys, AnyCode, BTN_JOYSTICK, KEY_MAX);
    ScanEmpty(keys, AnyCode, BTN_MISC, BTN_JOYSTICK);
    ScanSplit(keys, AnyCode, BTN_MISC, BTN_JOYSTICK, KEY_MAX);
  }

  /**
   * `joy_dev_info_dup` as written (src/joystick.c:602-606): hat slots
   * allocated and hat entries copied. The entries copied are exactly those
   * the intended copy holds.
   */
  function HatCopyAsWritten(v: DevInfo): (r: (nat, nat))
    requires WellFormed(v)
    ensures r.1 == |Copied(v).hatMap|
  {
    (v.numHats, v.numHats * 2)
  }

  /** As written, the hat copy writes past its allocation whenever there is a hat. */
  lemma HatCopyAsWrittenOverflows(v: DevInfo)
    requires WellFormed(v)
    ensures HatCopyAsWritten(v).1 > HatCopyAsWritten(v).0 <==> v.numHats > 0
  {
  }

  /** `memset`: every entry of `a` becomes `x`. */
  method Fill<T>(a: array<T>, x: T)
    modifies a
    ensures a[..] == Repeat(x, a.Length)
  {
    var i := 0;
    while i < a.Length
      invariant 0 <= i <= a.Length
      invariant a[..i] == Repeat(x, i)
    {
      a[i] := x;
      i := i + 1;
    }
    assert a[..] == a[..a.Length];
  }

  /** A fresh copy of the first `n` entries of `src`, one entry at a time. */
  method CopyPrefix<T(0)>(src: array<T>, n: nat) returns (dst: array<T>)
    requires n <= src.Length
    ensures fresh(dst) && dst[..] == src[..n]
  {
    dst := new T[n];
    var i := 0;
    while i < n
      invariant 0 <= i <= n
      invariant dst[..i] == src[..i]
    {
      dst[i] := src[i];
      i := i + 1;
    }
  }

  /** A map copy of `joy_dev_info_dup`: allocated and copied only when the count is positive, else left empty. */
  method CopyMap<T(0)>(src: array<T>, n: nat) returns (dst: array<T>)
    requires n <= src.Length
    ensures fresh(dst) && dst[..] == src[..n]
  {
    if n > 0 {
      dst := CopyPrefix(src, n);
    } else {
      dst := new T[0];
    }
  }

  // ---------------------------------------------------------------------
  // The record in place

  /** `joy_dev_info_t`; the inline GUID arrays and the heap maps are arrays. */
  class JoyDevInfo {
    var path: string
    var name: string
    var guid: array<Byte>
    var guidStr: array<char>
    var bustype: U16
    var vendor: U16
    var product: U16
    var version: U16
    var numAxes: U16
    var numButtons: U16
    var numHats: U16
    var numBalls: U16
    var buttonMap: array<U16>
    var axisMap: array<AbsInfo>
    var hatMap: array<AbsInfo>

    ghost predicate Valid()
      reads this
    {
      guid.Length == GUID_SIZE && guidStr.Length == GUID_STR_SIZE
      && buttonMap.Length == numButtons && axisMap.Length == numAxes && hatMap.Length / 2 == numHats
      && axisMap != hatMap
    }

    ghost function Value(): DevInfo
      reads this, guid, guidStr, buttonMap, axisMap, hatMap
    {
      DevInfo(path, name, guid[..], guidStr[..], bustype, vendor, product, version,
              numAxes, numButtons, numHats, numBalls, buttonMap[..], axisMap[..], hatMap[..])
    }

    /** A record allocated and passed through `dev_info_clear`. */
    constructor ()
      ensures Valid() && Value() == CLEARED
      ensures fresh(guid) && fresh(guidStr) && fresh(buttonMap) && fresh(axisMap) && fresh(hatMap)
    {
      path, name := "", "";
      guid := new Byte[GUID_SIZE](_ => 0);
      guidStr := new char[GUID_STR_SIZE](_ => '\0');
      bustype, vendor, product, version := 0, 0, 0, 0;
      numAxes, numButtons, numHats, numBalls := 0, 0, 0, 0;
      buttonMap := new U16[0];
      axisMap := new AbsInfo[0];
      hatMap := new AbsInfo[0];
    }

    /** `dev_info_clear` */
    method Clear()
      requires Valid()
      modifies this, guid, guidStr
      ensures Valid() && Value() == CLEARED
      ensures guid == old(guid) && guidStr == old(guidStr)
      ensures fresh(buttonMap) && fresh(axisMap) && fresh(hatMap)
    {
      ClearScalars();
      ClearMaps();
      Fill(guid, 0);
      Fill(guidStr, '\0');
    }

    /** The string and number fields of `dev_info_clear`. */
    method ClearScalars()
      requires Valid()
      modifies this
      ensures Valid() && Value() == old(Value()).(path := "", name := "", bustype := 0, vendor := 0, product := 0, version := 0, numBalls := 0)
      ensures guid == old(guid) && guidStr == old(guidStr) && buttonMap == old(buttonMap) && axisMap == old(axisMap) && hatMap == old(hatMap)
    {
      path, name, bustype, vendor, product, version, numBalls := "", "", 0, 0, 0, 0, 0;
    }

    /** The counts and the three maps of `dev_info_clear`, each map empty. */
    method ClearMaps()
      requires Valid()
      modifies this
      ensures Valid() && Value() == old(Value()).(numAxes := 0, numButtons := 0, numHats := 0, buttonMap := [], axisMap := [], hatMap := [])
      ensures guid == old(guid) && guidStr == old(guidStr)
      ensures fresh(buttonMap) && fresh(axisMap) && fresh(hatMap)
    {
      var b := new U16[0];
      var a := new AbsInfo[0];
      var h := new AbsInfo[0];
      numAxes, numButtons, numHats, buttonMap, axisMap, hatMap := 0, 0, 0, b, a, h;
    }

    /** The name and the identity fields of `iter_get_dev_info`, each id cast to 16 bits. */
    method SetIdentity(dev: Evdev)
      requires Valid()
      modifies this
      ensures Valid()
      ensures Value() == old(Value()).(name := dev.name, bustype := Trunc16(dev.bustype), vendor := Trunc16(dev.vendor),
                                       product := Trunc16(dev.product), version := Trunc16(dev.version))
      ensures guid == old(guid) && guidStr == old(guidStr)
      ensures buttonMap == old(buttonMap) && axisMap == old(axisMap) && hatMap == old(hatMap)
    {
      name := dev.name;
      bustype := Trunc16(dev.bustype);
      vendor := Trunc16(dev.vendor);
      product := Trunc16(dev.product);
      version := Trunc16(dev.version);
    }

    /** `dev_info_generate_guid` */
    method GenerateGuid()
      requires Valid()
      modifies guid
      ensures Value() == old(Value()).(guid := Guid(bustype, vendor, product, version))
    {
      var bus, ven, pro, ver := bustype, vendor, product, version;
      guid[0x00] := Lo(bus);
      guid[0x01] := Hi(bus);
      guid[0x02] := 0;
      guid[0x03] := 0;
      guid[0x04] := Lo(ven);
      guid[0x05] := Hi(ven);
      guid[0x06] := 0;
      guid[0x07] := 0;
      guid[0x08] := Lo(pro);
      guid[0x09] := Hi(pro);
      guid[0x0a] := 0;
      guid[0x0b] := 0;
      guid[0x0c] := Lo(ver);
      guid[0x0d] := Hi(ver);
      guid[0x0e] := 0;
      guid[0x0f] := 0;
      assert guid[..] == Guid(bus, ven, pro, ver);
    }

    /** `dev_info_generate_guid_str` with the high digit taken from `guid[i] >> 4`. */
    method GenerateGuidStr()
      requires Valid()
      modifies guidStr
      ensures Value() == old(Value()).(guidStr := HexString(guid[..]) + ['\0'])
    {
      ghost var hex := HexString(guid[..]);
      var i := 0;
      while i < GUID_SIZE
        invariant 0 <= i <= GUID_SIZE
        invariant forall j :: 0 <= j < 2 * i ==> guidStr[j] == hex[j]
      {
        guidStr[2 * i] := HEX_DIGITS[guid[i] / 16];
        guidStr[2 * i + 1] := HEX_DIGITS[guid[i] % 16];
        i := i + 1;
      }
      guidStr[2 * i] := '\0';
      assert guidStr[..] == hex + ['\0'];
    }

    /** Installs the count and map found by `dev_info_scan_buttons`. */
    method SetButtonMap(n: U16, buttons: array<U16>)
      requires Valid() && buttons.Length == n
      modifies this
      ensures Valid() && Value() == old(Value()).(numButtons := n, buttonMap := buttons[..])
      ensures guid == old(guid) && guidStr == old(guidStr) && axisMap == old(axisMap) && hatMap == old(hatMap)
      ensures buttonMap == buttons
    {
      numButtons, buttonMap := n, buttons;
    }

    /**
     * `dev_info_scan_buttons` with the allocation taken from the count of
     * the fill range: a counting pass, then a filling pass, both over
     * [BTN_JOYSTICK, KEY_MAX).
     */
    method ScanButtons(dev: Evdev)
      requires Valid()
      modifies this
      ensures Valid() && Value() == WithButtons(old(Value()), dev)
      ensures guid == old(guid) && guidStr == old(guidStr) && axisMap == old(axisMap) && hatMap == old(hatMap)
      ensures buttonMap == old(buttonMap) || fresh(buttonMap)
    {
      if dev.hasKey {
        var n := CountScan(dev.keyCodes, AnyCode, BTN_JOYSTICK, KEY_MAX);
        ScanBound(dev.keyCodes, AnyCode, BTN_JOYSTICK, KEY_MAX);
        var buttons := new U16[n];
        FillScan(dev.keyCodes, AnyCode, BTN_JOYSTICK, KEY_MAX, buttons);
        SetButtonMap(n, buttons);
      }
    }

    /** Installs the counts and maps found by `dev_info_scan_axes_and_hats`. */
    method SetAbsMaps(na: U16, nh: U16, axes: array<AbsInfo>, hats: array<AbsInfo>)
      requires Valid() && axes != hats && axes.Length == na && hats.Length / 2 == nh
      modifies this
      ensures Valid() && Value() == old(Value()).(numAxes := na, numHats := nh, axisMap := axes[..], hatMap := hats[..])
      ensures guid == old(guid) && guidStr == old(guidStr) && buttonMap == old(buttonMap)
      ensures axisMap == axes && hatMap == hats
    {
      numAxes, numHats, axisMap, hatMap := na, nh, axes, hats;
    }

    /**
     * `dev_info_scan_axes_and_hats`: count axes and hat axes, record the
     * counts (hats as pairs), allocate a map for each, and fill both in
     * one more walk over the range.
     */
    method ScanAxesAndHats(dev: Evdev)
      requires Valid()
      modifies this
      ensures Valid() && Value() == WithAxesAndHats(old(Value()), dev)
      ensures guid == old(guid) && guidStr == old(guidStr) && buttonMap == old(buttonMap)
      ensures axisMap == old(axisMap) || fresh(axisMap)
      ensures hatMap == old(hatMap) || fresh(hatMap)
    {
      if dev.hasAbs {
        var na, nh := CountAxesAndHats(dev.absCodes);
        var axes := new AbsInfo[na];
        var hats := new AbsInfo[nh];
        FillAxesAndHats(dev.absCodes, axes, hats);
        SetAbsMaps(na, nh / 2, axes, hats);
      }
    }

    /** The body of `iter_get_dev_info` once the device is open: name, identity, GUID, rendering and scans. */
    method Load(dev: Evdev)
      requires Valid()
      modifies this, guid, guidStr
      ensures Valid() && Value() == Loaded(old(Value()), dev)
      ensures guid == old(guid) && guidStr == old(guidStr)
      ensures buttonMap == old(buttonMap) || fresh(buttonMap)
      ensures axisMap == old(axisMap) || fresh(axisMap)
      ensures hatMap == old(hatMap) || fresh(hatMap)
    {
      SetIdentity(dev);
      GenerateGuid();
      GenerateGuidStr();
      ScanButtons(dev);
      ScanAxesAndHats(dev);
    }

    /** A record holding the given fields, as `joy_dev_info_dup` fills in its new record. */
    constructor Copy(path: string, name: string, guid: array<Byte>, guidStr: array<char>,
                     bustype: U16, vendor: U16, product: U16, version: U16,
                     numAxes: U16, numButtons: U16, numHats: U16, numBalls: U16,
                     buttonMap: array<U16>, axisMap: array<AbsInfo>, hatMap: array<AbsInfo>)
      ensures this.guid == guid && this.guidStr == guidStr
      ensures this.buttonMap == buttonMap && this.axisMap == axisMap && this.hatMap == hatMap
      ensures Value() == DevInfo(path, name, old(guid[..]), old(guidStr[..]), bustype, vendor, product, version,
                                 numAxes, numButtons, numHats, numBalls, old(buttonMap[..]), old(axisMap[..]), old(hatMap[..]))
    {
      this.path, this.name, this.guid, this.guidStr := path, name, guid, guidStr;
      this.bustype, this.vendor, this.product, this.version := bustype, vendor, product, version;
      this.numAxes, this.numButtons, this.numHats, this.numBalls := numAxes, numButtons, numHats, numBalls;
      this.buttonMap, this.axisMap, this.hatMap := buttonMap, axisMap, hatMap;
    }

    /**
     * `joy_dev_info_dup`: a new record equal to this one field by field,
     * with every array freshly allocated, and the hat map allocated for
     * the `2 * numHats` entries the copy loop writes.
     */
    method Dup() returns (copy: JoyDevInfo)
      requires Valid()
      ensures fresh(copy) && fresh(copy.guid) && fresh(copy.guidStr)
      ensures fresh(copy.buttonMap) && fresh(copy.axisMap) && fresh(copy.hatMap)
      ensures copy.Valid() && copy.Value() == Copied(Value())
    {
      var g := CopyPrefix(guid, GUID_SIZE);
      var gs := CopyPrefix(guidStr, GUID_STR_SIZE);
      var b := CopyMap(buttonMap, numButtons);
      var a := CopyMap(axisMap, numAxes);
      var h := CopyMap(hatMap, numHats * 2);
      assert b[..] == buttonMap[..] && a[..] == axisMap[..] && h[..] == hatMap[..2 * numHats];
      assert g[..] == guid[..] && gs[..] == guidStr[..];
      ghost var v := DevInfo(path, name, g[..], gs[..], bustype, vendor, product, version,
                             numAxes, numButtons, numHats, numBalls, b[..], a[..], h[..]);
      assert Copied(Value()) == v;
      copy := new JoyDevInfo.Copy(path, name, g, gs, bustype, vendor, product, version,
                                  numAxes, numButtons, numHats, numBalls, b, a, h);
    }
  }
}
