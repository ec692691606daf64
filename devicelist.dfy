/**
 * The device list: one row per joystick the iterator yields, each row
 * with its own copy of the record and a summary of the GUID, the device
 * node and the button, axis and hat names. The GTK list box and tree
 * views are reduced to the rows' records and texts.
 */
module DeviceListWidget {
  import opened JoyCodes
  import opened JoyGuid
  import opened JoyDevice
  import opened JoyIter

  /** The separator `get_*_names` put between two names. */
  const SEPARATOR: string := ", "

  /** The directory `device_list_scan_devices` lists. */
  const BY_ID: string := "/dev/input/by-id"

  // ---------------------------------------------------------------------
  // Joined names

  /** The names with the separator between each two, and nowhere else. */
  function Join(xs: seq<string>): string
    decreases |xs|
  {
    if |xs| == 0 then ""
    else if |xs| == 1 then xs[0]
    else Join(xs[..|xs| - 1]) + SEPARATOR + xs[|xs| - 1]
  }

  /** Appending one name adds it after a separator, unless it is the first. */
  lemma JoinSnoc(xs: seq<string>, x: string)
    ensures Join(xs + [x]) == if xs == [] then x else Join(xs) + SEPARATOR + x
  {
    assert (xs + [x])[..|xs|] == xs;
  }

  /** The join of the first `i + 1` names, from the join of the first `i`. */
  lemma JoinStep(all: seq<string>, i: nat)
    requires i < |all|
    ensures Join(all[..i + 1]) == if i == 0 then all[0] else Join(all[..i]) + SEPARATOR + all[i]
  {
    assert all[..i + 1] == all[..i] + [all[i]];
    JoinSnoc(all[..i], all[i]);
  }

  /** Read from the front: the first name, then a separator before each following one. */
  lemma {:induction false} JoinFront(x: string, xs: seq<string>)
    requires xs != []
    ensures Join([x] + xs) == x + SEPARATOR + Join(xs)
    decreases |xs|
  {
    if |xs| == 1 {
      assert [x] + xs == [x] + [xs[0]];
      JoinSnoc([x], xs[0]);
    } else {
      var init := xs[..|xs| - 1];
      var last := xs[|xs| - 1];
      assert xs == init + [last];
      assert [x] + xs == ([x] + init) + [last];
      JoinSnoc([x] + init, last);
      JoinFront(x, init);
      JoinSnoc(init, last);
    }
  }

  /** A joined list begins with its first name and ends with its last one. */
  lemma {:induction false} JoinEdges(xs: seq<string>)
    requires xs != []
    ensures xs[0] <= Join(xs)
    ensures var j := Join(xs); |xs[|xs| - 1]| <= |j| && j[|j| - |xs[|xs| - 1]|..] == xs[|xs| - 1]
    decreases |xs|
  {
    if |xs| > 1 {
      var init := xs[..|xs| - 1];
      JoinEdges(init);
      assert init[0] == xs[0];
    }
  }

  /** The names `get_button_names` joins, one per button ordinal. */
  function ButtonNameList(d: DevInfo): seq<string>
  {
    seq(|d.buttonMap|, i requires 0 <= i < |d.buttonMap| => ButtonName(d.buttonMap[i]))
  }

  /** The names `get_axis_names` joins, one per axis ordinal. */
  function AxisNameList(d: DevInfo): seq<string>
  {
    seq(|d.axisMap|, i requires 0 <= i < |d.axisMap| => AxisName(d.axisMap[i].code))
  }

  /** The names `get_hat_names` joins: one per hat, from the X axis of its pair. */
  function HatNameList(d: DevInfo): seq<string>
    requires 2 * d.numHats <= |d.hatMap|
  {
    seq(d.numHats, i requires 0 <= i < d.numHats => HatName(d.hatMap[2 * i].code))
  }

  /** The hat map of a well-formed record holds both axes of every hat. */
  lemma HatPairsInMap(d: DevInfo)
    requires WellFormed(d)
    ensures 2 * d.numHats <= |d.hatMap|
  {
  }

  /** `get_button_names` */
  method ButtonNames(d: DevInfo) returns (names: string)
    requires WellFormed(d)
    ensures names == Join(ButtonNameList(d))
  {
    ghost var all := ButtonNameList(d);
    names := "";
    var i := 0;
    while i < d.numButtons
      invariant 0 <= i <= d.numButtons
      invariant names == Join(all[..i]) + if 0 < i < d.numButtons then SEPARATOR else ""
    {
      JoinStep(all, i);
      names := names + ButtonName(d.buttonMap[i]);
      if i < d.numButtons - 1 {
        names := names + SEPARATOR;
      }
      i := i + 1;
    }
    assert all[..i] == all;
  }

  /** `get_axis_names` */
  method AxisNames(d: DevInfo) returns (names: string)
    requires WellFormed(d)
    ensures names == Join(AxisNameList(d))
  {
    ghost var all := AxisNameList(d);
    names := "";
    var i := 0;
    while i < d.numAxes
      invariant 0 <= i <= d.numAxes
      invariant names == Join(all[..i]) + if 0 < i < d.numAxes then SEPARATOR else ""
    {
      JoinStep(all, i);
      names := names + AxisName(d.axisMap[i].code);
      if i < d.numAxes - 1 {
        names := names + SEPARATOR;
      }
      i := i + 1;
    }
    assert all[..i] == all;
  }

  /** `get_hat_names` */
  method HatNames(d: DevInfo) returns (names: string)
    requires WellFormed(d)
    ensures 2 * d.numHats <= |d.hatMap| && names == Join(HatNameList(d))
  {
    HatPairsInMap(d);
    ghost var all := HatNameList(d);
    names := "";
    var i := 0;
    while i < d.numHats
      invariant 0 <= i <= d.numHats
      invariant names == Join(all[..i]) + if 0 < i < d.numHats then SEPARATOR else ""
    {
      JoinStep(all, i);
      names := names + HatName(d.hatMap[2 * i].code);
      if i < d.numHats - 1 {
        names := names + SEPARATOR;
      }
      i := i + 1;
    }
    assert all[..i] == all;
  }

  // ---------------------------------------------------------------------
  // Summary rows

  /** The character of a decimal digit. */
  function DigitChar(n: nat): char
    requires n < 10
  {
    ('0' as int + n) as char
  }

  /** The value of a decimal digit character, 0 for any other character. */
  function DigitValue(c: char): nat
  {
    if '0' <= c <= '9' then (c as int - '0' as int) else 0
  }

  /** `%u`: the decimal digits of `n`. */
  function Decimal(n: nat): string
    decreases n
  {
    if n < 10 then [DigitChar(n)] else Decimal(n / 10) + [DigitChar(n % 10)]
  }

  /** The number a string of decimal digits denotes. */
  function DecimalValue(s: string): nat
    decreases |s|
  {
    if s == [] then 0 else 10 * DecimalValue(s[..|s| - 1]) + DigitValue(s[|s| - 1])
  }

  predicate IsDigits(s: string)
  {
    forall i :: 0 <= i < |s| ==> '0' <= s[i] <= '9'
  }

  /** The last digit and the rest of a number of two digits or more. */
  lemma SplitLastDigit(n: nat)
    requires n >= 10
    ensures n / 10 < n && n % 10 < 10 && n == 10 * (n / 10) + n % 10 && n / 10 > 0
  {
  }

  /** `%u` prints digits without a leading zero, and reading them back gives the number. */
  lemma {:induction false} DecimalRoundTrip(n: nat)
    ensures var s := Decimal(n);
      s != [] && IsDigits(s) && (s[0] == '0' ==> n == 0) && DecimalValue(s) == n
    decreases n
  {
    if n >= 10 {
      SplitLastDigit(n);
      DecimalRoundTrip(n / 10);
      var s := Decimal(n);
      assert s[..|s| - 1] == Decimal(n / 10);
      assert s[0] == Decimal(n / 10)[0];
    }
  }

  /** `NONE` as `create_inner_widget` shows a count of 0. */
  const NONE: string := "None"

  /** A count row of `create_inner_widget`: "<count> (<names>)", or "None" for a count of 0. */
  function Summary(count: nat, names: string): string
  {
    if count > 0 then Decimal(count) + " (" + names + ")" else NONE
  }

  /** A row reads "None" exactly when the count is 0, and otherwise starts with the count read back. */
  lemma SummaryCount(count: nat, names: string)
    ensures Summary(count, names) == NONE <==> count == 0
    ensures count > 0 ==> var s := Summary(count, names); var k := |Decimal(count)|;
      k < |s| && DecimalValue(s[..k]) == count && s[k..] == " (" + names + ")"
  {
    if count > 0 {
      var digits := Decimal(count);
      var tail := " (" + names + ")";
      DecimalRoundTrip(count);
      assert Summary(count, names) == digits + tail;
      assert (digits + tail)[0] == digits[0];
      assert (digits + tail)[..|digits|] == digits;
      assert (digits + tail)[|digits|..] == tail;
    }
  }

  /** The text of a NUL-terminated string: everything before the first NUL. */
  function CString(s: seq<char>): (r: string)
    ensures r <= s && '\0' !in r && (|r| < |s| ==> s[|r|] == '\0')
    decreases |s|
  {
    if s == [] || s[0] == '\0' then [] else [s[0]] + CString(s[1..])
  }

  /** A string without NUL reads back unchanged once terminated. */
  lemma {:induction false} CStringTerminated(t: string)
    requires '\0' !in t
    ensures CString(t + ['\0']) == t
    decreases |t|
  {
    if t != [] {
      assert (t + ['\0'])[1..] == t[1..] + ['\0'];
      assert t[0] in t;
      CStringTerminated(t[1..]);
    }
  }

  /** The GUID row of a probed record shows the GUID's bytes as lower-case hex. */
  lemma GuidRowOfProbe(path: string, dev: Evdev)
    ensures var v := Probe(path, dev);
      CString(v.guidStr) == HexString(v.guid) && HexDecode(CString(v.guidStr)) == v.guid
  {
    var v := Probe(path, dev);
    ProbeGuid(path, dev);
    var t := HexString(v.guid);
    assert '\0' !in t by {
      forall i | 0 <= i < |t|
        ensures t[i] != '\0'
      {
        assert IsHexDigit(t[i]);
      }
    }
    CStringTerminated(t);
  }

  /** `create_inner_widget`: the property and value of each of the five rows. */
  method InnerRows(d: DevInfo) returns (rows: seq<(string, string)>)
    requires WellFormed(d)
    ensures 2 * d.numHats <= |d.hatMap|
    ensures rows == [("GUID", CString(d.guidStr)), ("device node", d.path),
                     ("buttons", Summary(d.numButtons, Join(ButtonNameList(d)))),
                     ("axes", Summary(d.numAxes, Join(AxisNameList(d)))),
                     ("hats", Summary(d.numHats, Join(HatNameList(d))))]
  {
    HatPairsInMap(d);
    var buttons, axes, hats;
    if d.numButtons > 0 {
      var names := ButtonNames(d);
      buttons := Decimal(d.numButtons) + " (" + names + ")";
    } else {
      buttons := NONE;
    }
    if d.numAxes > 0 {
      var names := AxisNames(d);
      axes := Decimal(d.numAxes) + " (" + names + ")";
    } else {
      axes := NONE;
    }
    if d.numHats > 0 {
      var names := HatNames(d);
      hats := Decimal(d.numHats) + " (" + names + ")";
    } else {
      hats := NONE;
    }
    rows := [("GUID", CString(d.guidStr)), ("device node", d.path), ("buttons", buttons), ("axes", axes), ("hats", hats)];
  }

  // ---------------------------------------------------------------------
  // The list

  /** The first `num` rows are copies of the first `num` records. */
  predicate CopiesOf(rows: seq<DevInfo>, ds: seq<DevInfo>, num: nat)
  {
    num == |rows| <= |ds| && forall i :: 0 <= i < num ==> WellFormed(ds[i]) && rows[i] == Copied(ds[i])
  }

  /** A row added for the next record keeps the rows copies of the records. */
  lemma CopiesOfStep(rows: seq<DevInfo>, ds: seq<DevInfo>, num: nat)
    requires CopiesOf(rows, ds, num) && num < |ds| && WellFormed(ds[num])
    ensures CopiesOf(rows + [Copied(ds[num])], ds, num + 1)
  {
  }

  /** Every record the iterator yields has map lengths that agree with its counts. */
  lemma YieldedWellFormed(env: Env, root: string)
    requires EnvOk(env)
    ensures forall i :: 0 <= i < |Yielded(env, root)| ==> WellFormed(Yielded(env, root)[i])
  {
    YieldedAreJoysticks(env, root);
    forall i | 0 <= i < |Yielded(env, root)|
      ensures WellFormed(Yielded(env, root)[i])
    {
      assert YieldedRecord(env, root, Yielded(env, root)[i]);
    }
  }

  /** The list box: one row per device, each holding its own copy of the record. */
  class DeviceList {
    var rows: seq<DevInfo>

    /** `device_list_widget_new` before its scan */
    constructor ()
      ensures rows == []
    {
      rows := [];
    }

    /** `device_list_clear`: every row is destroyed with its copy. */
    method Clear()
      modifies this
      ensures rows == []
    {
      rows := [];
    }

    /**
     * `device_list_scan_devices`: one row per record the iterator yields,
     * in order, each a `joy_dev_info_dup` of it; the result is the number
     * of rows, 0 when the directory cannot be opened.
     */
    method ScanDevices(env: Env) returns (num: int)
      requires EnvOk(env)
      modifies this
      ensures num == |Yielded(env, BY_ID)| && CopiesOf(rows, Yielded(env, BY_ID), num)
    {
      Clear();
      num := 0;
      ghost var all := Yielded(env, BY_ID);
      YieldedWellFormed(env, BY_ID);
      var it := new DevIter();
      var ok := it.Init(env, BY_ID);
      YieldedFromInit(env, BY_ID);
      if ok {
        while ok
          invariant it.Valid() && ok == it.valid && (ok ==> it.root == BY_ID)
          invariant CopiesOf(rows, all, num)
          invariant ok ==> all[num..] == [it.device] + Following(env, BY_ID, it.entries)
          invariant !ok ==> num == |all|
          decreases if ok then |it.entries| + 1 else 0
        {
          FollowingFromNext(env, it.Value());
          assert all[num] == it.device;
          CopiesOfStep(rows, all, num);
          rows := rows + [Copied(it.device)];
          num := num + 1;
          ok := it.Next(env);
          assert all[num..] == all[num - 1..][1..];
        }
        it.Free();
      }
    }
  }
}
