/** Optional values, for results that may be absent (NULL in C). */
module Wrappers {
  datatype Option<+T> = None | Some(value: T)
}

/**
 * Linux input-event codes used by the joystick code, and the sorted
 * code-to-name tables with their early-exit lookup (src/joystick.c).
 */
module JoyCodes {
  import opened Wrappers

  /** `uint16_t` */
  type U16 = x: int | 0 <= x < 0x1_0000

  // Event types (linux/input-event-codes.h)
  const EV_SYN: int := 0x00
  const EV_KEY: int := 0x01
  const EV_ABS: int := 0x03

  // Key codes bounding the button scans
  const BTN_MISC: nat := 0x100
  const BTN_JOYSTICK: nat := 0x120
  const KEY_MAX: nat := 0x2ff

  // Absolute-axis codes bounding the axis scan and the hat block
  const ABS_X: nat := 0x00
  const ABS_HAT0X: nat := 0x10
  const ABS_HAT3Y: nat := 0x17
  const ABS_RESERVED: nat := 0x2e

  /** The name returned when no table entry carries the code. */
  const UNKNOWN_NAME: string := "<?>"

  /** `ev_code_name_t` */
  datatype CodeName = CodeName(code: nat, name: string)

  /** Codes of a table strictly ascend, so no code appears twice. */
  ghost predicate StrictlyAscending(table: seq<CodeName>)
  {
    forall i, j :: 0 <= i < j < |table| ==> table[i].code < table[j].code
  }

  /** `is_hat_code`: the 8 codes ABS_HAT0X..ABS_HAT3Y, X/Y of hats 0 to 3. */
  predicate IsHatCode(code: nat)
  {
    ABS_HAT0X <= code <= ABS_HAT3Y
  }

  /** The hat codes are exactly the X and Y axes of hats 0 to 3. */
  lemma HatCodesAreHatAxes(code: nat)
    ensures IsHatCode(code) <==> exists hat, axis :: 0 <= hat < 4 && 0 <= axis < 2 && code == HatAxisCode(hat, axis)
  {
    if IsHatCode(code) {
      assert code == HatAxisCode((code - ABS_HAT0X) / 2, (code - ABS_HAT0X) % 2);
    }
  }

  /** Code of axis `axis` (0 = X, 1 = Y) of hat `hat` in linux/input-event-codes.h. */
  function HatAxisCode(hat: nat, axis: nat): nat
  {
    ABS_HAT0X + 2 * hat + axis
  }

  // ---------------------------------------------------------------------
  // Lookup

  /**
   * The loop of `joy_get_axis_name`, `joy_get_button_name` and
   * `joy_get_hat_name`: return the name of the first entry whose code
   * equals `code`, but give up at the first entry whose code exceeds it.
   */
  function Lookup(table: seq<CodeName>, code: nat): string
  {
    if table == [] then UNKNOWN_NAME
    else if table[0].code == code then table[0].name
    else if table[0].code > code then UNKNOWN_NAME
    else Lookup(table[1..], code)
  }

  /** Reference search: index of the first entry carrying `code`, over the whole table. */
  function FirstIndex(table: seq<CodeName>, code: nat): (r: Option<nat>)
    ensures r.Some? ==> r.value < |table| && table[r.value].code == code
    ensures r.Some? ==> forall j :: 0 <= j < r.value ==> table[j].code != code
    ensures r.None? ==> forall j :: 0 <= j < |table| ==> table[j].code != code
  {
    if table == [] then None
    else if table[0].code == code then Some(0)
    else match FirstIndex(table[1..], code)
      case None => None
      case Some(i) => Some(i + 1)
  }

  /** What a name lookup is meant to answer: the name of the first entry with the code, or "<?>". */
  function TableName(table: seq<CodeName>, code: nat): string
  {
    match FirstIndex(table, code)
    case Some(i) => table[i].name
    case None => UNKNOWN_NAME
  }

  /** The early exit never yields a wrong name: a hit is the first entry carrying the code. */
  lemma {:induction false} LookupSound(table: seq<CodeName>, code: nat)
    ensures Lookup(table, code) == UNKNOWN_NAME || Lookup(table, code) == TableName(table, code)
  {
    if table != [] && table[0].code < code {
      LookupSound(table[1..], code);
    }
  }

  /** On a strictly ascending table the early exit misses nothing. */
  lemma {:induction false} LookupComplete(table: seq<CodeName>, code: nat)
    requires StrictlyAscending(table)
    ensures Lookup(table, code) == TableName(table, code)
  {
    if table != [] && table[0].code < code {
      LookupComplete(table[1..], code);
    }
  }

  /** Entries that all carry codes below `code` are skipped by the lookup. */
  lemma {:induction false} LookupSkip(table: seq<CodeName>, code: nat, k: nat)
    requires k <= |table|
    requires forall i :: 0 <= i < k ==> table[i].code < code
    ensures Lookup(table, code) == Lookup(table[k..], code)
  {
    if k > 0 {
      assert table[1..][k - 1..] == table[k..];
      LookupSkip(table[1..], code, k - 1);
    }
  }

  // ---------------------------------------------------------------------
  // Tables (src/joystick.c:49-136)

  /** Entries 0x100-0x109 of `button_names` as written: BTN_0 and BTN_1 repeated. */
  const BTN_MISC_NAMES_AS_WRITTEN: seq<CodeName> := [
    CodeName(0x100, "Btn0"), CodeName(0x101, "Btn1"),
    CodeName(0x100, "Btn2"), CodeName(0x101, "Btn3"),
    CodeName(0x100, "Btn4"), CodeName(0x101, "Btn5"),
    CodeName(0x100, "Btn6"), CodeName(0x101, "Btn7"),
    CodeName(0x100, "Btn8"), CodeName(0x101, "Btn9")]

  /** Entries 0x100-0x109 as evidently intended: BTN_0 .. BTN_9. */
  const BTN_MISC_NAMES: seq<CodeName> := [
    CodeName(0x100, "Btn0"), CodeName(0x101, "Btn1"),
    CodeName(0x102, "Btn2"), CodeName(0x103, "Btn3"),
    CodeName(0x104, "Btn4"), CodeName(0x105, "Btn5"),
    CodeName(0x106, "Btn6"), CodeName(0x107, "Btn7"),
    CodeName(0x108, "Btn8"), CodeName(0x109, "Btn9")]

  // The rest of `button_names`, in the groups of the source: mouse,
  // joystick, gamepad, wheel and d-pad buttons.
  const BTN_MOUSE_NAMES: seq<CodeName> := [
    CodeName(0x110, "LeftBtn"), CodeName(0x111, "RightBtn"),
    CodeName(0x112, "MiddleBtn"), CodeName(0x113, "SideBtn"),
    CodeName(0x114, "ExtraBtn"), CodeName(0x115, "FowardBtn"),
    CodeName(0x116, "BackBtn"), CodeName(0x117, "TaskBtn")]

  const BTN_JOYSTICK_NAMES: seq<CodeName> := [
    CodeName(0x120, "Trigger"), CodeName(0x121, "ThumbBtn"),
    CodeName(0x122, "ThumbBtn2"), CodeName(0x123, "TopBtn"),
    CodeName(0x124, "TopBtn2"), CodeName(0x125, "PinkieButton"),
    CodeName(0x126, "BaseBtn"), CodeName(0x127, "BaseBtn2"),
    CodeName(0x128, "BaseBtn3"), CodeName(0x129, "BaseBtn4"),
    CodeName(0x12a, "BaseBtn5"), CodeName(0x12b, "BaseBtn6"),
    CodeName(0x12f, "BtnDead")]

  const BTN_GAMEPAD_NAMES: seq<CodeName> := [
    CodeName(0x130, "BtnA"), CodeName(0x131, "BtnB"),
    CodeName(0x132, "BtnC"), CodeName(0x133, "BtnX"),
    CodeName(0x134, "BtnY"), CodeName(0x135, "BtnZ"),
    CodeName(0x136, "BtnTL"), CodeName(0x137, "BtnTR"),
    CodeName(0x138, "BtnTL2"), CodeName(0x139, "BtnTR2"),
    CodeName(0x13a, "BtnSelect"), CodeName(0x13b, "BtnStart"),
    CodeName(0x13c, "BtnMode"), CodeName(0x13d, "BtnThumbL"),
    CodeName(0x13e, "BtnThumbR")]

  const BTN_WHEEL_AND_DPAD_NAMES: seq<CodeName> := [
    CodeName(0x150, "GearDown"), CodeName(0x151, "GearUp"),
    CodeName(0x220, "BtnDPadUp"), CodeName(0x221, "BtnDPadDown"),
    CodeName(0x222, "BtnDPadLeft"), CodeName(0x223, "BtnDPadRight")]

  const BUTTON_NAMES_REST: seq<CodeName> :=
    BTN_MOUSE_NAMES + BTN_JOYSTICK_NAMES + BTN_GAMEPAD_NAMES + BTN_WHEEL_AND_DPAD_NAMES

  const BUTTON_NAMES_AS_WRITTEN: seq<CodeName> := BTN_MISC_NAMES_AS_WRITTEN + BUTTON_NAMES_REST
  const BUTTON_NAMES: seq<CodeName> := BTN_MISC_NAMES + BUTTON_NAMES_REST

  const AXIS_NAMES: seq<CodeName> := [
    CodeName(0x00, "X"), CodeName(0x01, "Y"), CodeName(0x02, "Z"),
    CodeName(0x03, "Rx"), CodeName(0x04, "Ry"), CodeName(0x05, "Rz"),
    CodeName(0x06, "Throttle"), CodeName(0x07, "Rudder"),
    CodeName(0x08, "Wheel"), CodeName(0x09, "Gas"), CodeName(0x0a, "Brake"),
    CodeName(0x10, "Hat0X"), CodeName(0x11, "Hat0Y"),
    CodeName(0x12, "Hat1X"), CodeName(0x13, "Hat1Y"),
    CodeName(0x14, "Hat2X"), CodeName(0x15, "Hat2Y"),
    CodeName(0x16, "Hat3X"), CodeName(0x17, "Hat3Y"),
    CodeName(0x18, "Pressure"), CodeName(0x19, "Distance"),
    CodeName(0x1a, "XTilt"), CodeName(0x1b, "YTilt"),
    CodeName(0x1c, "ToolWidth"), CodeName(0x20, "Volume"),
    CodeName(0x21, "Profile"), CodeName(0x28, "Misc")]

  /** Both axes of a hat carry the hat's name. */
  const HAT_NAMES: seq<CodeName> := [
    CodeName(0x10, "Hat0"), CodeName(0x11, "Hat0"),
    CodeName(0x12, "Hat1"), CodeName(0x13, "Hat1"),
    CodeName(0x14, "Hat2"), CodeName(0x15, "Hat2"),
    CodeName(0x16, "Hat3"), CodeName(0x17, "Hat3")]

  /** Neighbouring codes ascend. */
  ghost predicate AdjacentAscending(table: seq<CodeName>)
  {
    forall i :: 0 < i < |table| ==> table[i - 1].code < table[i].code
  }

  lemma {:induction false} AdjacentToStrict(table: seq<CodeName>)
    requires AdjacentAscending(table)
    ensures StrictlyAscending(table)
  {
    if |table| > 1 {
      var tail := table[1..];
      AdjacentToStrict(tail);
      forall j | 1 <= j < |table|
        ensures table[0].code < table[j].code
      {
        assert table[j] == tail[j - 1];
        if j > 1 {
          assert tail[0].code < tail[j - 1].code;
        }
      }
    }
  }

  lemma {:induction false} AdjacentConcat(a: seq<CodeName>, b: seq<CodeName>)
    requires AdjacentAscending(a) && AdjacentAscending(b)
    requires a != [] && b != [] && a[|a| - 1].code < b[0].code
    ensures AdjacentAscending(a + b)
  {
    forall i | 0 < i < |a + b|
      ensures (a + b)[i - 1].code < (a + b)[i].code
    {
      if i > |a| {
        assert (a + b)[i - 1] == b[i - 1 - |a|] && (a + b)[i] == b[i - |a|];
      }
    }
  }

  /** Each group of button names ascends on its own. */
  lemma LowButtonGroupsAscend()
    ensures AdjacentAscending(BTN_MISC_NAMES) && AdjacentAscending(BTN_MOUSE_NAMES)
  {
  }

  lemma JoystickButtonsAscend()
    ensures AdjacentAscending(BTN_JOYSTICK_NAMES)
  {
  }

  lemma HighButtonGroupsAscend()
    ensures AdjacentAscending(BTN_GAMEPAD_NAMES) && AdjacentAscending(BTN_WHEEL_AND_DPAD_NAMES)
  {
  }

  lemma ButtonNamesAscending()
    ensures StrictlyAscending(BUTTON_NAMES)
  {
    LowButtonGroupsAscend();
    JoystickButtonsAscend();
    HighButtonGroupsAscend();
    AdjacentConcat(BTN_MOUSE_NAMES, BTN_JOYSTICK_NAMES);
    AdjacentConcat(BTN_MOUSE_NAMES + BTN_JOYSTICK_NAMES, BTN_GAMEPAD_NAMES);
    AdjacentConcat(BTN_MOUSE_NAMES + BTN_JOYSTICK_NAMES + BTN_GAMEPAD_NAMES, BTN_WHEEL_AND_DPAD_NAMES);
    AdjacentConcat(BTN_MISC_NAMES, BUTTON_NAMES_REST);
    AdjacentToStrict(BUTTON_NAMES);
  }

  lemma AxisNamesAdjacent()
    ensures AdjacentAscending(AXIS_NAMES)
  {
  }

  lemma AxisNamesAscending()
    ensures StrictlyAscending(AXIS_NAMES)
  {
    AxisNamesAdjacent();
    AdjacentToStrict(AXIS_NAMES);
  }

  lemma HatNamesAscending()
    ensures StrictlyAscending(HAT_NAMES)
  {
    assert AdjacentAscending(HAT_NAMES);
    AdjacentToStrict(HAT_NAMES);
  }

  // ---------------------------------------------------------------------
  // joy_get_*_name

  /** `joy_get_axis_name` */
  function AxisName(code: nat): (r: string)
    ensures r == TableName(AXIS_NAMES, code)
  {
    AxisNamesAscending();
    LookupComplete(AXIS_NAMES, code);
    Lookup(AXIS_NAMES, code)
  }

  /** `joy_get_button_name`, over the table with distinct BTN_0 .. BTN_9 codes. */
  function ButtonName(code: nat): (r: string)
    ensures r == TableName(BUTTON_NAMES, code)
  {
    ButtonNamesAscending();
    LookupComplete(BUTTON_NAMES, code);
    Lookup(BUTTON_NAMES, code)
  }

  /** `joy_get_hat_name` */
  function HatName(code: nat): (r: string)
    ensures r == TableName(HAT_NAMES, code)
  {
    HatNamesAscending();
    LookupComplete(HAT_NAMES, code);
    Lookup(HAT_NAMES, code)
  }

  /**
   * `joy_get_button_name` over the table as written. It never returns a
   * wrong name, but it can return "<?>" for a code the names were meant for.
   */
  function ButtonNameAsWritten(code: nat): (r: string)
    ensures r == UNKNOWN_NAME || r == TableName(BUTTON_NAMES_AS_WRITTEN, code)
  {
    LookupSound(BUTTON_NAMES_AS_WRITTEN, code);
    Lookup(BUTTON_NAMES_AS_WRITTEN, code)
  }

  /**
   * The repeated BTN_0/BTN_1 rows leave BTN_2 .. BTN_9 without a name, while
   * the intended table names them "Btn2" .. "Btn9".
   */
  lemma ButtonNamesAsWrittenMissBtn2To9(n: nat)
    requires 2 <= n <= 9
    ensures ButtonNameAsWritten(BTN_MISC + n) == UNKNOWN_NAME
    ensures ButtonName(BTN_MISC + n) == "Btn" + [('0' as int + n) as char]
  {
    var code := BTN_MISC + n;
    LookupSkip(BUTTON_NAMES_AS_WRITTEN, code, 10);
    assert BUTTON_NAMES_AS_WRITTEN[10..] == BUTTON_NAMES_REST;
    assert BUTTON_NAMES[n].code == code;
    assert FirstIndex(BUTTON_NAMES, code) == Some(n);
  }

  /** The hat table names exactly the hat block, and every hat code has an axis name too. */
  lemma HatNamesCoverHatBlock(code: nat)
    ensures HatName(code) != UNKNOWN_NAME <==> IsHatCode(code)
  {
    assert forall i :: 0 <= i < |HAT_NAMES| ==> HAT_NAMES[i].code == ABS_HAT0X + i;
    assert forall i :: 0 <= i < |HAT_NAMES| ==> HAT_NAMES[i].name != UNKNOWN_NAME;
    if ABS_HAT0X <= code <= ABS_HAT3Y {
      assert HAT_NAMES[code - ABS_HAT0X].code == code;
    }
  }

  /** In a strictly ascending table the entry at `i` is the first carrying its code. */
  lemma AscendingFirstIndex(table: seq<CodeName>, i: nat)
    requires StrictlyAscending(table) && i < |table|
    ensures FirstIndex(table, table[i].code) == Some(i)
  {
  }

  /** Every hat code also has a name in the axis table ("Hat0X" .. "Hat3Y"). */
  lemma HatCodesHaveAxisNames(code: nat)
    requires IsHatCode(code)
    ensures AxisName(code) != UNKNOWN_NAME
  {
    AxisNamesAscending();
    var i := code - ABS_HAT0X + 11;
    var hats := AXIS_NAMES[11..19];
    assert forall k :: 0 <= k < |hats| ==> hats[k].code == ABS_HAT0X + k && hats[k].name[0] == 'H';
    assert AXIS_NAMES[i] == hats[i - 11];
    AscendingFirstIndex(AXIS_NAMES, i);
  }
}
