/**
 * The event side of the tester: `event_widget_update` routes an input
 * event to the button or axis indicator whose ordinal maps its code, and
 * `poll_worker` reads events from libevdev, draining a resync after a
 * dropped-events report. The GTK widgets are reduced to their values: the
 * pressed state of each button LED and the value of each axis slider, one
 * per grid row. Threads are reduced to one worker whose reads are a
 * script; a stop request from the UI thread is a mark in that script.
 */
module EventWidget {
  import opened Wrappers
  import opened JoyCodes
  import opened JoyDevice

  /** `struct input_event` without its time stamp. */
  datatype InputEvent = InputEvent(evType: int, code: int, value: int)

  /** `LIBEVDEV_READ_STATUS_SUCCESS` */
  const SUCCESS: int := 0
  /** `LIBEVDEV_READ_STATUS_SYNC` */
  const SYNC: int := 1
  /** `EAGAIN` on Linux; libevdev reports it negated. */
  const EAGAIN: int := 11

  /**
   * `poll_state` with the indicator grids: `polling` stands for a
   * non-NULL `thread`, `device` for the record polled, `pressed` and
   * `axes` for the LED and slider of each grid row.
   */
  datatype PollValue = PollValue(
    polling: bool, device: Option<DevInfo>, cancel: bool,
    prevType: int, prevCode: int, prevValue: int,
    pressed: seq<int>, axes: seq<int>)

  /** The state after `poll_state_init`, before any device is shown. */
  const INITIAL: PollValue := PollValue(false, None, false, -1, -1, -1, [], [])

  // ---------------------------------------------------------------------
  // Finding the indicator of an event

  /** Ordinal `j` maps `code` and has an indicator in a grid of `rows` rows. */
  predicate MatchesAt(codes: seq<int>, code: int, rows: nat, j: int)
  {
    0 <= j < |codes| && j < rows && codes[j] == code
  }

  /** `j` is the first ordinal that maps `code` and has an indicator. */
  predicate FirstMatch(codes: seq<int>, code: int, rows: nat, j: int)
  {
    MatchesAt(codes, code, rows, j) && forall k :: 0 <= k < j ==> !MatchesAt(codes, code, rows, k)
  }

  /**
   * The lookup loop of `update_button` / `update_axis` bounded by the map
   * size, from ordinal `from` on: a matching ordinal without an indicator
   * is passed over, the first one with an indicator ends the loop.
   */
  function FirstRow(codes: seq<int>, code: int, rows: nat, from: nat): (r: Option<nat>)
    ensures r.Some? ==> from <= r.value && MatchesAt(codes, code, rows, r.value)
    ensures forall j :: from <= j && (r.None? || j < r.value) ==> !MatchesAt(codes, code, rows, j)
    decreases |codes| - from
  {
    if from >= |codes| then None
    else if MatchesAt(codes, code, rows, from) then Some(from)
    else FirstRow(codes, code, rows, from + 1)
  }

  /** The lookup from ordinal 0 finds exactly the first match. */
  lemma FirstRowIsFirstMatch(codes: seq<int>, code: int, rows: nat)
    ensures var r := FirstRow(codes, code, rows, 0);
      (r.Some? ==> FirstMatch(codes, code, rows, r.value))
      && (r.None? <==> forall j :: !MatchesAt(codes, code, rows, j))
  {
  }

  /** When every ordinal has its indicator, a code is found exactly when the map holds it. */
  lemma {:induction false} RowsCoverCodes(codes: seq<int>, code: int)
    ensures FirstRow(codes, code, |codes|, 0).Some? <==> code in codes
  {
    if code in codes {
      var j :| 0 <= j < |codes| && codes[j] == code;
      assert MatchesAt(codes, code, |codes|, j);
    }
  }

  /** The codes of the axis map, `axis_map[i].code`. */
  function AxisCodeList(m: seq<AbsInfo>): seq<int>
  {
    seq(|m|, i requires 0 <= i < |m| => m[i].code)
  }

  /** A grid after one indicator has been set, when the lookup found one. */
  function SetRow(rows: seq<int>, target: Option<nat>, v: int): seq<int>
  {
    if target.Some? && target.value < |rows| then rows[target.value := v] else rows
  }

  /** The LEDs after `update_button`; nothing changes without a device. */
  function PressedAfter(s: PollValue, code: int, value: int): seq<int>
  {
    if s.device.None? then s.pressed
    else SetRow(s.pressed, FirstRow(s.device.value.buttonMap, code, |s.pressed|, 0), value)
  }

  /** The sliders after `update_axis`; nothing changes without a device. */
  function AxesAfter(s: PollValue, code: int, value: int): seq<int>
  {
    if s.device.None? then s.axes
    else SetRow(s.axes, FirstRow(AxisCodeList(s.device.value.axisMap), code, |s.axes|, 0), value)
  }

  /** `event_widget_update`: route by type, then record the event's triple. */
  function Updated(s: PollValue, ev: InputEvent): PollValue
  {
    var routed :=
      if ev.evType == EV_KEY then s.(pressed := PressedAfter(s, ev.code, ev.value))
      else if ev.evType == EV_ABS then s.(axes := AxesAfter(s, ev.code, ev.value))
      else s;
    routed.(prevType := ev.evType, prevCode := ev.code, prevValue := ev.value)
  }

  /**
   * Whatever its type, an event leaves its triple as the previous one and
   * touches neither the device, the cancel request nor the poller; an
   * event of another type than EV_KEY / EV_ABS, or one arriving without a
   * device, changes no indicator.
   */
  lemma UpdatedRecordsEvent(s: PollValue, ev: InputEvent)
    ensures var t := Updated(s, ev);
      && t.prevType == ev.evType && t.prevCode == ev.code && t.prevValue == ev.value
      && t.polling == s.polling && t.device == s.device && t.cancel == s.cancel
      && ((ev.evType != EV_KEY && ev.evType != EV_ABS) || s.device.None? ==> t.pressed == s.pressed && t.axes == s.axes)
  {
  }

  /**
   * An EV_KEY event sets the LED of the first button ordinal that maps its
   * code and has an LED, to the event's value, and no other indicator.
   */
  lemma UpdatedButton(s: PollValue, ev: InputEvent)
    requires s.device.Some? && ev.evType == EV_KEY
    ensures var t := Updated(s, ev); var codes := s.device.value.buttonMap;
      && t.axes == s.axes && |t.pressed| == |s.pressed|
      && forall j :: 0 <= j < |s.pressed| ==>
           t.pressed[j] == if FirstMatch(codes, ev.code, |s.pressed|, j) then ev.value else s.pressed[j]
  {
    var codes := s.device.value.buttonMap;
    FirstRowIsFirstMatch(codes, ev.code, |s.pressed|);
  }

  /**
   * An EV_ABS event sets the slider of the first axis ordinal whose
   * `code` is the event's code and that has a slider, and no other
   * indicator.
   */
  lemma UpdatedAxis(s: PollValue, ev: InputEvent)
    requires s.device.Some? && ev.evType == EV_ABS
    ensures var t := Updated(s, ev); var codes := AxisCodeList(s.device.value.axisMap);
      && t.pressed == s.pressed && |t.axes| == |s.axes|
      && forall j :: 0 <= j < |s.axes| ==>
           t.axes[j] == if FirstMatch(codes, ev.code, |s.axes|, j) then ev.value else s.axes[j]
  {
    var codes := AxisCodeList(s.device.value.axisMap);
    FirstRowIsFirstMatch(codes, ev.code, |s.axes|);
  }

  // ---------------------------------------------------------------------
  // The lookup loop as written

  /** How the lookup loop ends: at an ordinal, with no match, or reading past the map. */
  datatype RowMatch = Found(index: nat) | NoMatch | OutOfBounds(index: nat)

  /**
   * The lookup loop of `update_button` / `update_axis` as written
   * (src/event-widget.c:268, 291): its condition is the count itself, so
   * with a non-zero count it runs past the last ordinal when no ordinal
   * matches.
   */
  function MatchAsWritten(codes: seq<int>, count: nat, code: int, rows: nat, from: nat): RowMatch
    decreases |codes| - from
  {
    if count == 0 then NoMatch
    else if from >= |codes| then OutOfBounds(from)
    else if MatchesAt(codes, code, rows, from) then Found(from)
    else MatchAsWritten(codes, count, code, rows, from + 1)
  }

  /**
   * With a non-zero count the loop as written stops where the bounded loop
   * does when there is a match, and otherwise reads the map at the first
   * ordinal past its end.
   */
  lemma {:induction false} MatchAsWrittenOverruns(codes: seq<int>, count: nat, code: int, rows: nat, from: nat)
    requires count > 0
    ensures MatchAsWritten(codes, count, code, rows, from) ==
      match FirstRow(codes, code, rows, from)
      case Some(j) => Found(j)
      case None => OutOfBounds(if from < |codes| then |codes| else from)
    decreases |codes| - from
  {
    if from < |codes| && !MatchesAt(codes, code, rows, from) {
      MatchAsWrittenOverruns(codes, count, code, rows, from + 1);
    }
  }

  /** A one-button pad mapping BTN_TRIGGER that reports BTN_THUMB: the loop reads `button_map[1]`. */
  lemma MatchAsWrittenReadsPastMap()
    ensures MatchAsWritten([0x120], 1, 0x121, 1, 0) == OutOfBounds(1)
    ensures FirstRow([0x120], 0x121, 1, 0) == None
  {
    assert !MatchesAt([0x120], 0x121, 1, 0);
  }

  // ---------------------------------------------------------------------
  // Starting and stopping, and the worker's reads

  /** `event_widget_start_poll`: only when no poller is active. */
  function Started(s: PollValue, d: DevInfo): PollValue
  {
    if s.polling then s else s.(device := Some(d), cancel := false, polling := true)
  }

  /** `event_widget_stop_poll` */
  function Stopped(s: PollValue): PollValue
  {
    s.(cancel := true, polling := false)
  }

  /**
   * What the worker meets, one item per step: `Idle` is a moment when
   * `libevdev_has_event_pending` reports nothing, with `stop` marking a
   * `event_widget_stop_poll` by the UI thread just before it; `Got` is a
   * read by `libevdev_next_event` with its status and event.
   */
  datatype Item = Idle(stop: bool) | Got(status: int, ev: InputEvent)

  /** How a run of the worker ends: cancelled, on a read error, or with the script used up. */
  datatype Outcome = Cancelled | Failed(status: int) | Exhausted

  /** The do/while condition of `poll_worker`. */
  predicate Continues(rc: int)
  {
    rc == SYNC || rc == SUCCESS || rc == -EAGAIN
  }

  /**
   * The worker's run over a script, `draining` while it reads with the
   * sync flag. An idle moment outside a drain honours a pending cancel
   * and resets it; a read in normal mode updates the widget only with
   * status SUCCESS.
   */
  function Run(s: PollValue, script: seq<Item>, draining: bool): (PollValue, Outcome)
    decreases |script|, 0
  {
    if script == [] then (s, Exhausted)
    else match script[0]
      case Idle(stop) =>
        var s1 := if stop then Stopped(s) else s;
        if !draining && s1.cancel then (s1.(cancel := false), Cancelled)
        else Run(s1, script[1..], draining)
      case Got(rc, ev) =>
        After(if !draining && rc == SUCCESS then Updated(s, ev) else s, script[1..], rc)
  }

  /** What follows a read with status `rc`: a drain after SYNC, the next round or the end. */
  function After(s: PollValue, rest: seq<Item>, rc: int): (PollValue, Outcome)
    decreases |rest|, 1
  {
    if rc == SYNC then Run(s, rest, true)
    else if Continues(rc) then Run(s, rest, false)
    else (s, Failed(rc))
  }

  /** Neither the record polled nor an indicator nor the last triple differs between `s` and `t`. */
  predicate SameWidgets(s: PollValue, t: PollValue)
  {
    t.device == s.device && t.pressed == s.pressed && t.axes == s.axes
    && t.prevType == s.prevType && t.prevCode == s.prevCode && t.prevValue == s.prevValue
  }

  /** Items a drain meets before its last read: further SYNC reads and idle moments. */
  predicate DrainItems(mid: seq<Item>)
  {
    forall k :: 0 <= k < |mid| ==> mid[k] == Idle(false) || (mid[k].Got? && mid[k].status == SYNC)
  }

  /**
   * A drain reads on until a status other than SYNC and hands none of its
   * events, the last one included, to `event_widget_update`: the worker
   * goes on as if the drain had not happened.
   */
  lemma {:induction false} DrainSkips(s: PollValue, mid: seq<Item>, rc: int, e: InputEvent, rest: seq<Item>)
    requires DrainItems(mid) && rc != SYNC
    ensures Run(s, mid + [Got(rc, e)] + rest, true) == After(s, rest, rc)
    decreases |mid|
  {
    if mid == [] {
      assert [Got(rc, e)] + rest == mid + [Got(rc, e)] + rest;
      assert ([Got(rc, e)] + rest)[1..] == rest;
    } else {
      var script := mid + [Got(rc, e)] + rest;
      assert script[0] == mid[0];
      assert script[1..] == mid[1..] + [Got(rc, e)] + rest;
      assert DrainItems(mid[1..]) by {
        forall k | 0 <= k < |mid[1..]|
          ensures mid[1..][k] == Idle(false) || (mid[1..][k].Got? && mid[1..][k].status == SYNC)
        {
          assert mid[1..][k] == mid[k + 1];
        }
      }
      DrainSkips(s, mid[1..], rc, e, rest);
    }
  }

  /** A SYNC read in normal mode starts a drain that changes nothing. */
  lemma SyncReadIsDrained(s: PollValue, e0: InputEvent, mid: seq<Item>, rc: int, e: InputEvent, rest: seq<Item>)
    requires DrainItems(mid) && rc != SYNC
    ensures Run(s, [Got(SYNC, e0)] + mid + [Got(rc, e)] + rest, false) == After(s, rest, rc)
  {
    var script := [Got(SYNC, e0)] + mid + [Got(rc, e)] + rest;
    assert script[1..] == mid + [Got(rc, e)] + rest;
    DrainSkips(s, mid, rc, e, rest);
  }

  /** A read with a status other than SYNC, SUCCESS or -EAGAIN ends the run, in a drain or not. */
  lemma FailedReadEnds(s: PollValue, rc: int, e: InputEvent, rest: seq<Item>, draining: bool)
    requires !Continues(rc)
    ensures Run(s, [Got(rc, e)] + rest, draining) == (s, Failed(rc))
  {
  }

  /** A script without a SUCCESS read leaves the record, the indicators and the last triple as they were. */
  lemma {:induction false} RunWithoutSuccessKeepsWidgets(s: PollValue, script: seq<Item>, draining: bool)
    requires forall k :: 0 <= k < |script| ==> !(script[k].Got? && script[k].status == SUCCESS)
    ensures SameWidgets(s, Run(s, script, draining).0)
    decreases |script|
  {
    if script != [] {
      assert forall k :: 0 <= k < |script[1..]| ==> script[1..][k] == script[k + 1];
      match script[0]
      case Idle(stop) =>
        var s1 := if stop then Stopped(s) else s;
        if !(!draining && s1.cancel) {
          RunWithoutSuccessKeepsWidgets(s1, script[1..], draining);
        }
      case Got(rc, ev) =>
        if Continues(rc) {
          RunWithoutSuccessKeepsWidgets(s, script[1..], rc == SYNC);
        }
    }
  }

  /**
   * The worker never changes the record polled and never starts a poller;
   * when it ends by cancellation the cancel request is reset, and it ends
   * so only from a state or a stop request that asked for it.
   */
  lemma {:induction false} RunOutcome(s: PollValue, script: seq<Item>, draining: bool)
    ensures var r := Run(s, script, draining);
      && r.0.device == s.device
      && (r.0.polling ==> s.polling)
      && (r.1 == Cancelled ==> !r.0.cancel && (s.cancel || Idle(true) in script))
    decreases |script|
  {
    if script != [] {
      match script[0]
      case Idle(stop) =>
        var s1 := if stop then Stopped(s) else s;
        if !(!draining && s1.cancel) {
          RunOutcome(s1, script[1..], draining);
          var r := Run(s1, script[1..], draining);
          if r.1 == Cancelled {
            assert s1.cancel || Idle(true) in script[1..];
            if Idle(true) in script[1..] {
              var k :| 0 <= k < |script[1..]| && script[1..][k] == Idle(true);
              assert script[k + 1] == Idle(true);
            }
          }
        }
      case Got(rc, ev) =>
        var s1 := if !draining && rc == SUCCESS then Updated(s, ev) else s;
        if Continues(rc) {
          RunOutcome(s1, script[1..], rc == SYNC);
          var r := Run(s1, script[1..], rc == SYNC);
          if r.1 == Cancelled {
            if Idle(true) in script[1..] {
              var k :| 0 <= k < |script[1..]| && script[1..][k] == Idle(true);
              assert script[k + 1] == Idle(true);
            }
          }
        }
    }
  }

  /** After a stop request, the first idle moment outside a drain ends the worker and clears the request. */
  lemma StopEndsAtIdle(s: PollValue, rest: seq<Item>)
    ensures Run(Stopped(s), [Idle(false)] + rest, false) == (Stopped(s).(cancel := false), Cancelled)
    ensures Run(s, [Idle(true)] + rest, false) == (Stopped(s).(cancel := false), Cancelled)
  {
  }

  // ---------------------------------------------------------------------
  // The poll state in place

  /** `poll_state` with the indicator grids of the event widget. */
  class PollState {
    var polling: bool
    var device: Option<DevInfo>
    var cancel: bool
    var prevType: int
    var prevCode: int
    var prevValue: int
    var pressed: seq<int>
    var axes: seq<int>

    /** The record polled has map lengths that agree with its counts. */
    ghost predicate Valid()
      reads this
    {
      device.Some? ==> WellFormed(device.value)
    }

    ghost function Value(): PollValue
      reads this
    {
      PollValue(polling, device, cancel, prevType, prevCode, prevValue, pressed, axes)
    }

    /** `event_widget_new` with `poll_state_init` */
    constructor ()
      ensures Valid() && Value() == INITIAL
    {
      polling, device, cancel := false, None, false;
      prevType, prevCode, prevValue := -1, -1, -1;
      pressed, axes := [], [];
    }

    /** `update_button` with the loop bounded by `num_buttons` */
    method UpdateButton(ev: InputEvent)
      requires Valid()
      modifies this
      ensures Valid() && Value() == old(Value()).(pressed := PressedAfter(old(Value()), ev.code, ev.value))
    {
      if device.None? {
        return;
      }
      var dev := device.value;
      var b := 0;
      while b < dev.numButtons
        invariant 0 <= b <= dev.numButtons && Value() == old(Value())
        invariant FirstRow(dev.buttonMap, ev.code, |pressed|, b) == FirstRow(dev.buttonMap, ev.code, |pressed|, 0)
      {
        if ev.code == dev.buttonMap[b] && b < |pressed| {
          pressed := pressed[b := ev.value];
          break;
        }
        b := b + 1;
      }
    }

    /** `update_axis` with the loop bounded by `num_axes` */
    method UpdateAxis(ev: InputEvent)
      requires Valid()
      modifies this
      ensures Valid() && Value() == old(Value()).(axes := AxesAfter(old(Value()), ev.code, ev.value))
    {
      if device.None? {
        return;
      }
      var dev := device.value;
      ghost var codes := AxisCodeList(dev.axisMap);
      var i := 0;
      while i < dev.numAxes
        invariant 0 <= i <= dev.numAxes && Value() == old(Value())
        invariant FirstRow(codes, ev.code, |axes|, i) == FirstRow(codes, ev.code, |axes|, 0)
      {
        if ev.code == dev.axisMap[i].code && i < |axes| {
          axes := axes[i := ev.value];
          break;
        }
        i := i + 1;
      }
    }

    /** `event_widget_update` */
    method Update(ev: InputEvent)
      requires Valid()
      modifies this
      ensures Valid() && Value() == Updated(old(Value()), ev)
    {
      if ev.evType == EV_KEY {
        UpdateButton(ev);
      } else if ev.evType == EV_ABS {
        UpdateAxis(ev);
      }
      prevType, prevCode, prevValue := ev.evType, ev.code, ev.value;
    }

    /** `event_widget_start_poll` */
    method StartPoll(d: DevInfo)
      requires Valid() && WellFormed(d)
      modifies this
      ensures Valid() && Value() == Started(old(Value()), d)
    {
      if !polling {
        device, cancel, polling := Some(d), false, true;
      }
    }

    /** `event_widget_stop_poll` */
    method StopPoll()
      modifies this
      ensures Valid() == old(Valid()) && Value() == Stopped(old(Value()))
    {
      cancel, polling := true, false;
    }

    /**
     * `event_widget_set_device`: one released LED per button and one slider
     * at 0 per axis, then a poll of the device.
     */
    method SetDevice(d: DevInfo)
      requires Valid() && WellFormed(d)
      modifies this
      ensures Valid()
      ensures Value() == Started(old(Value()).(pressed := Repeat(0, d.numButtons), axes := Repeat(0, d.numAxes)), d)
    {
      pressed := Repeat(0, d.numButtons);
      axes := Repeat(0, d.numAxes);
      StartPoll(d);
    }

    /**
     * The read/resync loop of `poll_worker` over a script of what the
     * device and the UI thread do.
     */
    method PollWorker(script: seq<Item>) returns (outcome: Outcome)
      requires Valid()
      modifies this
      ensures Valid() && (Value(), outcome) == Run(old(Value()), script, false)
    {
      ghost var target := Run(Value(), script, false);
      var i := 0;
      while true
        invariant Valid() && 0 <= i <= |script| && Run(Value(), script[i..], false) == target
        decreases |script| - i
      {
        while i < |script| && script[i].Idle?
          invariant Valid() && 0 <= i <= |script| && Run(Value(), script[i..], false) == target
          decreases |script| - i
        {
          assert script[i..][1..] == script[i + 1..];
          if script[i].stop {
            StopPoll();
          }
          if cancel {
            cancel := false;
            return Cancelled;
          }
          i := i + 1;
        }
        if i == |script| {
          return Exhausted;
        }
        assert script[i..][1..] == script[i + 1..];
        var rc, ev := script[i].status, script[i].ev;
        i := i + 1;
        if rc == SYNC {
          while rc == SYNC
            invariant Valid() && 0 <= i <= |script| && After(Value(), script[i..], rc) == target
            decreases |script| - i
          {
            if i == |script| {
              return Exhausted;
            }
            assert script[i..][1..] == script[i + 1..];
            match script[i] {
              case Idle(stop) =>
                if stop {
                  StopPoll();
                }
              case Got(r, e) =>
                rc, ev := r, e;
            }
            i := i + 1;
          }
        } else if rc == SUCCESS {
          Update(ev);
        }
        if !Continues(rc) {
          return Failed(rc);
        }
      }
    }
  }
}
