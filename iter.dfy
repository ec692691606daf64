/**
 * The device-node iterator `joy_dev_iter_t` (src/joystick.c:391-564):
 * it lists a directory, joins each entry onto the root path, keeps the
 * entries that name an evdev joystick node and loads their records.
 * `opendir`/`readdir`, `stat`, `open` and libevdev are replaced by an
 * abstract environment.
 */
module JoyIter {
  import opened Wrappers
  import opened JoyCodes
  import opened JoyDevice

  // ---------------------------------------------------------------------
  // The environment

  /** The file types `stat` reports. */
  datatype FileType = Fifo | CharDevice | Directory | BlockDevice | Regular | Symlink | Socket

  /** The `S_IFMT` bits of `st_mode` for each file type. */
  function ModeBits(t: FileType): nat
  {
    match t
    case Fifo => 0x1000
    case CharDevice => 0x2000
    case Directory => 0x4000
    case BlockDevice => 0x6000
    case Regular => 0x8000
    case Symlink => 0xA000
    case Socket => 0xC000
  }

  /** `S_IFDIR` */
  const S_IFDIR: nat := 0x4000

  /** `st_mode & S_IFDIR` is nonzero. */
  predicate HasDirBit(t: FileType)
  {
    (ModeBits(t) / S_IFDIR) % 2 == 1
  }

  /**
   * The directory test is a single-bit test, so it turns away block
   * devices and sockets as well as directories.
   */
  lemma DirBitTypes(t: FileType)
    ensures HasDirBit(t) <==> t == Directory || t == BlockDevice || t == Socket
  {
  }

  /** What `stat` resolves a path to; `dev` is None when `open` or `libevdev_new_from_fd` fails. */
  datatype Node = Node(kind: FileType, dev: Option<Evdev>)

  /** The directories `opendir` can open, with the entries `readdir` returns, and the paths `stat` resolves. */
  datatype Env = Env(dirs: map<string, seq<string>>, nodes: map<string, Node>)

  /** `opendir("")` fails, so every directory path the iterator can hold is nonempty. */
  predicate EnvOk(env: Env)
  {
    "" !in env.dirs
  }

  // ---------------------------------------------------------------------
  // Path join and node filter

  /** The root with one trailing '/' removed, if it has one. */
  function TrimSlash(root: string): string
  {
    if |root| > 0 && root[|root| - 1] == '/' then root[..|root| - 1] else root
  }

  /** The path join of `iter_get_entry`: a '/' is put between root and name unless the root already ends in one. */
  function JoinPath(root: string, name: string): string
    requires root != ""
  {
    if root[|root| - 1] != '/' then root + "/" + name else root + name
  }

  /** A joined path is the root, then exactly one '/', then the name. */
  lemma JoinPathLayout(root: string, name: string)
    requires root != ""
    ensures var p := JoinPath(root, name);
      && p == TrimSlash(root) + "/" + name
      && root <= p && p[|p| - |name|..] == name
  {
  }

  /** A root with or without its trailing '/' gives the same paths. */
  lemma JoinIgnoresTrailingSlash(root: string, name: string)
    requires root != "" && root[|root| - 1] != '/'
    ensures JoinPath(root + "/", name) == JoinPath(root, name)
  {
    assert (root + "/")[..|root|] == root;
  }

  /** `JOY_UDEV_SUFFIX` */
  const UDEV_SUFFIX: string := "-event-joystick"

  /** The name test of `iter_has_evdev_joystick`: strictly longer than the suffix and ending in it. */
  predicate HasUdevSuffix(path: string)
  {
    |path| > |UDEV_SUFFIX| && path[|path| - |UDEV_SUFFIX|..] == UDEV_SUFFIX
  }

  /** A path passes the name test exactly when it is a nonempty stem followed by the suffix. */
  lemma UdevSuffixStem(path: string)
    ensures HasUdevSuffix(path) <==> exists stem :: stem != "" && path == stem + UDEV_SUFFIX
  {
    if HasUdevSuffix(path) {
      var stem := path[..|path| - |UDEV_SUFFIX|];
      assert path == stem + UDEV_SUFFIX;
    }
    if exists stem :: stem != "" && path == stem + UDEV_SUFFIX {
      var stem :| stem != "" && path == stem + UDEV_SUFFIX;
      assert path[|path| - |UDEV_SUFFIX|..] == UDEV_SUFFIX;
    }
  }

  /** The suffix itself and other names are turned away. */
  lemma UdevSuffixExamples()
    ensures !HasUdevSuffix(UDEV_SUFFIX)
    ensures HasUdevSuffix("usb-pad-event-joystick")
    ensures !HasUdevSuffix("usb-pad-event-kbd")
  {
    assert "usb-pad-event-joystick"[7..] == UDEV_SUFFIX;
    assert "usb-pad-event-kbd"[2..] != UDEV_SUFFIX by {
      assert "usb-pad-event-kbd"[2..][14] != UDEV_SUFFIX[14];
    }
  }

  /** `iter_has_evdev_joystick`: `stat` succeeds, the type has no `S_IFDIR` bit and the name test passes. */
  predicate IsJoystickNode(env: Env, path: string)
  {
    path in env.nodes && !HasDirBit(env.nodes[path].kind) && HasUdevSuffix(path)
  }

  /** A node that `iter_get_dev_info` manages to open. */
  predicate Opens(env: Env, path: string)
  {
    path in env.nodes && env.nodes[path].dev.Some?
  }

  /** A joystick node that opens: the iterator stops at it with a loaded record. */
  predicate Yields(env: Env, path: string)
  {
    IsJoystickNode(env, path) && Opens(env, path)
  }

  // ---------------------------------------------------------------------
  // What the iterator yields

  /** The iterator fields that change: validity, the entries `readdir` has still to return, and the record. */
  datatype Step = Step(valid: bool, rest: seq<string>, device: DevInfo)

  /** The record `iter_get_entry` leaves for the entry at `path`. */
  function EntryRecord(path: string): DevInfo
  {
    CLEARED.(path := path)
  }

  /**
   * The loop of `joy_dev_iter_next`: read entries until one is an opened
   * joystick node, stopping as invalid when the entries run out or
   * `stat` fails on an entry.
   */
  function Advance(env: Env, root: string, entries: seq<string>): (s: Step)
    requires root != ""
    ensures |s.rest| <= |entries| && s.rest == entries[|entries| - |s.rest|..]
    ensures s.valid ==> |s.rest| < |entries|
    decreases |entries|
  {
    if entries == [] then Step(false, [], CLEARED)
    else
      var p := JoinPath(root, entries[0]);
      if p !in env.nodes then Step(false, entries[1..], EntryRecord(p))
      else if Yields(env, p) then Step(true, entries[1..], Probe(p, env.nodes[p].dev.value))
      else Advance(env, root, entries[1..])
  }

  /**
   * The loop of `joy_dev_iter_init` as evidently intended: read entries
   * until one is an opened joystick node; an entry `stat` fails on is
   * skipped.
   */
  function First(env: Env, root: string, entries: seq<string>): (s: Step)
    requires root != ""
    ensures s.valid ==> |s.rest| < |entries|
    decreases |entries|
  {
    if entries == [] then Step(false, [], CLEARED)
    else
      var p := JoinPath(root, entries[0]);
      if Yields(env, p) then Step(true, entries[1..], Probe(p, env.nodes[p].dev.value))
      else First(env, root, entries[1..])
  }

  /**
   * The loop of `joy_dev_iter_init` as written (src/joystick.c:504-512):
   * the first joystick node ends the loop whether or not it opens.
   */
  function FirstAsWritten(env: Env, root: string, entries: seq<string>): (s: Step)
    requires root != ""
    ensures s.valid ==> |s.rest| < |entries|
    decreases |entries|
  {
    if entries == [] then Step(false, [], CLEARED)
    else
      var p := JoinPath(root, entries[0]);
      if IsJoystickNode(env, p) then
        Step(true, entries[1..], if Opens(env, p) then Probe(p, env.nodes[p].dev.value) else EntryRecord(p))
      else FirstAsWritten(env, root, entries[1..])
  }

  /** The position of the entry a step stopped at. */
  function StopIndex(entries: seq<string>, s: Step): int
  {
    |entries| - |s.rest| - 1
  }

  /**
   * A valid step stops at an opened joystick node and holds its probed
   * record; every entry before it resolves under `stat` and is not an
   * opened joystick node.
   */
  lemma {:induction false} AdvanceFinds(env: Env, root: string, entries: seq<string>)
    requires root != ""
    ensures var s := Advance(env, root, entries); var k := StopIndex(entries, s);
      s.valid ==>
        && 0 <= k < |entries|
        && Yields(env, JoinPath(root, entries[k]))
        && s.device == Probe(JoinPath(root, entries[k]), env.nodes[JoinPath(root, entries[k])].dev.value)
        && forall j :: 0 <= j < k ==>
             JoinPath(root, entries[j]) in env.nodes
             && !Yields(env, JoinPath(root, entries[j]))
    decreases |entries|
  {
    if entries != [] {
      var p := JoinPath(root, entries[0]);
      if p in env.nodes && !(Yields(env, p)) {
        AdvanceFinds(env, root, entries[1..]);
        var s := Advance(env, root, entries);
        if s.valid {
          var k := StopIndex(entries, s);
          forall j | 0 <= j < k
            ensures JoinPath(root, entries[j]) in env.nodes
            ensures !Yields(env, JoinPath(root, entries[j]))
          {
            if j > 0 {
              assert entries[j] == entries[1..][j - 1];
            }
          }
        }
      }
    }
  }

  /**
   * An invalid step either used up the entries and left the record
   * cleared, or stopped at an entry `stat` fails on, with that entry's
   * path in the record.
   */
  lemma {:induction false} AdvanceStops(env: Env, root: string, entries: seq<string>)
    requires root != ""
    ensures var s := Advance(env, root, entries); var k := StopIndex(entries, s);
      !s.valid ==>
        (s.rest == [] && s.device == CLEARED)
        || (0 <= k < |entries| && JoinPath(root, entries[k]) !in env.nodes && s.device == EntryRecord(JoinPath(root, entries[k])))
    decreases |entries|
  {
    if entries != [] {
      var p := JoinPath(root, entries[0]);
      if p in env.nodes && !Yields(env, p) {
        AdvanceStops(env, root, entries[1..]);
        var s := Advance(env, root, entries);
        var k := StopIndex(entries, s);
        if !s.valid && s.rest != [] {
          assert entries[k] == entries[1..][k - 1];
        }
      }
    }
  }

  /** Entries that all resolve under `stat` and none of which yields use up the directory. */
  lemma {:induction false} AdvanceExhausts(env: Env, root: string, entries: seq<string>)
    requires root != ""
    requires forall j :: 0 <= j < |entries| ==> JoinPath(root, entries[j]) in env.nodes && !Yields(env, JoinPath(root, entries[j]))
    ensures Advance(env, root, entries) == Step(false, [], CLEARED)
    decreases |entries|
  {
    if entries != [] {
      assert JoinPath(root, entries[0]) in env.nodes;
      forall j | 0 <= j < |entries[1..]|
        ensures JoinPath(root, entries[1..][j]) in env.nodes && !Yields(env, JoinPath(root, entries[1..][j]))
      {
        assert entries[1..][j] == entries[j + 1];
      }
      AdvanceExhausts(env, root, entries[1..]);
    }
  }

  /** When no entry fails `stat`, the loop of `joy_dev_iter_init` as intended stops where the one of `joy_dev_iter_next` does. */
  lemma {:induction false} FirstIsAdvance(env: Env, root: string, entries: seq<string>)
    requires root != ""
    requires forall j :: 0 <= j < |entries| ==> JoinPath(root, entries[j]) in env.nodes
    ensures First(env, root, entries) == Advance(env, root, entries)
    decreases |entries|
  {
    if entries != [] {
      assert JoinPath(root, entries[0]) in env.nodes;
      forall j | 0 <= j < |entries[1..]|
        ensures JoinPath(root, entries[1..][j]) in env.nodes
      {
        assert entries[1..][j] == entries[j + 1];
      }
      FirstIsAdvance(env, root, entries[1..]);
    }
  }

  /**
   * As written, a directory whose only joystick node cannot be opened
   * yields a valid iterator whose record has no name and no identity.
   */
  lemma FirstAsWrittenYieldsUnopened()
    ensures var env := Env(map["/dev/input/by-id" := ["pad-event-joystick"]],
                           map["/dev/input/by-id/pad-event-joystick" := Node(CharDevice, None)]);
      && FirstAsWritten(env, "/dev/input/by-id", ["pad-event-joystick"]).valid
      && FirstAsWritten(env, "/dev/input/by-id", ["pad-event-joystick"]).device
         == EntryRecord("/dev/input/by-id/pad-event-joystick")
      && !First(env, "/dev/input/by-id", ["pad-event-joystick"]).valid
  {
    var p := JoinPath("/dev/input/by-id", "pad-event-joystick");
    assert p == "/dev/input/by-id/pad-event-joystick";
    assert p[|p| - |UDEV_SUFFIX|..] == UDEV_SUFFIX;
  }

  /** The records the iterator yields after its first one, one per successful `joy_dev_iter_next`. */
  function Following(env: Env, root: string, entries: seq<string>): (ds: seq<DevInfo>)
    requires root != ""
    decreases |entries|
  {
    var s := Advance(env, root, entries);
    if s.valid then [s.device] + Following(env, root, s.rest) else []
  }

  /** Every record the iterator yields: the one `joy_dev_iter_init` finds, then the ones `joy_dev_iter_next` finds. */
  function Yielded(env: Env, root: string): (ds: seq<DevInfo>)
    requires EnvOk(env)
  {
    if root !in env.dirs then []
    else
      var s := First(env, root, env.dirs[root]);
      if s.valid then [s.device] + Following(env, root, s.rest) else []
  }

  /** Each yielded record is a well-formed probe of a joystick node under the root. */
  predicate YieldedRecord(env: Env, root: string, d: DevInfo)
  {
    && WellFormed(d) && IsJoystickNode(env, d.path) && Opens(env, d.path)
    && TrimSlash(root) + "/" <= d.path
    && d == Probe(d.path, env.nodes[d.path].dev.value)
  }

  lemma ProbeAtEntry(env: Env, root: string, name: string)
    requires root != ""
    requires Yields(env, JoinPath(root, name))
    ensures YieldedRecord(env, root, Probe(JoinPath(root, name), env.nodes[JoinPath(root, name)].dev.value))
  {
    var p := JoinPath(root, name);
    JoinPathLayout(root, name);
    ProbeWellFormed(p, env.nodes[p].dev.value);
  }

  lemma {:induction false} FollowingAreJoysticks(env: Env, root: string, entries: seq<string>)
    requires root != ""
    ensures forall d :: d in Following(env, root, entries) ==> YieldedRecord(env, root, d)
    decreases |entries|
  {
    var s := Advance(env, root, entries);
    if s.valid {
      AdvanceFinds(env, root, entries);
      var k := StopIndex(entries, s);
      ProbeAtEntry(env, root, entries[k]);
      FollowingAreJoysticks(env, root, s.rest);
    }
  }

  lemma {:induction false} FirstFinds(env: Env, root: string, entries: seq<string>)
    requires root != ""
    ensures var s := First(env, root, entries);
      s.valid ==> YieldedRecord(env, root, s.device)
    decreases |entries|
  {
    if entries != [] {
      var p := JoinPath(root, entries[0]);
      if Yields(env, p) {
        ProbeAtEntry(env, root, entries[0]);
      } else {
        FirstFinds(env, root, entries[1..]);
      }
    }
  }

  /** The iterator yields only opened joystick nodes under its root, each with its probed record. */
  lemma YieldedAreJoysticks(env: Env, root: string)
    requires EnvOk(env)
    ensures forall d :: d in Yielded(env, root) ==> YieldedRecord(env, root, d)
  {
    if root in env.dirs {
      var s := First(env, root, env.dirs[root]);
      FirstFinds(env, root, env.dirs[root]);
      FollowingAreJoysticks(env, root, s.rest);
    }
  }

  // ---------------------------------------------------------------------
  // The iterator in place

  /** A snapshot of `joy_dev_iter_t`; `dirOpen` stands for a non-NULL `dirp`. */
  datatype IterValue = IterValue(dirOpen: bool, root: string, entries: seq<string>, valid: bool, device: DevInfo)

  /** The state `iter_clear` leaves. */
  const CLEARED_ITER: IterValue := IterValue(false, "", [], false, CLEARED)

  /** `joy_dev_iter_init` as intended: on success the iterator holds the first opened joystick node. */
  function InitSpec(env: Env, path: string): IterValue
    requires EnvOk(env)
  {
    if path !in env.dirs then CLEARED_ITER
    else
      var s := First(env, path, env.dirs[path]);
      IterValue(s.valid, path, s.rest, s.valid, s.device)
  }

  /** `joy_dev_iter_next`: nothing happens on an invalid iterator, else the loop of `Advance`. */
  function NextSpec(env: Env, it: IterValue): IterValue
    requires it.valid ==> it.root != ""
  {
    if !it.valid then it
    else
      var s := Advance(env, it.root, it.entries);
      it.(valid := s.valid, entries := s.rest, device := s.device)
  }

  /** After `joy_dev_iter_init`, the iterator holds the first record yielded, and its entries give the rest. */
  lemma YieldedFromInit(env: Env, path: string)
    requires EnvOk(env)
    ensures var v := InitSpec(env, path);
      Yielded(env, path) == if v.valid then [v.device] + Following(env, path, v.entries) else []
  {
  }

  /** A `joy_dev_iter_next` on a valid iterator moves to the next record yielded, or ends when there is none. */
  lemma FollowingFromNext(env: Env, it: IterValue)
    requires it.valid && it.root != ""
    ensures var n := NextSpec(env, it);
      && n.root == it.root
      && Following(env, it.root, it.entries) == if n.valid then [n.device] + Following(env, n.root, n.entries) else []
  {
  }

  /**
   * `joy_dev_iter_t` with its embedded record held as a value; the record's
   * in-place updates are those of `JoyDevInfo`.
   */
  class DevIter {
    var dirOpen: bool
    var root: string
    var entries: seq<string>
    var valid: bool
    var device: DevInfo

    ghost predicate Valid()
      reads this
    {
      (dirOpen ==> root != "") && (valid ==> dirOpen)
    }

    ghost function Value(): IterValue
      reads this
    {
      IterValue(dirOpen, root, entries, valid, device)
    }

    /** An iterator after `iter_clear`. */
    constructor ()
      ensures Valid() && Value() == CLEARED_ITER
    {
      dirOpen, root, entries, valid, device := false, "", [], false, CLEARED;
    }

    /** `iter_clear` */
    method Clear()
      modifies this
      ensures Valid() && Value() == CLEARED_ITER
    {
      dirOpen, root, entries, valid, device := false, "", [], false, CLEARED;
    }

    /**
     * `iter_get_entry`: clear the record, read the next entry and, if
     * there is one, store the joined path in the record.
     */
    method GetEntry() returns (got: bool)
      requires Valid() && dirOpen
      modifies this
      ensures Valid() && dirOpen == old(dirOpen) && root == old(root) && valid == old(valid)
      ensures got <==> old(entries) != []
      ensures got ==> entries == old(entries)[1..] && device == EntryRecord(JoinPath(root, old(entries)[0]))
      ensures !got ==> entries == [] && device == CLEARED
    {
      device := CLEARED;
      if entries == [] {
        return false;
      }
      device := EntryRecord(JoinPath(root, entries[0]));
      entries := entries[1..];
      return true;
    }

    /**
     * `iter_get_dev_info` on the record `iter_get_entry` left: open the
     * node at its path and, when that succeeds, load the record from it.
     */
    method GetDevInfo(env: Env) returns (ok: bool)
      requires device == EntryRecord(device.path)
      modifies this
      ensures ok <==> Opens(env, old(device).path)
      ensures ok ==> device == Probe(old(device).path, env.nodes[old(device).path].dev.value)
      ensures !ok ==> device == old(device)
      ensures dirOpen == old(dirOpen) && root == old(root) && entries == old(entries) && valid == old(valid)
    {
      if device.path !in env.nodes || env.nodes[device.path].dev.None? {
        return false;
      }
      device := Loaded(device, env.nodes[device.path].dev.value);
      return true;
    }

    /**
     * `joy_dev_iter_init` with the result of `iter_get_dev_info` checked,
     * so that a joystick node that does not open is skipped as
     * `joy_dev_iter_next` skips it.
     */
    method Init(env: Env, path: string) returns (ok: bool)
      requires EnvOk(env)
      modifies this
      ensures Valid() && Value() == InitSpec(env, path) && ok == valid
    {
      Clear();
      if path !in env.dirs {
        return false;
      }
      dirOpen, root, entries := true, path, env.dirs[path];
      ghost var target := First(env, path, env.dirs[path]);
      while true
        invariant Valid() && dirOpen && root == path && !valid
        invariant First(env, root, entries) == target
        decreases |entries|
      {
        ghost var before := entries;
        var got := GetEntry();
        if !got {
          dirOpen, root := false, path;
          return false;
        }
        if IsJoystickNode(env, device.path) {
          var loaded := GetDevInfo(env);
          if loaded {
            break;
          }
        }
        assert entries == before[1..];
      }
      valid, ok := true, true;
    }

    /**
     * One entry of the loop of `joy_dev_iter_next`: read it, stop as
     * invalid when there is none or `stat` fails on it, stop as valid when
     * it is a joystick node that opens, and otherwise go on.
     */
    method Visit(env: Env) returns (stop: bool)
      requires Valid() && valid
      modifies this
      ensures Valid() && root == old(root) && dirOpen
      ensures var s := Advance(env, root, old(entries));
        if stop then valid == s.valid && entries == s.rest && device == s.device
        else valid && |entries| < |old(entries)| && Advance(env, root, entries) == s
    {
      ghost var before := entries;
      valid := GetEntry();
      if !valid {
        return true;
      }
      if device.path !in env.nodes {
        valid := false;
        return true;
      }
      if IsJoystickNode(env, device.path) {
        var loaded := GetDevInfo(env);
        if loaded {
          return true;
        }
      }
      assert entries == before[1..];
      return false;
    }

    /** `joy_dev_iter_next` */
    method Next(env: Env) returns (ok: bool)
      requires Valid()
      modifies this
      ensures Valid() && Value() == NextSpec(env, old(Value())) && ok == valid
    {
      if !valid {
        return false;
      }
      ghost var target := Advance(env, root, entries);
      var stop := false;
      while !stop
        invariant Valid() && root == old(root) && dirOpen
        invariant !stop ==> valid && Advance(env, root, entries) == target
        invariant stop ==> valid == target.valid && entries == target.rest && device == target.device
        decreases |entries|, if stop then 0 else 1
      {
        stop := Visit(env);
      }
      return valid;
    }

    /** `joy_dev_iter_get_device_info`: the record, only while the iterator is valid. */
    method GetDeviceInfo() returns (r: Option<DevInfo>)
      ensures r.Some? <==> valid
      ensures r.Some? ==> r.value == device
    {
      r := if valid then Some(device) else None;
    }

    /** `joy_dev_iter_free`: release root, directory and record, and clear the iterator. */
    method Free()
      modifies this
      ensures Valid() && Value() == CLEARED_ITER
    {
      Clear();
    }
  }
}
