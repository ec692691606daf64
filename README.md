# evdev joystick test: a Dafny model of device discovery and event polling

This project models the core of a small Linux joystick test tool built on
libevdev. The tool does two things:

- it walks `/dev/input/by-id`, opens every node whose name ends in
  `-event-joystick`, and builds a descriptor for it: name, bus/vendor/
  product/version, a 16-byte SDL-style GUID and its hex string, and the
  button, axis and hat code maps;
- it polls the selected device and routes each key or absolute-axis event
  to the row of the button or axis it belongs to.

The model follows the C sources file by file:

| file | module | models |
|---|---|---|
| `codes.dfy` | `JoyCodes` | the button/axis/hat name tables and the early-break lookups `joy_get_*_name` |
| `guid.dfy` | `JoyGuid` | `dev_info_generate_guid` and `dev_info_generate_guid_str`, with the decoding partners they are proved against |
| `device.dfy` | `JoyDevice` | `joy_dev_info_t` as the class `JoyDevInfo` over arrays; clearing, the button and axis/hat scans, `joy_dev_info_dup` |
| `iter.dfy` | `JoyIter` | the directory iterator `joy_dev_iter_t` as the class `DevIter`; path joining, the udev suffix filter, `init`/`next`/`get_device_info`/`free` |
| `events.dfy` | `EventWidget` | `poll_state_t` as the class `PollState`; `update_button`, `update_axis`, `event_widget_update`, `start_poll`, `stop_poll`, `set_device`, and the `poll_worker` loop |
| `devicelist.dfy` | `DeviceListWidget` | the ", "-joined name lists, the "N (names)"/"None" summary rows, the GUID row, and `device_list_scan_devices` |

Collaborators the code calls but does not define become values:

- the filesystem is an `Env`: directory listings, plus a node per path with
  its file type and, if it opens as an evdev device, an `Evdev` value;
- a libevdev device is an `Evdev`: name, id fields as plain integers (the
  model truncates them to 16 bits as the casts do), and supported `EV_KEY`
  and `EV_ABS` code sets;
- the worker thread's interaction with libevdev and with `stop_poll` is a
  script of `Item`s: an idle tick, possibly with a stop request, or one
  read with its status and event.

Each state-changing C function is a method whose `ensures` ties the new
state to a specification function of the old state. The promises the
source makes are proved as lemmas about those functions.

Where the code departs from what its declarations and names suggest, the
model follows the code:

- `axis_map` and `hat_map` are declared `uint16_t *` (src/joystick.h:38-39)
  but are used as records with a `.code` field (src/event-widget.c:292,
  src/device-list-widget.c:26). The model gives them records `AbsInfo(code)`.
- `iter_has_evdev_joystick` rejects a node when `st_mode & S_IFDIR` is set.
  That bit is also set for block devices and sockets, so those are
  rejected too (`JoyIter.DirBitTypes`).
- A node that disappears between `readdir` and `stat` is skipped while
  `joy_dev_iter_init` searches, but it ends the iteration in
  `joy_dev_iter_next` (`JoyIter.AdvanceStops`, `JoyIter.FirstIsAdvance`).

The exceptions are the six defects listed under Findings. For those, the
classes and their specification functions take the corrected behaviour,
and separate as-written members model the code beside them:

- the GUID string (`JoyDevInfo.GenerateGuidStr`, `Probe`) uses the high
  nibble, where src/joystick.c:291 shifts by 8 (as written:
  `JoyGuid.HexStringAsWritten`);
- the button scan (`JoyDevInfo.ScanButtons`) counts and fills the range
  `[BTN_JOYSTICK, KEY_MAX)`, where the code counts from `BTN_MISC` and
  allocates nothing (as written: `JoyDevice.ButtonScanAsWritten`);
- the button names, and with them the "buttons" summary row
  (`ButtonNameList`), use the table with BTN_0..BTN_9 in place of the
  repeated rows at src/joystick.c:51-55 (as written:
  `JoyCodes.ButtonNameAsWritten`);
- the duplicate (`Copied`, `JoyDevInfo.Dup`) allocates room for the
  2*num_hats hat entries it copies (as written: `JoyDevice.HatCopyAsWritten`);
- the button and axis updates (`FirstRow`, `PollState.UpdateButton`,
  `PollState.UpdateAxis`) stop at the row count, where
  src/event-widget.c:268 and :291 do not (as written:
  `EventWidget.MatchAsWritten`);
- the iterator's `init` (`DevIter.Init`) skips a node that does not open,
  where src/joystick.c:510 reports it (as written: `JoyIter.FirstAsWritten`).

## Model

| member | source | states |
|---|---|---|
| JoyCodes.HatCodesAreHatAxes | src/joystick.c:336-339 | a code passes `is_hat_code` exactly when it is the X or Y axis of one of hats 0-3 |
| JoyCodes.FirstIndex | src/joystick.c:146-158 | the index it returns holds the code and no earlier entry does; no index means no entry holds the code |
| JoyCodes.LookupSound | src/joystick.c:146-158 | the early-break lookup answers either "<?>" or the name of the first entry holding the code, on any table |
| JoyCodes.LookupComplete | src/joystick.c:146-158 | on a strictly ascending table, the early break loses nothing: the lookup gives the first entry's name, and "<?>" only when no entry holds the code |
| JoyCodes.LookupSkip | src/joystick.c:150-156 | entries with smaller codes are stepped over without changing the answer |
| JoyCodes.ButtonNamesAscending | src/joystick.c:49-90 | the button table, with BTN_0..BTN_9 in place, is strictly ascending by code |
| JoyCodes.AxisNamesAscending | src/joystick.c:93-121 | the axis table is strictly ascending by code |
| JoyCodes.HatNamesAscending | src/joystick.c:127-136 | the hat table is strictly ascending by code |
| JoyCodes.AscendingFirstIndex | src/joystick.c:146-158 | in an ascending table, every entry is found at its own index |
| JoyCodes.AxisName | src/joystick.c:146-158 | `joy_get_axis_name` equals a plain first-match search of the axis table, "<?>" when absent |
| JoyCodes.ButtonName | src/joystick.c:167-179 | `joy_get_button_name` on the corrected table equals a plain first-match search, "<?>" when absent |
| JoyCodes.HatName | src/joystick.c:188-200 | `joy_get_hat_name` equals a plain first-match search of the hat table, "<?>" when absent |
| JoyCodes.ButtonNameAsWritten | src/joystick.c:167-179 | with the table as written, the lookup gives "<?>" or the first-match name of that table |
| JoyCodes.ButtonNamesAsWrittenMissBtn2To9 | src/joystick.c:51-55 | with the table as written, BTN_2..BTN_9 are named "<?>", while the corrected table names them "Btn2".."Btn9" |
| JoyCodes.HatNamesCoverHatBlock | src/joystick.c:127-136 | a code has a hat name exactly when it is a hat code |
| JoyCodes.HatCodesHaveAxisNames | src/joystick.c:93-121 | every hat code also has a name in the axis table |
| JoyGuid.Guid | src/joystick.c:250-276 | the GUID is 16 bytes |
| JoyGuid.GuidLayout | src/joystick.c:250-276 | bytes 0, 4, 8 and 12 hold bustype, vendor, product and version little-endian; all other bytes are zero |
| JoyGuid.GuidRoundTrip | src/joystick.c:250-276 | reading the four little-endian fields back gives the identity the GUID was built from |
| JoyGuid.GuidInjective | src/joystick.c:250-276 | equal GUIDs come only from equal identity fields |
| JoyGuid.HexDigitsDecode | src/joystick.c:287 | each of the 16 digit characters decodes to its own index |
| JoyGuid.HexString | src/joystick.c:285-295 | two characters per byte: the digit of the high nibble, then the digit of the low nibble |
| JoyGuid.HexRoundTrip | src/joystick.c:285-295 | the string is lower-case hex and decodes back to the bytes it was made from |
| JoyGuid.HexStringAsWritten | src/joystick.c:290-293 | as written (`>> 8` on a byte), the first character of every pair is '0' |
| JoyGuid.HexAsWrittenLosesHighNibbles | src/joystick.c:291 | the string as written decodes back to the bytes exactly when every byte is below 16 |
| JoyGuid.HexAsWrittenKeepsLowBytes | src/joystick.c:291-292 | bytes below 16 survive the string as written |
| JoyGuid.XboxPadGuid | src/joystick.c:250-276 | the GUID of bus 3, vendor 0x045e, product 0x028e, version 0x0110, byte by byte |
| JoyGuid.XboxPadGuidString | src/joystick.c:285-295 | its corrected string is "030000005e0400008e02000010010000" |
| JoyGuid.XboxPadGuidStringAsWritten | src/joystick.c:291 | its string as written is "030000000e0400000e02000000010000" |
| JoyDevice.Trunc16 | src/joystick.c:472-475 | the `(uint16_t)` cast keeps the value modulo 2^16 |
| JoyDevice.ScanMembers | src/joystick.c:370-386 | a scan holds exactly the supported codes of its range and kind |
| JoyDevice.ScanIncreasing | src/joystick.c:370-386 | a scan is strictly ascending, so it has no duplicates |
| JoyDevice.ScanBound | src/joystick.c:312-316 | a scan is no longer than its range |
| JoyDevice.ScanPartition | src/joystick.c:350-358 | the axis count plus the hat-axis count is the count of all supported absolute codes: each code is exactly one of the two |
| JoyDevice.ButtonCodes | src/joystick.c:324-326 | the button codes fit the range [BTN_JOYSTICK, KEY_MAX), so the 16-bit count is exact |
| JoyDevice.AxisCodes | src/joystick.c:362 | the axis codes fit below ABS_RESERVED, so the 16-bit count is exact |
| JoyDevice.HatCodes | src/joystick.c:363 | the hat codes fit below ABS_RESERVED, so the 16-bit count is exact |
| JoyDevice.CountScan | src/joystick.c:312-316 | the counting loop returns the length of the scan |
| JoyDevice.FillScan | src/joystick.c:324-326 | the filling loop leaves the array equal to the scan |
| JoyDevice.CountAxesAndHats | src/joystick.c:350-358 | the single counting loop returns the number of axis codes and of hat codes |
| JoyDevice.FillAxesAndHats | src/joystick.c:368-386 | the single filling loop leaves the axis map and the hat map equal to their scans |
| JoyDevice.ProbeWellFormed | src/joystick.c:448-487 | an opened device yields a record with consistent counts, its path and name, truncated id fields, and a GUID and string that read back to them |
| JoyDevice.ProbeFields | src/joystick.c:469-475 | the record takes the device's name and the truncated id fields |
| JoyDevice.ProbeGuid | src/joystick.c:478-479 | the record's GUID reads back to its id fields; its string is the hex of the GUID plus a NUL |
| JoyDevice.ProbeUnsupportedTypes | src/joystick.c:304-343 | without EV_KEY there are no buttons; without EV_ABS there are no axes or hats |
| JoyDevice.Copied | src/joystick.c:567-609 | the duplicate equals the original in every field but the hat map: path, name, GUID bytes and string, identity fields, counts, button and axis maps; its hat map is the first 2*num_hats entries of the original's |
| JoyDevice.CopiedExact | src/joystick.c:602-606 | the duplicate equals the original exactly when the hat-axis count is even |
| JoyDevice.ButtonScanAsWritten | src/joystick.c:312-326 | as written, the codes stored are exactly the corrected button map, the count recorded is never below their number, and zero slots are allocated for them |
| JoyDevice.ButtonScanAsWrittenOverflows | src/joystick.c:322-326 | as written, the fill overruns the allocation exactly when some joystick-range button exists, and the count is wrong exactly when some BTN_MISC-range button exists |
| JoyDevice.HatCopyAsWritten | src/joystick.c:602-606 | as written, the hat loop copies as many entries as the intended copy holds, 2*num_hats; the allocation it is compared with is num_hats |
| JoyDevice.HatCopyAsWrittenOverflows | src/joystick.c:603-605 | as written, the hat copy overruns exactly when the device has a hat |
| JoyDevice.Fill | src/joystick.c:211-212 | `memset`: every entry becomes the fill value |
| JoyDevice.CopyPrefix | src/joystick.c:590-601 | a fresh array holding the first n entries |
| JoyDevice.CopyMap | src/joystick.c:602-606 | a fresh array holding the first n entries |
| JoyDevice.JoyDevInfo.constructor | src/joystick.c:207-227 | a new record is the cleared record |
| JoyDevice.JoyDevInfo.Clear | src/joystick.c:207-227 | the record becomes the cleared one: empty strings and maps, zeroed GUID bytes, string and counts |
| JoyDevice.JoyDevInfo.SetIdentity | src/joystick.c:469-475 | name set and id fields truncated to 16 bits; nothing else changes |
| JoyDevice.JoyDevInfo.GenerateGuid | src/joystick.c:250-276 | the GUID array becomes the GUID of the id fields; nothing else changes |
| JoyDevice.JoyDevInfo.GenerateGuidStr | src/joystick.c:285-295 | the string array becomes the hex of the GUID plus a NUL; nothing else changes |
| JoyDevice.JoyDevInfo.ScanButtons | src/joystick.c:302-334 | with EV_KEY, count and map become the supported joystick-range buttons; otherwise nothing changes |
| JoyDevice.JoyDevInfo.ScanAxesAndHats | src/joystick.c:341-388 | with EV_ABS, axes and hats are split by code, hats counted as pairs; otherwise nothing changes |
| JoyDevice.JoyDevInfo.Load | src/joystick.c:469-482 | the record becomes the loaded record of the device |
| JoyDevice.JoyDevInfo.Copy | src/joystick.c:572-588 | the new record holds exactly the given fields and map contents |
| JoyDevice.JoyDevInfo.Dup | src/joystick.c:567-609 | a fresh record, sharing no array with the original, whose value is the corrected copy |
| JoyIter.DirBitTypes | src/joystick.c:433 | the S_IFDIR bit test rejects directories, block devices and sockets, and only those |
| JoyIter.JoinPathLayout | src/joystick.c:416-423 | the path is the root without a trailing '/', a '/', then the entry name |
| JoyIter.JoinIgnoresTrailingSlash | src/joystick.c:418-423 | a root with or without a trailing '/' gives the same path |
| JoyIter.UdevSuffixStem | src/joystick.c:434-439 | a path passes the suffix test exactly when it is a non-empty stem followed by "-event-joystick" |
| JoyIter.UdevSuffixExamples | src/joystick.c:32 | the bare suffix fails, a joystick link passes, a keyboard link fails |
| JoyIter.FirstAsWritten | src/joystick.c:503-513 | a successful search consumes at least one entry |
| JoyIter.AdvanceFinds | src/joystick.c:539-556 | when `next` succeeds, it yields the probe of the first entry after which every skipped entry existed and was not an openable joystick |
| JoyIter.AdvanceStops | src/joystick.c:542-550 | when `next` fails, the listing ran out (the record cleared) or an entry's stat failed (the record holds that entry's path) |
| JoyIter.AdvanceExhausts | src/joystick.c:542-545 | when no entry is an openable joystick and all exist, `next` runs out with a cleared record |
| JoyIter.FirstIsAdvance | src/joystick.c:503-513 | when every entry exists, the corrected search of `init` and the loop of `next` agree |
| JoyIter.FirstAsWrittenYieldsUnopened | src/joystick.c:509-514 | as written, `init` reports a node that does not open as a valid device; the corrected search does not |
| JoyIter.FollowingAreJoysticks | src/joystick.c:551-553 | every record `next` yields is the probe of a joystick node under the root |
| JoyIter.FirstFinds | src/joystick.c:503-513 | the record the corrected `init` yields is the probe of a joystick node under the root |
| JoyIter.YieldedAreJoysticks | src/joystick.c:491-558 | every record of a whole iteration is the probe of a joystick node under the root |
| JoyIter.YieldedFromInit | src/joystick.c:491-517 | the iteration is the record of `init`, then what `next` yields, or nothing when `init` fails |
| JoyIter.FollowingFromNext | src/joystick.c:533-558 | one call of `next` peels the first remaining record off the iteration |
| JoyIter.DevIter.constructor | src/joystick.c:391-397 | a new iterator is the cleared iterator |
| JoyIter.DevIter.Clear | src/joystick.c:391-397 | the iterator becomes the cleared iterator |
| JoyIter.DevIter.GetEntry | src/joystick.c:399-425 | an entry is read exactly when one is left; the record is cleared and holds the joined path, or is cleared when none is left |
| JoyIter.DevIter.GetDevInfo | src/joystick.c:448-487 | succeeds exactly when the node opens as an evdev device, and then the record is its probe; otherwise nothing changes |
| JoyIter.DevIter.Init | src/joystick.c:491-517 | the iterator state is the corrected `init` of the directory listing, and the result is the valid flag |
| JoyIter.DevIter.Visit | src/joystick.c:540-555 | one pass of `next`'s loop: either it stops with the state `next` ends in, or it consumes an entry and leaves the remaining search unchanged |
| JoyIter.DevIter.Next | src/joystick.c:533-558 | the iterator state is `next` applied to the old state, and the result is the valid flag |
| JoyIter.DevIter.GetDeviceInfo | src/joystick.c:561-564 | a record exactly when the iterator is valid, and then the current one |
| JoyIter.DevIter.Free | src/joystick.c:520-529 | the iterator becomes the cleared iterator |
| EventWidget.FirstRow | src/event-widget.c:268-279 | the row found holds the code within the row count, and no earlier row from the start does |
| EventWidget.FirstRowIsFirstMatch | src/event-widget.c:268-279 | the row found is the first matching row; none is found exactly when no row matches |
| EventWidget.RowsCoverCodes | src/event-widget.c:268-279 | with one row per map entry, a row is found exactly when the code is in the map |
| EventWidget.UpdatedRecordsEvent | src/event-widget.c:311-328 | every event becomes the previous type/code/value; other event types, or no device, leave the widgets alone |
| EventWidget.UpdatedButton | src/event-widget.c:259-280 | a key event sets the first button row with its code to the value; no other row and no axis changes |
| EventWidget.UpdatedAxis | src/event-widget.c:282-303 | an absolute event sets the first axis row with its code to the value; no other row and no button changes |
| EventWidget.MatchAsWrittenOverruns | src/event-widget.c:268-269 | as written, with a non-zero count, the loop finds the same row as the corrected search, or else reads past the end of the map |
| EventWidget.MatchAsWrittenReadsPastMap | src/event-widget.c:268-269 | a one-button device receiving an unknown key code reads `button_map[1]` |
| EventWidget.DrainSkips | src/event-widget.c:403-407 | during resynchronisation, reads are consumed without touching the widgets until a non-SYNC status |
| EventWidget.SyncReadIsDrained | src/event-widget.c:400-412 | a SYNC read starts a drain that ends at the first non-SYNC status, which then decides whether polling goes on |
| EventWidget.FailedReadEnds | src/event-widget.c:416-418 | a status other than SYNC, SUCCESS or -EAGAIN ends the worker with the state unchanged |
| EventWidget.RunWithoutSuccessKeepsWidgets | src/event-widget.c:409-411 | without a successful read, no widget and no previous-event field changes |
| EventWidget.RunOutcome | src/event-widget.c:359-428 | the worker never changes the device or starts polling; it ends cancelled only when a stop was pending or requested, and then clears the request |
| EventWidget.StopEndsAtIdle | src/event-widget.c:384-398 | after `stop_poll`, the next idle tick ends the worker and clears the request |
| EventWidget.PollState.constructor | src/event-widget.c:68-76 | the initial poll state: no thread, no device, no request, previous event -1/-1/-1 |
| EventWidget.PollState.UpdateButton | src/event-widget.c:259-280 | only the button rows change, as the corrected search dictates |
| EventWidget.PollState.UpdateAxis | src/event-widget.c:282-303 | only the axis rows change, as the corrected search dictates |
| EventWidget.PollState.Update | src/event-widget.c:311-328 | the poll state becomes the updated state of the event |
| EventWidget.PollState.StartPoll | src/event-widget.c:435-449 | when idle, polling starts on the device with the request cleared; otherwise nothing changes |
| EventWidget.PollState.StopPoll | src/event-widget.c:454-460 | the stop request is set and the thread marked gone |
| EventWidget.PollState.SetDevice | src/event-widget.c:213-252 | one released button per button code and one zero axis per axis, then polling starts |
| EventWidget.PollState.PollWorker | src/event-widget.c:380-418 | the loop's final state and outcome are those of the worker's specification on the script |
| DeviceListWidget.JoinFront | src/device-list-widget.c:42-47 | a joined list is its first name, ", ", then the join of the rest |
| DeviceListWidget.JoinEdges | src/device-list-widget.c:42-47 | a joined list starts with its first name and ends with its last |
| DeviceListWidget.ButtonNames | src/device-list-widget.c:36-49 | the button names of the map, in order, separated by ", " |
| DeviceListWidget.AxisNames | src/device-list-widget.c:19-34 | the axis names of the map, in order, separated by ", " |
| DeviceListWidget.HatNames | src/device-list-widget.c:51-67 | the name of the X axis of each hat, in order, separated by ", " |
| DeviceListWidget.DecimalRoundTrip | src/device-list-widget.c:103 | "%u" prints a non-empty digit string without leading zeros that reads back to the count |
| DeviceListWidget.SummaryCount | src/device-list-widget.c:99-109 | "None" exactly when the count is zero; otherwise the count read back, then " (", the names, ")" |
| DeviceListWidget.CString | src/device-list-widget.c:95 | the text shown is the prefix of the buffer before its first NUL |
| DeviceListWidget.CStringTerminated | src/joystick.c:294 | a NUL-terminated string shows as itself |
| DeviceListWidget.GuidRowOfProbe | src/device-list-widget.c:95 | the GUID row of a probed device is the 32-digit hex of its GUID, and decodes back to it |
| DeviceListWidget.InnerRows | src/device-list-widget.c:94-133 | the five rows: GUID, device node, and buttons, axes and hats as summaries of their name lists |
| DeviceListWidget.YieldedWellFormed | src/joystick.c:491-558 | every record of an iteration has consistent counts, so it can be copied and shown |
| DeviceListWidget.DeviceList.Clear | src/device-list-widget.c:233-242 | the list becomes empty |
| DeviceListWidget.DeviceList.ScanDevices | src/device-list-widget.c:251-273 | the count is the number of joysticks the iteration yields, and the list holds a copy of each, in order |

## Left out

- GTK widgets, layout, grids, labels, the hat grid and `on_expander_expanded`: presentation only. A button or axis widget is modelled as one integer row in `PollState`.
- Threads and the mutex: the worker is one sequential loop over a script of idle ticks and reads. The race where `start_poll` right after `stop_poll` clears the request before the old worker has seen it is not modelled.
- `poll_worker`'s opening of the device and `libevdev_new_from_fd` at src/event-widget.c:366-376: a failure there only returns; the model starts at the polling loop.
- The sleep and yield in the idle loop, `print_event`, `printf`, `fprintf` and `app_window_message`: output and timing only.
- `opendir`, `readdir`, `stat`, `open` and libevdev are values (`Env`, `Evdev`); `errno` and the messages are left out.
- `lib_malloc`, `lib_calloc` and `lib_strdup` are treated as total. `lib_free`, `dev_info_free_data`, `joy_dev_info_free` and `closedir` have no counterpart, because Dafny memory is not freed by hand.
- The iterator's current record is held as a `DevInfo` value, not as a `JoyDevInfo` object, so `joy_dev_iter_get_device_info` returns a copy rather than the address of the iterator's own record.
- PollState.StartPoll: the worker thread is a flag; a worker that ends on a read error leaves the flag set, as the code leaves `thread` non-NULL, so a later `start_poll` does nothing.
- `on_expander_destroy` (src/device-list-widget.c:151-154) frees each row's copy when the row goes away; `DeviceList.Clear` only empties the list, as ownership is not modelled.
- `NULL` strings and maps are modelled as empty strings and empty maps.
- The stable sort of the registry and hot-plug are not in the code and are not modelled.

## Findings

| source | as written | input that shows it | evidently intended | confidence | as-written member | corrected member |
|---|---|---|---|---|---|---|
| src/joystick.c:291 | the high digit is `digits[guid[i] >> 8]`, always '0' for a byte | bus 3, vendor 0x045e, product 0x028e, version 0x0110 gives "030000000e0400000e02000000010000" | `>> 4`, giving "030000005e0400008e02000010010000" | high, not executed | JoyGuid.HexStringAsWritten, JoyGuid.HexAsWrittenLosesHighNibbles, JoyGuid.XboxPadGuidStringAsWritten | JoyGuid.HexString, JoyGuid.HexRoundTrip, JoyGuid.XboxPadGuidString |
| src/joystick.c:312-326 | counts buttons from BTN_MISC, resets the counter, allocates zero slots, then stores every button from BTN_JOYSTICK | any device with one key code in [BTN_JOYSTICK, KEY_MAX), e.g. BTN_TRIGGER | allocate for the count of the range that is filled, and record that count | high, not executed | JoyDevice.ButtonScanAsWritten, JoyDevice.ButtonScanAsWrittenOverflows | JoyDevice.JoyDevInfo.ScanButtons |
| src/joystick.c:602-606 | allocates `num_hats` entries and copies `num_hats * 2` | any device with one hat (two hat axes) | allocate `num_hats * 2` entries | high, not executed | JoyDevice.HatCopyAsWritten, JoyDevice.HatCopyAsWrittenOverflows | JoyDevice.Copied, JoyDevice.JoyDevInfo.Dup |
| src/event-widget.c:268, src/event-widget.c:291 | the loop condition is `dev->num_buttons` (`dev->num_axes`), never false once non-zero | a one-button device with map [0x120] receiving key 0x121 reads `button_map[1]` | `b < dev->num_buttons` (`i < dev->num_axes`) | high, not executed | EventWidget.MatchAsWrittenOverruns, EventWidget.MatchAsWrittenReadsPastMap | EventWidget.FirstRow, EventWidget.PollState.UpdateButton, EventWidget.PollState.UpdateAxis |
| src/joystick.c:51-55 | the BTN_MISC rows repeat BTN_0 and BTN_1 five times | code 0x102 (BTN_2) is named "<?>" | BTN_0 .. BTN_9 named "Btn0" .. "Btn9" | high, not executed | JoyCodes.ButtonNameAsWritten, JoyCodes.ButtonNamesAsWrittenMissBtn2To9 | JoyCodes.ButtonName, JoyCodes.ButtonNamesAscending |
| src/joystick.c:510 | the result of `iter_get_dev_info` is ignored, and the iterator is marked valid | a directory with one "pad-event-joystick" character device that does not open | skip the node, as `joy_dev_iter_next` does at src/joystick.c:552 | medium, not executed | JoyIter.FirstAsWritten, JoyIter.FirstAsWrittenYieldsUnopened | JoyIter.FirstFinds, JoyIter.DevIter.Init |
