# micro:bit More / Maqueen driver, modelled in Dafny

This project models the Scratch 3 extension that drives a DFRobot Maqueen
robot through a BBC micro:bit running the "micro:bit More" firmware over
Bluetooth Low Energy. It covers two classes of
`scratch-vm/src/extensions/scratch3_scratch2maqueen/index.js`.

- `MicroBitMore` is the peripheral driver. It holds the sensor cache
  (`_sensors`), the `_busy` send gate with its 5000 ms release timer, and the
  4500 ms data-stopped watchdog. It frames outbound commands (one command
  byte followed by the payload). It also decodes the 20-byte telemetry
  notifications: byte 19 picks one of three record shapes, and bytes 10..18
  hold little-endian 16-bit fields. It also covers `setSlotValue`, which
  writes a 16-bit slot value to the robot and caches it.
- `Scratch3Scratch2MaqueenBlocks` holds the blocks built on the driver.
  - `displaySymbol` packs a 25-cell '0'/'1' pattern into five 5-bit rows.
  - `displayText` truncates to 19 characters and paces the script by the
    scroll time.
  - `splitToBools` and `joinBools` split slot 3 into four flags and join
    them back. The flags are the left LED, the right LED and the two
    line-patrol sensors.
  - The rest are the LED, patrol, motor, distance, button and acceleration
    blocks.

The modules follow the program's structure:

- `Bytes`: the `Uint8Array` and `DataView` view of numbers: bytes, uint16 and
  int16 little-endian fields, ToInt16, and bits.
- `Protocol`: the command bytes and the outbound frame.
- `Telemetry`: the inbound frame and its three record shapes.
- `Sensors`: the cache and how one frame updates it, plus the `gpio` and
  `analogIn` tables.
- `SendGate`: the `_busy` flag as a state machine over three events: send,
  write completion, and release-timer expiry.
- `Watchdog`: `_timeoutID` as a state machine over arm, clear and fire.
- `Driver`: `MicroBitMore` as a whole, stepped by calls and callbacks.
- `Blocks`: the blocks.

The model shows the following behaviour of the code as written:

- `reset` (and so `disconnect`) cancels only the watchdog. The sensor cache
  and the busy flag survive a disconnect.
- The completion handler of a write clears whichever release timer is current
  when it runs. So if one write times out and a newer send is accepted, the
  old write's completion also releases the newer send.
- `_onConnect` arms the watchdog without clearing an older one.
- `setSlotValue` caches the value even when the gate dropped the write.

A disconnect leaves the cache and the gate as they were. Framing accepts a
payload of any length. Decoding reads fixed offsets up to byte 19 and has no
length check of its own.

## Model

| member | source | states |
|---|---|---|
| `Bytes.I16` | scratch-vm/src/extensions/scratch3_scratch2maqueen/index.js:378-381 | `getInt16` reads two bytes as a value in [-32768, 32767]. That value is congruent modulo 2^16 to the uint16 reading of the same bytes. It is negative exactly when the high byte has its top bit set. |
| `Bytes.ToInt16` | scratch-vm/src/extensions/scratch3_scratch2maqueen/index.js:412-413 | The wrap `setInt16` applies lands in [-32768, 32767] and is congruent to the input modulo 2^16. It is the identity on values already in range. |
| `Bytes.I16RoundTrip` | scratch-vm/src/extensions/scratch3_scratch2maqueen/index.js:411-418 | Writing `v` with `setInt16` and reading the two bytes back with `getInt16` gives ToInt16(`v`), which is `v` itself when `v` is in range. |
| `Bytes.U16RoundTrip` | scratch-vm/src/extensions/scratch3_scratch2maqueen/index.js:344-352 | Writing a value in [0, 65535] as uint16 and reading its two bytes back gives the value. |
| `Bytes.I16Bytes` | scratch-vm/src/extensions/scratch3_scratch2maqueen/index.js:378-381 | Re-encoding a decoded int16 gives back the same two bytes. |
| `Bytes.U16Bytes` | scratch-vm/src/extensions/scratch3_scratch2maqueen/index.js:371-374 | Re-encoding a decoded uint16 gives back the same two bytes. |
| `Bytes.BitOfField5` | scratch-vm/src/extensions/scratch3_scratch2maqueen/index.js:839-843 | Bit `j` of the 5-bit field `(x >> a) & 0x1F` is bit `a + j` of `x`. |
| `Protocol.Frame` | scratch-vm/src/extensions/scratch3_scratch2maqueen/index.js:318-322 | The frame is one byte longer than the message. Byte 0 is the command and byte `i + 1` is message byte `i`. |
| `Protocol.UnframeFrame` | scratch-vm/src/extensions/scratch3_scratch2maqueen/index.js:318-322 | The peripheral splits a frame back into exactly the command and message that were framed. |
| `Protocol.FrameUnframe` | scratch-vm/src/extensions/scratch3_scratch2maqueen/index.js:318-322 | Every non-empty frame is the framing of the command and payload it carries. |
| `Telemetry.Decode` | scratch-vm/src/extensions/scratch3_scratch2maqueen/index.js:365-391 | The buttons are bytes 4 and 5. Byte 19 equal to 0x01, 0x02 or 0x03 selects the environment, slots or inertial shape, in both directions. Any other value is kept as an unrecognised kind. Every decoded 16-bit field lies in its uint16 or int16 range. |
| `Telemetry.DecodeEncode` | scratch-vm/src/extensions/scratch3_scratch2maqueen/index.js:365-391 | Any well-formed report, encoded with the field offsets the decoder reads, decodes back to itself. |
| `Telemetry.DecodeReadsOnlyFields` | scratch-vm/src/extensions/scratch3_scratch2maqueen/index.js:365-391 | Frames that agree on bytes 4, 5 and 10..19 decode alike, since no other byte is read. |
| `Sensors.Initial` | scratch-vm/src/extensions/scratch3_scratch2maqueen/index.js:103-125 | The constructor's cache has five zero matrix rows, four zero slots, zero buttons, light level and heading. Every `analogIn` and `gpio` pin reads 0. Magnetic strength and all three accelerations are absent. |
| `Sensors.DemuxPins` | scratch-vm/src/extensions/scratch3_scratch2maqueen/index.js:382-385 | Pin `gpio[j]` receives bit `j` of the packed byte, and the set of digital pins is unchanged. |
| `Sensors.PackDemux` | scratch-vm/src/extensions/scratch3_scratch2maqueen/index.js:382-385 | Folding the demultiplexed pins back, with `gpio[i]` as bit `i`, gives the packed byte back. So no pin level is lost or misplaced. |
| `Sensors.OnMessage` | scratch-vm/src/extensions/scratch3_scratch2maqueen/index.js:365-392 | The buttons always come from bytes 4 and 5. Shape 0x01 sets analog pins 0..2, the heading and the light level. Shape 0x02 sets the four int16 slots and the eight digital pins. Shape 0x03 sets the magnetic strength and the three accelerations. Each shape leaves the other shapes' fields unchanged. An unknown shape changes only the buttons. |
| `Sensors.MergeEnvironmentThenSlots` | scratch-vm/src/extensions/scratch3_scratch2maqueen/index.js:370-386 | Environment and slots frames touch disjoint fields. Whichever order they arrive in, each keeps what the other set. |
| `Sensors.OnMessageKeepsDigitalBits` | scratch-vm/src/extensions/scratch3_scratch2maqueen/index.js:382-385 | Every digital pin reads 0 or 1 in the initial cache and after every frame. |
| `Sensors.MilliG` | scratch-vm/src/extensions/scratch3_scratch2maqueen/index.js:218-234 | An acceleration getter returns `1000 * raw / 1024` milli-g. Before the first inertial frame the raw value is undefined and the getter gives NaN. |
| `SendGate.SendFrame` | scratch-vm/src/extensions/scratch3_scratch2maqueen/index.js:299-322 | When disconnected or busy, a send changes nothing and writes nothing. Otherwise it sets busy, arms a fresh release timer and issues exactly one write, which carries the frame. |
| `SendGate.CompleteWrite` | scratch-vm/src/extensions/scratch3_scratch2maqueen/index.js:325-330 | A completion clears busy and cancels whichever release timer `_busyTimeoutID` currently names. |
| `SendGate.FireTimer` | scratch-vm/src/extensions/scratch3_scratch2maqueen/index.js:314-316 | A pending release timer clears busy. A cleared or already fired timer does nothing. |
| `SendGate.NextPreservesInv` | scratch-vm/src/extensions/scratch3_scratch2maqueen/index.js:299-331 | Whatever happens, busy holds exactly while one release timer is pending, and the latest write is then still in flight. |
| `SendGate.BusyIsReleasable` | scratch-vm/src/extensions/scratch3_scratch2maqueen/index.js:308-316 | A busy gate always has a pending release timer, and firing it clears busy, so the gate never stays closed. |
| `SendGate.RunPreservesInv` | scratch-vm/src/extensions/scratch3_scratch2maqueen/index.js:299-331 | The gate invariant holds after any sequence of sends, completions and timer expiries. |
| `SendGate.SendsWithoutReleaseWriteAtMostOnce` | scratch-vm/src/extensions/scratch3_scratch2maqueen/index.js:300-316 | Without a completion or timeout, any run of sends issues at most one write, and none from a busy gate. Once a write is issued, the gate stays busy. |
| `SendGate.SecondSendDropped` | scratch-vm/src/extensions/scratch3_scratch2maqueen/index.js:301-316 | Of two back-to-back sends, the first is written and the second is dropped without touching the gate. |
| `SendGate.TimeoutReopens` | scratch-vm/src/extensions/scratch3_scratch2maqueen/index.js:310-316 | If a write never completes, its release timer alone lets the next send through. |
| `SendGate.LateCompletionReleasesNewerSend` | scratch-vm/src/extensions/scratch3_scratch2maqueen/index.js:325-330 | A timed-out write that completes after a newer send releases that newer send and cancels its timer. A third send then goes out with two writes outstanding. |
| `Watchdog.Arm` | scratch-vm/src/extensions/scratch3_scratch2maqueen/index.js:339-342 | Arming names a fresh timer in `_timeoutID` and adds it to the pending timers without clearing the old one. |
| `Watchdog.Restart` | scratch-vm/src/extensions/scratch3_scratch2maqueen/index.js:394-399 | From any state: the timer `_timeoutID` named is no longer pending, a fresh one is, and any other pending timer stays pending. From a consistent state exactly one timer is pending afterwards. |
| `Watchdog.Cancel` | scratch-vm/src/extensions/scratch3_scratch2maqueen/index.js:274-279 | From any state: `_timeoutID` becomes null and only the timer it named stops being pending. The watchdog is consistent afterwards exactly when no timer is left, which always holds from a consistent state. |
| `Watchdog.Fire` | scratch-vm/src/extensions/scratch3_scratch2maqueen/index.js:339-342 | A timer reports the link stale exactly when it is still pending, and it is no longer pending afterwards. |
| `Watchdog.StaleAtMostOnce` | scratch-vm/src/extensions/scratch3_scratch2maqueen/index.js:339-342 | A given timer reports stale at most once. |
| `Watchdog.MessageSuppressesStale` | scratch-vm/src/extensions/scratch3_scratch2maqueen/index.js:394-399 | A frame before the deadline stops the pending timer from reporting, and the fresh timer would report. |
| `Watchdog.CancelSilences` | scratch-vm/src/extensions/scratch3_scratch2maqueen/index.js:274-279 | From a consistent watchdog, no timer reports stale after `reset`. |
| `Watchdog.ArmWhilePendingLeaks` | scratch-vm/src/extensions/scratch3_scratch2maqueen/index.js:337-342 | Connecting while a watchdog timer is pending leaves two pending timers, and the orphaned one still reports stale. |
| `Watchdog.LeakedTimerOutlivesReset` | scratch-vm/src/extensions/scratch3_scratch2maqueen/index.js:274-279 | The timer leaked by connecting while one is pending stays pending after `reset` and after a frame, and still reports stale. |
| `Watchdog.ArmWhenQuiet` | scratch-vm/src/extensions/scratch3_scratch2maqueen/index.js:337-342 | Arming from a quiet watchdog leaves a single pending timer, the one `_timeoutID` names. |
| `Driver.Create` | scratch-vm/src/extensions/scratch3_scratch2maqueen/index.js:103-146 | The new driver keeps its invariants, and its watchdog is consistent. The gate is idle and no watchdog timer is pending. The cache is the constructor's initial cache, and the gate and the watchdog are in their initial states. |
| `Driver.Send` | scratch-vm/src/extensions/scratch3_scratch2maqueen/index.js:299-331 | A write goes out exactly when connected and not busy, and it carries the framed message. A dropped send changes nothing at all. The cache and watchdog are never touched. |
| `Driver.TextBytes` | scratch-vm/src/extensions/scratch3_scratch2maqueen/index.js:158-161 | One byte per code unit: the code unit modulo 256, as a `Uint8Array` stores it. |
| `Driver.TextBytesLatin1` | scratch-vm/src/extensions/scratch3_scratch2maqueen/index.js:158-161 | The bytes equal the text exactly when every code unit is below 256. |
| `Driver.TextBytesLossy` | scratch-vm/src/extensions/scratch3_scratch2maqueen/index.js:158-161 | U+3042 and U+0042 are sent as the same byte 0x42. |
| `Driver.DisplayText` | scratch-vm/src/extensions/scratch3_scratch2maqueen/index.js:157-163 | A write happens exactly when connected and the gate is open. It is one byte longer than the text, and the peripheral reads a display-text command with the text's bytes. The cache and the watchdog are unchanged, and a dropped write changes nothing. The gate is untouched when nothing is written. A write leaves it busy, with a fresh release timer and the write in flight, both named by the next send number. |
| `Driver.DisplayMatrix` | scratch-vm/src/extensions/scratch3_scratch2maqueen/index.js:169-171 | A write happens exactly when connected and the gate is open, and the peripheral reads a display-LED command whose payload is the matrix rows. The cache and the watchdog are unchanged, and a dropped write changes nothing. The gate is untouched when nothing is written. A write leaves it busy, with a fresh release timer and the write in flight, both named by the next send number. |
| `Driver.OnConnect` | scratch-vm/src/extensions/scratch3_scratch2maqueen/index.js:337-354 | In any state, connecting adds a fresh watchdog timer to the pending ones without clearing the older one. It sends PWM 0 on pin 0 as the frame `[0x92, 0, 0, 0]` exactly when the gate is open. The watchdog stays consistent when no older timer was pending. The gate is untouched when nothing is written. A write leaves it busy, with a fresh release timer and the write in flight, both named by the next send number. |
| `Driver.OnMessage` | scratch-vm/src/extensions/scratch3_scratch2maqueen/index.js:361-400 | In any watchdog state, a frame updates the cache as the decoder says and leaves the gate alone, and a fresh watchdog timer is pending. From a consistent watchdog it is the only pending timer, for every shape. The watchdog makes exactly the `Watchdog.Restart` transition. |
| `Driver.Reset` | scratch-vm/src/extensions/scratch3_scratch2maqueen/index.js:263-279 | In any state, `reset` and `disconnect` keep the cache and the gate, null `_timeoutID` and stop only the timer it named. From a consistent watchdog no timer is left pending. |
| `Driver.SetSlotValue` | scratch-vm/src/extensions/scratch3_scratch2maqueen/index.js:411-421 | The slot caches the value whether or not the send went out. A write goes out as `[0xA0, index, lo, hi]`, whose int16 reading is ToInt16(value), and the value itself when in range. The gate is untouched when nothing is written. A write leaves it busy, with a fresh release timer and the write in flight, both named by the next send number. |
| `Driver.SlotReadAfterWrite` | scratch-vm/src/extensions/scratch3_scratch2maqueen/index.js:407-421 | `getSlotValue` after `setSlotValue` reads the new value in the written slot and the old value in every other slot. |
| `Driver.WriteComplete` | scratch-vm/src/extensions/scratch3_scratch2maqueen/index.js:325-330 | The completion of an outstanding write opens the gate and leaves the cache and watchdog alone. The gate makes exactly the `SendGate.CompleteWrite` transition, so a late completion also releases a newer send. |
| `Driver.BusyTimeout` | scratch-vm/src/extensions/scratch3_scratch2maqueen/index.js:314-316 | A pending release timer opens the gate and leaves the cache and watchdog alone. The gate makes exactly the `SendGate.FireTimer` transition. |
| `Driver.WatchdogTimeout` | scratch-vm/src/extensions/scratch3_scratch2maqueen/index.js:339-342 | In any state, the link is reported stale exactly when the firing timer is pending, and that timer stops being pending. The cache and the gate are untouched. |
| `Driver.NextPreservesValid` | scratch-vm/src/extensions/scratch3_scratch2maqueen/index.js:263-421 | Every call and callback keeps the cache shape and the gate invariant. Every one also keeps the watchdog consistent, except a connect while a watchdog timer is pending. |
| `Driver.LeakedTimerReportsStale` | scratch-vm/src/extensions/scratch3_scratch2maqueen/index.js:274-342 | A connect while a watchdog timer is pending leaves the watchdog inconsistent. After a following `reset`, the older timer still reports the link stale through the driver's watchdog callback. |
| `Driver.ResetKeepsReadings` | scratch-vm/src/extensions/scratch3_scratch2maqueen/index.js:274-279 | A disconnect after a frame keeps every reading that frame delivered, and the gate. |
| `Driver.DroppedSlotWriteStillCached` | scratch-vm/src/extensions/scratch3_scratch2maqueen/index.js:411-421 | A slot write while busy is not sent, yet a later read of the slot returns the new value. |
| `Blocks.IsButtonPressed` | scratch-vm/src/extensions/scratch3_scratch2maqueen/index.js:815-824 | 'A' and 'B' report whether that button byte is non-zero. 'any' reports whether either is non-zero. Any other choice is false. |
| `Blocks.StripSpaces` | scratch-vm/src/extensions/scratch3_scratch2maqueen/index.js:832 | The result is the input without its whitespace: text without whitespace is returned unchanged, and a single whitespace character becomes empty. |
| `Blocks.StripSpacesAppend` | scratch-vm/src/extensions/scratch3_scratch2maqueen/index.js:832 | Stripping a concatenation is the concatenation of the stripped parts. With the single-character case this fixes the order and number of every kept character. |
| `Blocks.BitOfSymbolBits` | scratch-vm/src/extensions/scratch3_scratch2maqueen/index.js:833-837 | Bit `k` of the reduced number is 1 exactly when character `k` exists and is not '0'. |
| `Blocks.SymbolRows` | scratch-vm/src/extensions/scratch3_scratch2maqueen/index.js:837-843 | Five rows below 32. Bit `j` of row `r` is lit exactly when character `5r + j` exists and is not '0'. |
| `Blocks.DisplaySymbol` | scratch-vm/src/extensions/scratch3_scratch2maqueen/index.js:831-852 | The rows of the stripped pattern land in the matrix state and nothing else in the cache changes. They are sent as a display-LED command exactly when connected and the gate is open. The block then waits 100 ms. The gate is untouched when nothing is written. A write leaves it busy, with a fresh release timer and the write in flight, both named by the next send number. |
| `Blocks.DisplayClear` | scratch-vm/src/extensions/scratch3_scratch2maqueen/index.js:880-891 | All five rows become 0 and nothing else in the cache changes. A display-LED command with five zero rows is sent exactly when connected and the gate is open. The block then waits 100 ms. The gate is untouched when nothing is written. A write leaves it busy, with a fresh release timer and the write in flight, both named by the next send number. |
| `Blocks.DisplayText` | scratch-vm/src/extensions/scratch3_scratch2maqueen/index.js:864-874 | With `n` the length capped at 19: a write happens exactly when `n > 0`, connected and the gate is open, and it carries the first `n` code units. The wait is `120 * (6n + 6)` ms. The cache and the watchdog are unchanged, and with no write nothing changes. The gate is untouched when nothing is written. A write leaves it busy, with a fresh release timer and the write in flight, both named by the next send number. |
| `Blocks.SplitToBools` | scratch-vm/src/extensions/scratch3_scratch2maqueen/index.js:965-972 | For every integer `v`, flag 0 is `floor(v / 8)`, flags 1..3 are each 0 or 1, and `8 * f0 + 4 * f1 + 2 * f2 + f3` is `v` again. |
| `Blocks.SplitToBoolsBits` | scratch-vm/src/extensions/scratch3_scratch2maqueen/index.js:965-972 | For `0 <= v < 16` the four flags are bits 3, 2, 1 and 0 of `v`. |
| `Blocks.JoinBools` | scratch-vm/src/extensions/scratch3_scratch2maqueen/index.js:974-976 | When the last three flags are 0 or 1, the joined value divided by 8 is the first flag, and its remainder modulo 8 is the last three flags read as binary. |
| `Blocks.JoinSplit` | scratch-vm/src/extensions/scratch3_scratch2maqueen/index.js:965-976 | Joining the split flags gives back the number, for every integer. |
| `Blocks.SplitJoin` | scratch-vm/src/extensions/scratch3_scratch2maqueen/index.js:965-976 | Splitting a join gives back the flags when the last three are 0 or 1. |
| `Blocks.LedLeft` | scratch-vm/src/extensions/scratch3_scratch2maqueen/index.js:943-952 | Only slot 3 of the cache changes, and the watchdog is untouched. The split of slot 3 afterwards is the old split with the first flag set to the LED state. The write goes out exactly when connected and the gate is open, and it is the slot-value command for slot 3 with the new value's int16 bytes. The gate is untouched when nothing is written. A write leaves it busy, with a fresh release timer and the write in flight, both named by the next send number. |
| `Blocks.LedRight` | scratch-vm/src/extensions/scratch3_scratch2maqueen/index.js:954-963 | Only slot 3 of the cache changes, and the watchdog is untouched. The split of slot 3 afterwards is the old split with the second flag set to the LED state. The write goes out exactly when connected and the gate is open, and it is the slot-value command for slot 3 with the new value's int16 bytes. The gate is untouched when nothing is written. A write leaves it busy, with a fresh release timer and the write in flight, both named by the next send number. |
| `Blocks.LedLeftOnlyBit3` | scratch-vm/src/extensions/scratch3_scratch2maqueen/index.js:943-952 | For a flags value in 0..15, `ledLeft` sets bit 3 to the LED state and keeps bits 0..2. |
| `Blocks.LedRightOnlyBit2` | scratch-vm/src/extensions/scratch3_scratch2maqueen/index.js:954-963 | For a flags value in 0..15, `ledRight` sets bit 2 to the LED state and keeps bits 0, 1 and 3. |
| `Blocks.PatrolLeft` | scratch-vm/src/extensions/scratch3_scratch2maqueen/index.js:931-935 | The left patrol reading is 0 or 1, whatever slot 3 holds. |
| `Blocks.PatrolRight` | scratch-vm/src/extensions/scratch3_scratch2maqueen/index.js:937-941 | The right patrol reading is 0 or 1, whatever slot 3 holds. |
| `Blocks.PatrolBits` | scratch-vm/src/extensions/scratch3_scratch2maqueen/index.js:931-941 | When slot 3 holds a value in 0..15, the left and right patrol readings are its bits 1 and 0. |
| `Blocks.LedsKeepPatrol` | scratch-vm/src/extensions/scratch3_scratch2maqueen/index.js:931-963 | Switching either LED never changes either patrol reading. |
| `Blocks.MotorSpeed` | scratch-vm/src/extensions/scratch3_scratch2maqueen/index.js:913-925 | A NaN speed does nothing. Any other speed is cached in slot 0 or 1 and nothing else in the cache changes. The slot command `[0xA0, slot, lo, hi]` with the int16 bytes of the speed is written exactly when connected and the gate is open. The watchdog is untouched. The gate is untouched when nothing is written. A write leaves it busy, with a fresh release timer and the write in flight, both named by the next send number. |
| `Blocks.DistanceFromFrame` | scratch-vm/src/extensions/scratch3_scratch2maqueen/index.js:927-929 | The distance is the int16 at bytes 14..15 of the latest slots frame. Other shapes leave it unchanged. |
| `Blocks.DistanceKeptByWrites` | scratch-vm/src/extensions/scratch3_scratch2maqueen/index.js:913-963 | The motor and LED blocks never change the distance reading in slot 2. |
| `Blocks.Acceleration` | scratch-vm/src/extensions/scratch3_scratch2maqueen/index.js:992-1003 | The X, Y or Z axis gives `1000 * raw / 1024` milli-g once that axis has a reading, and NaN before. Only an unknown axis gives undefined. |

## Left out

- BLE transport: `scan`, `connect`, the socket half of `disconnect`, `isConnected`, `_ble.read`, `_ble.write` and `handleDisconnectError`. Whether the socket is connected is a boolean input. A write's completion and a stale report are events and results.
- Base64 transcoding of frames: frames are byte sequences.
- Wall-clock time, `setTimeout` and the block Promises: timers are named events that fire or are cleared. A block's wait is returned as a number of milliseconds.
- `util.yield()` on a busy send: it only affects the Scratch thread, not the driver state.
- JavaScript shares one pool of timer ids across `window`. Here the gate and the watchdog each name their own timers. Timer ids are positive in browsers, so `reset`'s truthiness test on `_timeoutID` is a null test.
- `parseInt`, `cast.toString` and `String(...)` coercion: blocks receive a string of UTF-16 code units, and `MotorSpeed` receives the parsed number, with `None` for NaN.
- `whenButtonPressed`, `getInfo`, menus, `setupTranslations`, the icon and the log message of `getAcceleration`: block metadata, localisation and logging.
- The plain getters (`buttonA`, `lightLevel`, `compassHeading`, `magneticStrength`, `getSlotValue` and the blocks that return them) read a cache field and are the fields of `Sensors.Sensors`.
- Telemetry.Decode: requires a frame of at least 20 bytes. The source has no length check and would read `undefined` from a shorter frame.
- Driver.SetSlotValue: requires a slot index below 4, since the callers use 0, 1 and 3. Values are integers: the fractional part `setInt16` would truncate from a non-integer Number is not modelled.
- Watchdog.CancelSilences: stated for a consistent watchdog. After a connect while a timer is pending, the leaked timer still reports stale, as `Watchdog.LeakedTimerOutlivesReset` shows.
- Blocks.LedLeftOnlyBit3: stated for flag values 0..15. Outside that range `Blocks.LedLeft` states the result in terms of the split.
- Blocks.LedRightOnlyBit2: stated for flag values 0..15. Outside that range `Blocks.LedRight` states the result in terms of the split.
- Blocks.PatrolBits: stated for flag values 0..15. Outside that range the readings are the split's flags 2 and 3.
- Blocks.SymbolRows: uses the exact integer sum. Past 53 non-space characters, JavaScript's double-precision sum would start rounding.
