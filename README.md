# dk5q-lib in Dafny

A verified model of the core of `dk5q-lib`, a Go driver for the Das
Keyboard 5Q. The driver talks to the keyboard over USB HID feature reports
and raw reads and writes. The model has six modules:

- `Packets` (packets.dfy) is the packet codec of packets.go:
  - the two opaque 35-byte commands, initialise and firmware query;
  - the brightness command with its range check;
  - the freeze and trigger commands, each a 4-byte header and fourteen `0xFFFF` words;
  - the 29-byte per-channel state packet: a 7-byte header and eleven little-endian words, with key 0 sent as 151;
  - the effect-flag combinators.

  `DecodeStatePacket` is an independent reader of state packets. The round-trip lemmas prove in both directions that the encoding loses only the key default.
- `KeyInfo` (key_info.dfy) is the LED zone map and key model of key_info.go. The zone tests are stated a second time as range tables. `NewLED` is proved against those tables, and the channel triple of every key is proved to be a permutation of 0, 1, 2.
- `Dep` (dep.dfy) is the firmware-info record of dep.go and its `String` rendering, `major.minor.patch.rc - (count)`. A parser reads the rendering back, which proves it injective.
- `Transport` (transport.dfy) stands in for the HID library the driver calls, which is not part of this model. An open handle is a `Device` object with a script of replies and a log of the calls it received.
- `Hid` (hid.dfy) is the keyboard object of hid.go. It is a class with the fields `device`, `deviceInfo` and `sequence`, and one method per Go method. The three retry and scan loops are proved against recursive functions that follow the Go loop iteration by iteration:
  - `Connect` against `Scan`;
  - `Read` against `ReadLoop`;
  - `Write` against `WriteLoop`.

  The padding loop of `FeatureReport` is proved to build the buffer `OutgoingReport` describes.

  Lemmas then state what those functions promise. Examples: at most six transport calls; the first device that matches and opens wins; the sequence counts modulo 256 and advances only on success; byte 3 of every command is overwritten by the sequence.

### Behaviour worth knowing

- `FeatureReport` makes a single `GetFeatureReport` call and checks no acknowledgement byte or echoed sequence in the answer (hid.go:150).
- The state packet is 29 bytes, with the effect flag at offset 27 (packets.go:78-91).
- `GetKeyboardData` reads the packet count at offset 2 and the four version bytes at offsets 3 to 6 (hid.go:122-127).
- `Disconnect` closes the handle and keeps it; a later `Read` or `Write` uses the closed handle (hid.go:243-245).
- There is no per-key builder that turns one key's colour program into its three channel packets; callers build each `StateInfo` themselves.

## Model

| member | source | states |
|---|---|---|
| Packets.LeWords | packets.go:50-51 | the little-endian encoding `binary.Write` gives a `[]uint16`: two bytes per word; the lemmas below locate each word and decode it back |
| Packets.LeWordsAt | packets.go:79-91 | `binary.Write` of `[]uint16` in little-endian order puts word `i` at bytes `2i` (low) and `2i+1` (high) |
| Packets.LeWordsDecode | packets.go:79-91 | reading bytes `2i`, `2i+1` back as a word gives word `i` |
| Packets.InitializePacket | packets.go:11-20 | the initialise command is 35 bytes |
| Packets.FirmwarePacket | packets.go:35-43 | the firmware query is 35 bytes |
| Packets.FirmwareAndInitializeShareToken | packets.go:11-43 | both commands end in the same 32-byte token; only their 3-byte headers (`00 13 00`, `00 11 06`) differ |
| Packets.BrightnessPacket | packets.go:22-33 | fails with a range error exactly when the level is above 63; otherwise gives exactly `[0, 43, 0, level]` |
| Packets.AllOnesBody | packets.go:50-51 | fourteen `0xFFFF` words are 28 bytes of `0xFF` |
| Packets.FreezePacket | packets.go:45-54 | 32 bytes: `[0, 45, 0, 7]`, then 28 bytes of `0xFF` |
| Packets.TriggerPacket | packets.go:96-104 | 32 bytes: `[0, 45, 0, 15]`, then 28 bytes of `0xFF` |
| Packets.TriggerIsFreezeWithOpcode15 | packets.go:45-104 | the trigger command is the freeze command with byte 3 changed from 7 to 15 |
| Packets.EffectiveKey | packets.go:75-77 | key 0 becomes 151; any other key is kept; the result is never 0 |
| Packets.StateWords | packets.go:79-91 | no contract of its own: the eleven words the state packet writes after its header, in declared order, with a zero word before the effect flag; `StatePacketWord` and `StatePacketFields` state where each lands |
| Packets.StatePacket | packets.go:72-94 | always 29 bytes, with header `[0, 40, 0, channel, 1, key', effect]` where key' is the defaulted key |
| Packets.StatePacketWord | packets.go:79-91 | word `i` of the body is stored little-endian at offset `7 + 2i` |
| Packets.StatePacketFields | packets.go:79-91 | the nine level and delay fields are at offsets 7 to 23, bytes 25 and 26 are zero, and the flag is at 27 |
| Packets.StatePacketRoundTrip | packets.go:72-94 | decoding the offsets of a built packet recovers every field; only key 0 comes back as 151 |
| Packets.DecodedStatePacketRebuilds | packets.go:72-94 | every byte string that decodes is exactly the packet built from the decoded state |
| Packets.StatePacketInjective | packets.go:72-94 | two states give the same packet if and only if they agree once key 0 is read as 151 |
| Packets.StatePacketChannelByte | packets.go:78 | the colour-channel id occupies byte 3 and no other byte |
| Packets.EffectFlagIncrementOnly | packets.go:107-111 | returns the default flag value 1, whatever its argument |
| Packets.EffectFlagDecrementOnly | packets.go:113-115 | returns a code with neither mode bit set that differs from increment-only |
| Packets.EffectFlagIncrementDecrement | packets.go:116-118 | returns a code with neither mode bit set and bit 0 set |
| Packets.EffectFlagDecrementIncrement | packets.go:119-121 | returns a code with neither mode bit set and bit 1 set |
| Packets.EffectFlagTriggerOnApply | packets.go:122-124 | sets bit `0x4000`; every other bit is unchanged |
| Packets.EffectFlagTriggerNow | packets.go:125-127 | clears bit `0x4000`; every other bit is unchanged |
| Packets.EffectFlagEnableTransition | packets.go:128-130 | clears bit `0x1000`; every other bit is unchanged |
| Packets.EffectFlagDisableTransition | packets.go:131-133 | sets bit `0x1000`; every other bit is unchanged |
| Packets.DirectionCodes | packets.go:107-121 | the direction combinators ignore their argument and return 1, 2, 25 and 26 |
| Packets.DirectionDiscardsModeBits | packets.go:109-133 | a direction code applied after a bit combinator discards that bit |
| Packets.TriggerCombinatorsIdempotent | packets.go:122-127 | setting or clearing the trigger bit is idempotent; clearing after setting equals clearing |
| Packets.TransitionCombinatorsIdempotent | packets.go:128-133 | the same for the transition bit |
| Packets.BitCombinatorsCommute | packets.go:122-133 | the trigger and transition combinators commute |
| KeyInfo.NewLED | key_info.go:19-40 | total; keeps the id; the zone is 1, 2 or 3; zone 2 and zone 3 hold exactly when the id is in their range tables; the channel triple is the order of its zone |
| KeyInfo.ZoneTestsMatchTables | key_info.go:21-32 | the two chains of range tests in `NewLED` are exactly membership in the zone-2 and zone-3 range tables |
| KeyInfo.ZoneRangesDisjoint | key_info.go:21-27 | no id is in both tables, so the order of the two tests does not matter |
| KeyInfo.DefaultZone | key_info.go:33-38 | an id is in zone 1 exactly when it is in neither table, and then red, green and blue are 0, 1 and 2 |
| KeyInfo.KeyModel.RGBChannels | key_info.go:91-97 | three bytes: the red, green and blue channel positions, in that order |
| KeyInfo.NewKeyModel | key_info.go:68-117 | `LEDID` is the given id, `LED` and `LEDZone` are those of `NewLED(id)`, and the other accessors return the constructor arguments |
| KeyInfo.RGBChannelsPermutation | key_info.go:91-97 | the triple of every constructed key is its zone's channel order and a permutation of {0, 1, 2} |
| Dep.Decimal | dep.go:30 | `%v` of a byte: at least one digit, all digits, no leading zero |
| Dep.DecimalRoundTrip | dep.go:30 | the decimal digits read back give the number |
| Dep.DecimalByteLength | dep.go:30 | a byte takes one, two or three digits, by magnitude |
| Dep.Render | dep.go:29-31 | `major.minor.patch.rc - (count)` is 13 to 23 characters long |
| Dep.ParseRender | dep.go:29-31 | splitting the rendering on `.`, ` - (` and `)` recovers all five fields |
| Dep.RenderInjective | dep.go:29-31 | two records render alike if and only if they are equal |
| Transport.Device.GetFeatureReport | hid.go:150 | the handle answers the next scripted reply, fills the buffer with it and logs the call |
| Transport.Device.Read | hid.go:192 | the same for a raw read into a buffer |
| Transport.Device.Write | hid.go:222 | the same for a raw write |
| Transport.Device.Close | hid.go:244 | the same for closing |
| Transport.FillAt | hid.go:150 | after a transfer, a buffer byte is the device's where its data reaches and the caller's beyond it |
| Hid.TransportErr | hid.go:150-153 | a transport error is passed on unchanged; no error stays no error |
| Hid.OutgoingReport | hid.go:135-141 | the report is 65 bytes, or longer when the command itself is |
| Hid.OutgoingReportLayout | hid.go:135-145 | byte 0 is the low byte of the report id, byte 3 the sequence, bytes 1.. of the command are kept elsewhere, and the padding is zeros |
| Hid.NextSequence | hid.go:157-161 | no contract of its own: the sequence after a successful transaction, with 0xFF wrapping to 0x00 as an explicit branch; `NextSequenceCounts` states what it computes |
| Hid.NextSequenceCounts | hid.go:156-161 | the explicit 0xFF to 0x00 wrap is `(s + 1) mod 256`, and the sequence never stays the same |
| Hid.ReportIgnoresByte3 | hid.go:145 | two commands that differ at most in byte 3 are sent as identical reports |
| Hid.BrightnessLevelNotOnWire | hid.go:104-112 | every valid brightness level produces the same report: the level in byte 3 is overwritten |
| Hid.FreezeAndTriggerIdenticalOnWire | hid.go:92-102 | freeze and trigger produce the same report: their opcode in byte 3 is overwritten |
| Hid.ChannelIdNotOnWire | hid.go:145 | state packets that differ only in colour channel produce the same report |
| Hid.ParseFirmwareInfo | hid.go:122-127 | no contract of its own: the packet count from byte 2 and the major, minor, patch and rc versions from bytes 3 to 6; `FirmwareFieldsSource` and `GetKeyboardData` state where those bytes come from |
| Hid.FirmwareFieldsSource | hid.go:115-130 | with a reply of at least 7 bytes, the firmware fields are the reply's; with at most 3, the major version is the sequence just sent |
| Hid.ReadLoop | hid.go:179-198 | no contract of its own: follows the read loop one iteration per call (the retry check, one transport read, the darwin strip, the retry count); the lemmas below state what it promises |
| Hid.ReadSpec | hid.go:176-198 | no contract of its own: the read loop from a zeroed 65-byte buffer, no bytes read, no error and no retries |
| Hid.ReadLoopBounds | hid.go:179-198 | from any loop state, the rest of the read loop makes at most `6 - retry` calls, all of them reads |
| Hid.ReadAttemptsBounded | hid.go:179-198 | a read makes one to six transport reads |
| Hid.ReadLoopSucceedsIffFull | hid.go:181-197 | without strip mode, the loop ends without "maximum retries exceeded" if and only if one of its remaining replies fills 65 bytes |
| Hid.ReadSucceedsIffFullReport | hid.go:169-200 | without strip mode, a read ends without "maximum retries exceeded" if and only if one of the first six replies reports the full 65-byte report, and then returns 65 bytes |
| Hid.ReadLoopStopsAtFirstFull | hid.go:181-197 | without strip mode, from any loop state, the loop ends at the first reply that fills 65 bytes, after exactly that many reads, with that reply's error and bytes |
| Hid.ReadStopsAtFirstFull | hid.go:169-200 | without strip mode, a read ends at the first of six replies that fills 65 bytes: exactly that many reads, that reply's error (none or a transport error), its bytes as far as they reach, and the later replies untouched |
| Hid.StripLoopNeverFull | hid.go:192-197 | in strip mode, every remaining iteration runs and the loop ends with "maximum retries exceeded" |
| Hid.StripModeReadAlwaysFails | hid.go:169-200 | in strip mode, every read fails after exactly six transport reads, whatever the device answers |
| Hid.ReadFixedSpec | hid.go:181-197 | no contract of its own: the corrected read, which counts the bytes of the full buffer and strips the leading byte only once the report is complete; `FixedReadSucceedsIffFullReport` states what it promises |
| Hid.FixedReadSucceedsIffFullReport | hid.go:169-200 | the corrected read ends without "maximum retries exceeded" in both modes if and only if one of the first six replies reports the full report, and strips one byte only then |
| Hid.WriteLoop | hid.go:210-236 | no contract of its own: follows the write loop one iteration per call (the retry check, one transport write, the return on no error, the retry count); the lemmas below state what it promises |
| Hid.WriteSpec | hid.go:208-236 | no contract of its own: the write loop with no bytes written, no error and no retries |
| Hid.WriteOfNothing | hid.go:210-212 | empty data makes no transport call and no error |
| Hid.WriteLoopBounds | hid.go:210-236 | from any loop state, at most six minus the retries used further calls, each a write of the whole data |
| Hid.WriteAttemptsBounded | hid.go:210-236 | a write of non-empty data makes one to six transport writes of the whole data, and empty data makes none |
| Hid.WriteLoopStopsAtFirstSuccess | hid.go:212-235 | from any loop state, the loop stops at the first error-free attempt, after exactly that many calls, leaving the later replies untouched |
| Hid.WriteStopsAtFirstSuccess | hid.go:202-237 | a write returns with no error after the first error-free attempt, having made exactly that many attempts and leaving the later replies untouched |
| Hid.WriteLoopGivesUp | hid.go:212-235 | from any loop state, failed short attempts exhaust the remaining retries |
| Hid.WriteGivesUpAfterSixFailures | hid.go:202-237 | six failed, short attempts end in "maximum retries exceeded" after exactly six calls |
| Hid.WriteFailedButCompleteIsFinal | hid.go:212-234 | a failed attempt that still reports every byte written ends the loop with that error |
| Hid.Scan | hid.go:52-76 | no contract of its own: follows the enumeration loop one device per call (record the info of a device with a path, open it when it matches, stop at the first open that succeeds); the lemmas below state what it promises |
| Hid.ScanFirstMatchWins | hid.go:52-76 | the scan opens the first device with a path that matches the selection key and opens, and stops there |
| Hid.ScanWithoutEligible | hid.go:52-76 | with no openable match, the handle and error are untouched if nothing was tried; otherwise the handle is null and the error is the open error of the last device tried |
| Hid.ScanInfo | hid.go:54-55 | the recorded device info stays unset exactly when it was unset and no device has a path |
| Hid.ConnectOutcome | hid.go:52-83 | no contract of its own: the scan, then "no matching compatible device found" when the device info is still unset after the scan and both selectors are zero |
| Hid.ConnectWithoutMatch | hid.go:78-83 | when no device matches but one has a path, `Connect` reports success and leaves the handle as it was |
| Hid.DefaultDasKeyboard.constructor | hid.go:27-34 | stores the ids and selectors; no handle, no device info, sequence 0 |
| Hid.DefaultDasKeyboard.Connect | hid.go:43-84 | an empty enumeration gives "no such device" and changes nothing; otherwise the fields and the error are those of `ConnectOutcome` |
| Hid.DefaultDasKeyboard.FeatureReport | hid.go:134-167 | sends exactly one report, `OutgoingReport`; on error returns it with no bytes and the same sequence; on success returns the filled buffer and advances the sequence |
| Hid.DefaultDasKeyboard.Initialize | hid.go:86-90 | one feature report carrying the initialise command; its error is returned; the sequence advances only on success; the device info is kept |
| Hid.DefaultDasKeyboard.FreezeEffects | hid.go:92-96 | one feature report carrying the freeze command; its error is returned; the sequence advances only on success; the device info is kept |
| Hid.DefaultDasKeyboard.Apply | hid.go:98-102 | one feature report carrying the trigger command; its error is returned; the sequence advances only on success; the device info is kept |
| Hid.DefaultDasKeyboard.SetBrightness | hid.go:104-112 | above 63, the range error with no transport call and no state change; otherwise one feature report carrying `[0, 43, 0, level]`, its error, and the sequence advanced only on success |
| Hid.DefaultDasKeyboard.GetKeyboardData | hid.go:115-130 | on error, no fields and no sequence change; otherwise the count from byte 2 and the versions from bytes 3 to 6 of the filled buffer, and the sequence advanced; one reply consumed, device info kept |
| Hid.DefaultDasKeyboard.Read | hid.go:169-200 | without a handle, "not connected" and no call; otherwise the data, error, calls and remaining replies are those of `ReadSpec` |
| Hid.DefaultDasKeyboard.Write | hid.go:202-237 | without a handle, "not connected" and no call; otherwise the error, calls and remaining replies are those of `WriteSpec` |
| Hid.DefaultDasKeyboard.Disconnect | hid.go:240-247 | closes the handle if there is one and returns its error; the handle is kept |

## Findings

| source | as written | input that shows it | evidently intended | confidence | as-written member | corrected member |
|---|---|---|---|---|---|---|
| hid.go:181-197 | in strip mode (darwin), a non-empty read lowers `bytesRead` by one and shortens `data`, then compares the count with 65 | six replies that each report 65 bytes and no error: the counts become 64, then at most 63, …, and the read ends with "maximum retries exceeded" | a full 65-byte read succeeds and loses only its leading byte | not executed; high | Hid.StripModeReadAlwaysFails | Hid.FixedReadSucceedsIffFullReport |

`Hid.DefaultDasKeyboard.Read` models the loop as written, so its contract is `ReadSpec`. `Hid.ReadFixedSpec` is the corrected read.

## Left out

- `NewKeyModelsFromAsset` (key_info.go:133-169): file-system access, JSON decoding and regular-expression clean-up of key names. These are I/O and library calls.
- The HID library (`Enumerate`, `Open`, `GetFeatureReport`, `Read`, `Write`, `Close`) is not part of this model. It is replaced by the scripted `Transport.Device`:
  - an enumeration is a sequence of `DeviceInfo` values, each carrying the result its `Open` would have;
  - a handle whose script has run out answers every call with an error and count 0;
  - a reported byte count larger than the buffer is clamped to the buffer size (`Transport.Reported`).
- Transport.Reply: the reported count and the bytes a reply supplies are independent, so a reply may report a full 65-byte read while supplying fewer bytes; the rest of the buffer then keeps what it held. The real library reports the bytes it wrote, and the model does not impose that link.
- The mutex (hid.go:21, 50-51, 142-144, 156-162, 170-171, 203-204, 241-242): calls are modelled one after another, so concurrency is not modelled.
- `time.Sleep` between retries and all `fmt.Printf` logging, including the `bufCopy` copy that exists only for logging (hid.go:146-149).
- `runtime.GOOS` (hid.go:56, 193) is replaced by two constants of the keyboard: `selectByUsage` and `stripLeadingReadByte`.
- The `float32` geometry of a key is carried as its 32-bit pattern (`KeyInfo.Float32`). The code does no arithmetic on it.
- The `DasKeyboard` interface and `FindDasKeyboard`, which only panics (dep.go:5-37). test_local_keyboard/main.go is not part of this model.
- The package variable `initializePacket` in hid.go:38-40 is never used: `Initialize` calls `InitializePacket()` from packets.go, which the model uses.
- The unused `*hid.DeviceInfo` argument of every packet builder is dropped.
- Hid.DefaultDasKeyboard.FeatureReport: requires an open handle and a command of at least one byte. Go would panic on a nil handle or an empty `report`.
- Hid.DefaultDasKeyboard.Initialize: requires an open handle, for the same reason.
- Hid.DefaultDasKeyboard.FreezeEffects: requires an open handle, for the same reason.
- Hid.DefaultDasKeyboard.Apply: requires an open handle, for the same reason.
- Hid.DefaultDasKeyboard.GetKeyboardData: requires an open handle, for the same reason.
- Hid.DefaultDasKeyboard.SetBrightness: requires an open handle when the level is valid, for the same reason. Out-of-range levels never reach the handle.
- Hid.DefaultDasKeyboard.Connect: stores the enumerated device by value. Before Go 1.22, `d.deviceInfo = &device` points at the shared loop variable. The difference shows only when the loop runs to its end without a successful open: Go then leaves the last enumerated device, while the model leaves the last one with a path.
