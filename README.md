# Wavin AHC9000 hub — a verified model

This project models the hub component of the ESPHome driver for the Wavin
AHC9000 floor-heating controller (`WavinAHC9000`). The hub talks to the
controller over a half-duplex RS-485 line. It uses three function codes of a
Modbus-like protocol: 0x43 reads registers, 0x44 writes one register, and
0x45 is a masked write. Every frame carries a Modbus CRC-16.

The controller has sixteen channels. On each `update()` the hub first
refreshes the channels queued by earlier writes. It serves them in FIFO order,
up to `poll_channels_per_cycle` of them, and reconciles a mode it wrote
earlier but has not yet seen read back. It then spends the rest of that budget
on a round-robin over the active channels. Each visit runs two steps of that
channel's six-step read cycle:

- 0: primary element;
- 1: configuration / mode;
- 2: comfort setpoint;
- 3: standby setpoint;
- 4: output state;
- 5: air temperature and battery.

Writes of setpoints and modes are acknowledged frame exchanges. A write that
lands queues the channel for an urgent refresh and pauses normal polling for
100 ms.

The modules follow the driver's layers:

- `Base`: optional values and C integer ranges.
- `Wire`: big-endian words.
- `ModbusCrc`: CRC-16, polynomial 0xA001, initial value 0xFFFF.
- `Frames`: the request builders, the receive loop and the acceptance rules.
- `Registers`: the register map and its bit fields.
- `Transport`: the serial line as the class `Bus`, and the three register transactions.
- `Cache`: the per-channel cache and its accessors.
- `Hub`: the class `WavinAHC9000`, with the update cycle and the writes.

The serial line is an oracle. `Bus.answers` lists the bytes that will arrive
after each successive transmission; an empty answer is a line that stays
silent until the timeout. `Bus` records every frame it sends. A ghost log
names the request each frame encodes, so the hub's contracts can say exactly
which requests an operation issues, in order. They can also say which answer
each request consumed.

## Model

| member | source | states |
|---|---|---|
| ModbusCrc.Crc16 | esphome/components/wavin_ahc9000/wavin_ahc9000.cpp:15-26 | the bitwise CRC loop computes the byte-by-byte CRC-16 (poly 0xA001, init 0xFFFF) of the frame |
| ModbusCrc.SealedResidue | esphome/components/wavin_ahc9000/wavin_ahc9000.cpp:228-230 | a body followed by its CRC, low byte first, has a CRC residue of zero (why receivers test `crc16(buf) == 0`) |
| ModbusCrc.FeedOwnBytes | esphome/components/wavin_ahc9000/wavin_ahc9000.cpp:15-26 | feeding the register's own low then high byte clears it to zero |
| ModbusCrc.ShiftClearedLowByte | esphome/components/wavin_ahc9000/wavin_ahc9000.cpp:19-23 | with the low byte clear, eight bit steps XOR in no polynomial and are a plain shift right by 8 |
| ModbusCrc.KnownAnswer | esphome/components/wavin_ahc9000/wavin_ahc9000.cpp:15-26 | an independent check value: the CRC of the read request `01 03 00 00 00 01` is 0x0A84, sent as `84 0A` |
| Frames.Seal | esphome/components/wavin_ahc9000/wavin_ahc9000.cpp:228-230 | the sealed frame is the body followed by two CRC bytes |
| Frames.SealPassesCrc | esphome/components/wavin_ahc9000/wavin_ahc9000.cpp:281-283 | every sealed frame passes the CRC test |
| Frames.ReadRequest | esphome/components/wavin_ahc9000/wavin_ahc9000.cpp:221-230 | an 8-byte frame: address 0x01, function 0x43, category, index before page, count |
| Frames.WriteRequest | esphome/components/wavin_ahc9000/wavin_ahc9000.cpp:272-283 | a 10-byte frame: function 0x44, count 1, the value big-endian in bytes 6 and 7 |
| Frames.MaskedWriteRequest | esphome/components/wavin_ahc9000/wavin_ahc9000.cpp:317-330 | a 12-byte frame: function 0x45, count 1, AND mask then OR mask, each big-endian |
| Frames.RequestsPassCrc | esphome/components/wavin_ahc9000/wavin_ahc9000.cpp:221-330 | all three request frames carry a valid CRC |
| Frames.ExpectedLength | esphome/components/wavin_ahc9000/wavin_ahc9000.cpp:248 | the awaited length is `byte_count + 5` taken modulo 256, as the `uint8_t` cast makes it |
| Frames.FrameEnd | esphome/components/wavin_ahc9000/wavin_ahc9000.cpp:247-249 | a frame ends at n exactly when the stopping test holds at n (at least 5 bytes, address, function code, n == byte_count + 5); there is at most one such n |
| Frames.Receive | esphome/components/wavin_ahc9000/wavin_ahc9000.cpp:240-268 | the byte-by-byte receive loop returns the prefix up to the first length that passes the stopping test, and times out exactly when none does |
| Frames.UnpackWords | esphome/components/wavin_ahc9000/wavin_ahc9000.cpp:255-260 | the decoding loop yields one big-endian word per complete byte pair of the payload; an odd trailing byte is dropped |
| Frames.ParseReadResponse | esphome/components/wavin_ahc9000/wavin_ahc9000.cpp:249-261 | an accepted read yields byte_count / 2 words |
| Frames.FrameAtHead | esphome/components/wavin_ahc9000/wavin_ahc9000.cpp:247-249 | a frame whose length byte fits its length is found whole, whatever bytes trail it |
| Frames.SealedAtHead | esphome/components/wavin_ahc9000/wavin_ahc9000.cpp:247-254 | a sealed, well-formed response is found whole and passes the CRC test |
| Frames.ResponseAtHead | esphome/components/wavin_ahc9000/wavin_ahc9000.cpp:249-261 | a sealed read response is accepted with the words of its payload |
| Frames.ReadReplyAccepted | esphome/components/wavin_ahc9000/wavin_ahc9000.cpp:240-261 | round trip: the device's reply carrying words `ws` is decoded back to exactly `ws` |
| Frames.AckIsAccepted | esphome/components/wavin_ahc9000/wavin_ahc9000.cpp:300-306 | a well-formed acknowledgement for the function code is accepted |
| Frames.ReadReply | esphome/components/wavin_ahc9000/wavin_ahc9000.cpp:239 | the response layout: header, payload, CRC, of length 2·words + 5 |
| Frames.Ack | esphome/components/wavin_ahc9000/wavin_ahc9000.cpp:292-302 | the acknowledgement layout, of length payload + 5 |
| Wire.Word | esphome/components/wavin_ahc9000/wavin_ahc9000.cpp:258 | the word built from two bytes has them as its high and low bytes |
| Wire.WordOfBytes | esphome/components/wavin_ahc9000/wavin_ahc9000.cpp:279-280 | splitting a word into bytes and joining them back gives the word |
| Wire.WordsOf | esphome/components/wavin_ahc9000/wavin_ahc9000.cpp:257-260 | one word per complete byte pair |
| Wire.BytesOf | esphome/components/wavin_ahc9000/wavin_ahc9000.cpp:279-280 | two bytes per word |
| Wire.WordsOfBytesOf | esphome/components/wavin_ahc9000/wavin_ahc9000.cpp:257-260 | decoding the big-endian bytes of a word list gives the list back |
| Wire.WordsOfExtend | esphome/components/wavin_ahc9000/wavin_ahc9000.cpp:257-259 | one more byte pair appends one word (the step of the decoding loop) |
| Wire.WordsOfDropsOddByte | esphome/components/wavin_ahc9000/wavin_ahc9000.cpp:257 | a trailing odd byte contributes no word |
| Transport.Bus.Transact | esphome/components/wavin_ahc9000/wavin_ahc9000.cpp:234-266 | a transmission appends the frame and its request to the log and consumes exactly the next answer |
| Transport.SealFrame | esphome/components/wavin_ahc9000/wavin_ahc9000.cpp:228-230 | the transmitted frame is the sealed body |
| Transport.AcceptRead | esphome/components/wavin_ahc9000/wavin_ahc9000.cpp:240-268 | receive, CRC test and unpacking together give exactly the specified read outcome |
| Transport.AcceptAck | esphome/components/wavin_ahc9000/wavin_ahc9000.cpp:292-313 | an acknowledgement is accepted exactly when a frame completes with a zero CRC residue |
| Transport.ReadRegisters | esphome/components/wavin_ahc9000/wavin_ahc9000.cpp:220-269 | logs the read request; on acceptance `out` becomes the decoded words; on timeout or bad CRC it is unchanged and the result is false |
| Transport.WriteRegister | esphome/components/wavin_ahc9000/wavin_ahc9000.cpp:271-314 | logs the write request; true exactly when the answer is an accepted 0x44 acknowledgement |
| Transport.WriteMaskedRegister | esphome/components/wavin_ahc9000/wavin_ahc9000.cpp:316-361 | logs the masked write; true exactly when the answer is an accepted 0x45 acknowledgement |
| Registers.MaskLayout | esphome/components/wavin_ahc9000/wavin_ahc9000.h:151-168 | the mode encodings are distinct and inside the mode field; program bit ⊆ program mask ⊆ strict-unlock mask, which is disjoint from the mode field; element-id and probes-lost masks are disjoint |
| Registers.DecodeModeReadsModeBits | esphome/components/wavin_ahc9000/wavin_ahc9000.cpp:123-125 | the decoded mode depends only on the three mode bits |
| Registers.ModeBits | esphome/components/wavin_ahc9000/wavin_ahc9000.cpp:407 | the encoding written for a mode lies in the mode field, is never the alternate standby code, and decodes back to the mode |
| Registers.ReconcileValue | esphome/components/wavin_ahc9000/wavin_ahc9000.cpp:58-61 | the read-modify-write value keeps every bit outside the mode field, and its mode field decodes to the wanted mode |
| Registers.StrictValue | esphome/components/wavin_ahc9000/wavin_ahc9000.cpp:398 | the strict value is 0x4000 outside the mode field and decodes to the wanted mode |
| Registers.ElementId | esphome/components/wavin_ahc9000/wavin_ahc9000.cpp:111 | the primary element id is below 64 |
| Registers.ElementIdIgnoresLostFlag | esphome/components/wavin_ahc9000/wavin_ahc9000.cpp:111-112 | the probes-lost flag does not affect the element id |
| Registers.LostFlagIgnoresElementId | esphome/components/wavin_ahc9000/wavin_ahc9000.cpp:111-112 | the element id does not affect the probes-lost flag |
| Registers.BatteryPct | esphome/components/wavin_ahc9000/wavin_ahc9000.cpp:177-181 | the percentage is a multiple of 10 up to 100; 100 exactly when the raw value is at least 10, and otherwise ten times the raw value |
| Registers.ApplyMask | esphome/components/wavin_ahc9000/wavin_ahc9000.h:87-88 | after a masked write the OR-mask bits are set, and every other bit is the register's bit AND the AND mask |
| Registers.MaskClearsUnselectedBits | esphome/components/wavin_ahc9000/wavin_ahc9000.h:87-88 | bits in neither mask end up clear |
| Registers.MaskKeepsAndOnlyBits | esphome/components/wavin_ahc9000/wavin_ahc9000.h:87-88 | bits kept by the AND mask and not set by the OR mask keep their value |
| Cache.AccessorsReadEntry | esphome/components/wavin_ahc9000/wavin_ahc9000.cpp:635-654 | each accessor's fallback for an unknown channel (NaN, HEAT, action OFF) is what a fresh entry holds |
| Cache.FreshChannelDefaults | esphome/components/wavin_ahc9000/wavin_ahc9000.h:97-106 | a new channel state: no readings, mode HEAT, action OFF, battery 255 (unknown), element 0, probes not lost |
| Cache.FreshInsertIsInvisible | esphome/components/wavin_ahc9000/wavin_ahc9000.cpp:635-654 | creating a fresh entry by indexing the map changes nothing any accessor reports |
| Hub.ClampPerCycle | esphome/components/wavin_ahc9000/wavin_ahc9000.h:29 | the setting is within 1..16 and equals the request when the request is already in range |
| Hub.ClampIsNearest | esphome/components/wavin_ahc9000/wavin_ahc9000.h:29 | the clamped setting is the allowed value nearest to the request |
| Hub.ChunkOf | esphome/components/wavin_ahc9000/wavin_ahc9000.cpp:598-615 | a chunk is empty when start is past the end or count is 0; otherwise it is the min(count, remaining) consecutive channels from start |
| Hub.ChunksTile | esphome/components/wavin_ahc9000/wavin_ahc9000.cpp:598-603 | two adjacent chunks together are the chunk that spans both |
| Hub.WithElement | esphome/components/wavin_ahc9000/wavin_ahc9000.cpp:166-189 | the element read touches only the temperature and the battery; battery only when asked; the decoded state stays well formed |
| Hub.StepAfter | esphome/components/wavin_ahc9000/wavin_ahc9000.h:135 | a step counter stays within 0..5 |
| Hub.TwoSteps | esphome/components/wavin_ahc9000/wavin_ahc9000.cpp:106-196 | a visit moves a channel's counter two places on, modulo six |
| Hub.VisitKeepsEven | esphome/components/wavin_ahc9000/wavin_ahc9000.cpp:106-196 | counters starting at 0 and moving two per visit stay even, so steps 0, 2 and 4 start a visit |
| Hub.RotationAt | esphome/components/wavin_ahc9000/wavin_ahc9000.cpp:97-200 | the k-th round-robin visit reaches the active entry k places after the cursor, wrapping |
| Hub.RotationCoversAll | esphome/components/wavin_ahc9000/wavin_ahc9000.cpp:97-200 | one full round from any cursor visits every active channel |
| Hub.AfterVisitsCount | esphome/components/wavin_ahc9000/wavin_ahc9000.cpp:97-200 | a channel's counter ends at its start plus twice its number of visits, modulo six, whatever the visit order |
| Hub.QueueShift | esphome/components/wavin_ahc9000/wavin_ahc9000.cpp:41-65 | serving the queue head and re-queueing at the back keeps "initial + re-queued == served + queue" |
| Hub.UrgentRefresh | esphome/components/wavin_ahc9000/wavin_ahc9000.cpp:44-86 | one urgent refresh starts with the configuration read; it can erase only this channel's desire and never adds one; it asks for a re-queue only when the read word disagrees with a desire that is kept; it changes only the mode, setpoint, action and air temperature of the entry |
| Hub.ServeOne | esphome/components/wavin_ahc9000/wavin_ahc9000.cpp:42-87 | serving the queue head appends it to the served list; the request log only grows, by at least one request, and one answer is consumed per request; desires are only erased; every other channel keeps its cache entry and its desire |
| Hub.UrgentStep | esphome/components/wavin_ahc9000/wavin_ahc9000.cpp:40-88 | one more iteration of the urgent loop keeps its invariant: the states so far form a run of single serves; initial queue plus re-queued equals served plus queue; re-queued channels were served; only served channels lose desires or change cache entries; the pause deadline is the initial one when nothing was re-queued and now + 100 otherwise; the log only grew |
| Hub.PollVisitsStep | esphome/components/wavin_ahc9000/wavin_ahc9000.cpp:97-201 | the round-robin's cache and requests after one more visit are those of one visit of that channel, from its current counter, on top of the earlier visits |
| Hub.PollVisitsFrame | esphome/components/wavin_ahc9000/wavin_ahc9000.cpp:97-201 | a channel the round-robin did not visit keeps its cache entry |
| Hub.RoundRobinExtend | esphome/components/wavin_ahc9000/wavin_ahc9000.cpp:97-201 | one more iteration keeps the round-robin relation: the visits are the rotation of the active list from the cursor, the cursor has moved one place per visit, and the counters are those of the visits |
| Hub.ModeWritesDecode | esphome/components/wavin_ahc9000/wavin_ahc9000.cpp:391-415 | every configuration word a mode write sends, strict or read-modify-write, decodes to the requested mode |
| Hub.WavinAHC9000.constructor | esphome/components/wavin_ahc9000/wavin_ahc9000.h:109-137 | the hub starts with an empty cache and queues, two channels per cycle, cursor 0, every step counter 0 |
| Hub.WavinAHC9000.SetPollChannelsPerCycle | esphome/components/wavin_ahc9000/wavin_ahc9000.h:29 | the setting becomes the clamped value |
| Hub.WavinAHC9000.AddActiveChannel | esphome/components/wavin_ahc9000/wavin_ahc9000.cpp:211-216 | a valid channel not yet listed is appended; anything else leaves the list unchanged, so the list stays duplicate-free |
| Hub.WavinAHC9000.SetStrictModeWrite | esphome/components/wavin_ahc9000/wavin_ahc9000.cpp:425-432 | for a valid channel, the strict flag then reads back as set; no other channel's flag changes; out-of-range channels change nothing |
| Hub.WavinAHC9000.RefreshChannelNow | esphome/components/wavin_ahc9000/wavin_ahc9000.cpp:434-438 | a valid channel is appended to the urgent queue even when already queued |
| Hub.WavinAHC9000.ReadPrimaryElement | esphome/components/wavin_ahc9000/wavin_ahc9000.cpp:108-118 | sends the primary-element read; on acceptance it stores the element id and the probes-lost flag; on failure the state is unchanged |
| Hub.WavinAHC9000.ReadMode | esphome/components/wavin_ahc9000/wavin_ahc9000.cpp:120-131 | sends the configuration read; on acceptance it stores the decoded mode and returns the word |
| Hub.WavinAHC9000.ReadSetpoint | esphome/components/wavin_ahc9000/wavin_ahc9000.cpp:133-141 | sends the comfort-setpoint read; the word is stored on acceptance |
| Hub.WavinAHC9000.ReadStandbySetpoint | esphome/components/wavin_ahc9000/wavin_ahc9000.cpp:143-152 | sends the standby-setpoint read; the word is stored on acceptance |
| Hub.WavinAHC9000.ReadAction | esphome/components/wavin_ahc9000/wavin_ahc9000.cpp:154-163 | sends the timer-event read; the action is HEATING when the output bit is set and IDLE otherwise |
| Hub.WavinAHC9000.ReadElement | esphome/components/wavin_ahc9000/wavin_ahc9000.cpp:165-195 | with a usable probe: sends the 11-register element read and stores the temperature and battery; without one: sends nothing and clears the temperature |
| Hub.WavinAHC9000.ReadAirTemperature | esphome/components/wavin_ahc9000/wavin_ahc9000.cpp:81-86 | with a usable probe: sends the element read and stores only the temperature; otherwise nothing changes |
| Hub.WavinAHC9000.RunStep | esphome/components/wavin_ahc9000/wavin_ahc9000.cpp:107-196 | runs the step the counter names, with that step's requests and effect, whether or not its read succeeds, and moves the counter on |
| Hub.WavinAHC9000.RunTwoSteps | esphome/components/wavin_ahc9000/wavin_ahc9000.cpp:106-197 | two consecutive steps issue exactly the requests of the cycle specification and leave its state |
| Hub.WavinAHC9000.VisitChannel | esphome/components/wavin_ahc9000/wavin_ahc9000.cpp:100-197 | a visit moves only this channel's counter, two steps on; the cache and request log become those of the round-robin extended by this visit: this channel's entry takes the visit's state and the log gains exactly the visit's requests, each consuming the next answer |
| Hub.WavinAHC9000.ScheduleRefresh | esphome/components/wavin_ahc9000/wavin_ahc9000.cpp:371-372 | appends the channel to the urgent queue and sets the pause deadline to now + 100, with 32-bit wrap-around |
| Hub.WavinAHC9000.Reconcile | esphome/components/wavin_ahc9000/wavin_ahc9000.cpp:54-72 | a desire the word shows is erased with no write; one it does not show is rewritten with the other bits kept; an acknowledged rewrite re-queues the channel and pauses polling |
| Hub.WavinAHC9000.RefreshConfig | esphome/components/wavin_ahc9000/wavin_ahc9000.cpp:46-72 | reads the configuration word from the next answer and sets the mode from it; the log gains the read, then the reconcile write only on a mismatch with a desire; the desire is erased exactly when the word shows it; re-queue and pause exactly when the write is acknowledged |
| Hub.WavinAHC9000.ReadUrgentReadings | esphome/components/wavin_ahc9000/wavin_ahc9000.cpp:74-86 | sends exactly the urgent readings' requests (comfort setpoint, output state, then the element read when a probe is usable), each consuming the next answer, and returns the state they leave |
| Hub.WavinAHC9000.RefreshUrgent | esphome/components/wavin_ahc9000/wavin_ahc9000.cpp:44-86 | sends exactly the requests of the urgent refresh, in order, each consuming the next answer; only this channel's cache entry changes, to the refresh's state; the desires become the refresh's; the channel is re-queued and polling paused exactly when the refresh's reconcile write lands |
| Hub.WavinAHC9000.WriteChannelSetpoint | esphome/components/wavin_ahc9000/wavin_ahc9000.cpp:364-374 | an out-of-range channel sends nothing; otherwise one write is sent; only when acknowledged are the cache, the urgent queue and the pause updated |
| Hub.WavinAHC9000.WriteChannelStandbySetpoint | esphome/components/wavin_ahc9000/wavin_ahc9000.cpp:380-389 | as for the comfort setpoint, on the standby register |
| Hub.WavinAHC9000.SendMode | esphome/components/wavin_ahc9000/wavin_ahc9000.cpp:396-415 | the strict write first; only if it is not acknowledged, the configuration read and, when the read succeeds, the read-modify-write; it succeeds exactly when one of the writes lands |
| Hub.WavinAHC9000.WriteChannelMode | esphome/components/wavin_ahc9000/wavin_ahc9000.cpp:391-423 | records the desired mode before any write, then sends the mode writes; on success it updates the cached mode, queues the channel and pauses polling |
| Hub.WavinAHC9000.NormalizeChannelConfig | esphome/components/wavin_ahc9000/wavin_ahc9000.cpp:440-452 | writes the strict baseline for OFF or HEAT; an acknowledged write queues the channel and pauses polling, without touching the cache |
| Hub.WavinAHC9000.ServeNextUrgent | esphome/components/wavin_ahc9000/wavin_ahc9000.cpp:42-86 | pops the queue head and refreshes it; the queue becomes its tail plus the channel exactly when the reconcile write landed; the hub's whole urgent view afterwards (cache, desires, queue, deadline, log, answers taken) is one serve applied to the view before |
| Hub.WavinAHC9000.ServeUrgent | esphome/components/wavin_ahc9000/wavin_ahc9000.cpp:40-88 | serves at most the per-cycle budget and stops early only on an empty queue; the final state ends a run of single serves from the initial state, so: initial queue plus re-queued equals served plus queue; re-queued channels were served; desires are only erased, and only for served channels; unserved channels keep their cache entries; the deadline is the initial one when nothing was re-queued and now + 100 otherwise; the log only grows |
| Hub.WavinAHC9000.FillActiveChannels | esphome/components/wavin_ahc9000/wavin_ahc9000.cpp:91-95 | an empty active list becomes 1..16; a non-empty one is kept |
| Hub.WavinAHC9000.VisitAtCursor | esphome/components/wavin_ahc9000/wavin_ahc9000.cpp:99-200 | wraps a cursor past the end to 0, visits the channel under it and moves the cursor on modulo the list length; only that channel's counter moves; the cache and log are the round-robin's extended by that visit |
| Hub.WavinAHC9000.PollNext | esphome/components/wavin_ahc9000/wavin_ahc9000.cpp:97-201 | one iteration extends both the round-robin relation and the cache and log of the visits by the channel it visited |
| Hub.WavinAHC9000.PollRoundRobin | esphome/components/wavin_ahc9000/wavin_ahc9000.cpp:97-201 | makes exactly budget minus urgent-count visits; they follow the active list from the cursor; each moves its channel two steps on; the cache and log are those of the visits applied in order to the initial cache, so the log gains exactly the visits' requests |
| Hub.WavinAHC9000.Update | esphome/components/wavin_ahc9000/wavin_ahc9000.cpp:31-205 | while paused nothing changes and nothing is sent; otherwise the urgent phase is a run of single serves within the budget, leaving the desires, queue and deadline it reaches; the round-robin then applies its visits to that phase's cache and log; urgent plus round-robin visits equal the budget |

Definitions whose properties are stated by the rows above:

- `Registers.DecodeMode` (wavin_ahc9000.cpp:49-51, 123-125): OFF exactly when the mode field `cfg & 7` is 1 or 4, HEAT otherwise; covered by Registers.DecodeModeReadsModeBits, Registers.ModeBits, Registers.ReconcileValue and Registers.StrictValue.
- `Registers.AllProbesLost` (wavin_ahc9000.cpp:112): bit 10 of the primary-element word; covered by Registers.LostFlagIgnoresElementId and Registers.ElementIdIgnoresLostFlag.
- `Registers.OutputOn` (wavin_ahc9000.cpp:155-156): bit 4 of the timer-event word; covered by Hub.WavinAHC9000.ReadAction.
- `Cache.CurrentTemp`, `Cache.Setpoint`, `Cache.StandbySetpoint`, `Cache.ChannelMode` and `Cache.ChannelAction` (wavin_ahc9000.cpp:635-654, the `get_channel_*` accessors): the entry's field, or NaN / HEAT / action OFF for an unknown channel; covered by Cache.AccessorsReadEntry and Cache.FreshInsertIsInvisible.
- `Hub.WavinAHC9000.IsStrictModeWrite` (wavin_ahc9000.cpp:430-432): membership in the strict set; covered by Hub.WavinAHC9000.SetStrictModeWrite.
- `Hub.WavinAHC9000.Suspended` (wavin_ahc9000.cpp:33): a pause is set and the clock has not reached it; covered by Hub.WavinAHC9000.Update.

Proof helpers without a row of their own: `ModbusCrc.CrcStep`,
`ModbusCrc.KnownFeeds`, `Hub.ExtendLog`, `Hub.StepsFromSucc`,
`Hub.UrgentRefreshParts`, `Hub.ServeOneFrom`, `Hub.RunExtend`,
`Hub.PolledExtend`, `Hub.CursorAt`, `Hub.RotationStep` and
`Hub.AfterVisitsStep`. Each unfolds one definition or one step of a loop
for the members above.

## Left out

- The UART itself: transmit-enable toggling, flushing, delays and the receive timeout clock. An answer is a byte sequence that either completes a frame or times out.
- `millis()`: it is the `now` parameter, one clock value per operation.
- Floating point: the cache holds raw register words, not Celsius. `raw_to_c`, `c_to_raw` and `temp_divisor_` are not modelled. The setpoint writes take the raw value that `c_to_raw` would produce, and cache that raw value where the hub caches the Celsius value it was given.
- Hub.WavinAHC9000.WriteChannelSetpoint: caches the raw word, not the Celsius float, because floats are not modelled.
- Hub.WavinAHC9000.WriteChannelStandbySetpoint: caches the raw word, not the Celsius float, because floats are not modelled.
- Climate modes other than HEAT and OFF: the hub's writes and decoding produce only those two, so `Mode` has only those two.
- `publish_updates`, the climate, sensor and number entities, and their registration methods (`add_channel_climate`, `add_group_climate`, `add_channel_temperature_sensor`, the sensor setters): entity glue with no protocol behaviour.
- `write_group_setpoint`: a loop calling the single-channel setpoint write once per member.
- `generate_yaml_suggestion` and the YAML text builders: discovery I/O and string rendering. Only the chunk slicing that the `get_yaml_*_chunk` accessors share is modelled, as Hub.ChunkOf over the discovered-channel list.
- `set_allow_mode_writes` / `get_allow_mode_writes`: a flag that no modelled operation reads.
- `dump_config`, `setup`, `loop`, and logging.
- Hub.WavinAHC9000.WriteChannelMode: the mode is `Mode` (HEAT or OFF), so a request for another climate mode is not modelled.
- `request_status`, `request_status_channel` (wavin_ahc9000.h:54-55) and `get_comfort_capable_channels` (wavin_ahc9000.h:60): the header declares them, but the component defines no body for them.
- The request log in `Transport.Bus` is ghost: it names the request behind each frame, and the device is not modelled.
- Hub.WavinAHC9000.PollRoundRobin: states the cache after the round-robin as the visits applied in order; that an unvisited channel keeps its entry follows from the lemma Hub.PollVisitsFrame, not from an ensures of its own.
- Behaviours a reader might not expect, which the model keeps as the code has them:
  - the urgent queue is not de-duplicated;
  - the cycle has six steps and a visit runs two of them, although the comment at wavin_ahc9000.cpp:90 says each channel advances one step per update;
  - a step counter advances even when its read fails;
  - mode, setpoint and normalisation writes are plain 0x44 writes; the 0x45 masked write is built and specified, but no modelled operation issues it;
  - a setpoint or mode write updates the cache as soon as it is acknowledged, before any read-back.
