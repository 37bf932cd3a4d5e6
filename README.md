# neonious lowjs ESP32 examples: drivers and firmware server, modelled in Dafny

This project models the core of the lowjs ESP32 example collection and proves properties of the model.

The main part is the TMCL driver for the Trinamic TMCM-3212 three-axis stepper controller over CAN.
- Each request is filed under a correlation key, `(device << 8) | opcode`. Moves and reference searches also get `(axis + 1) << 16`.
- A request whose key is busy waits in that key's FIFO queue.
- The first of reply, timeout or transmit error resolves a request, and only once. Its key then passes to the head of the queue.
- Moves and reference searches finish only on the device's "target position reached" event. A reference search is also confirmed by a status read.

Next to it are the other drivers and the firmware server:
- the DHT11 and DHT11/22 temperature and humidity decoders;
- the B&R X20BC008U OPC-UA bus-controller driver;
- the SSD1306/SH1106 OLED frame buffer;
- the NMEA checksum and the text helpers of the GPS driver;
- the I2C rotary encoder;
- the debounced digital input;
- the settings handlers of the custom firmware, for both the device server and the test server;
- the custom firmware's HTTP server: routing, content types, the request-body limit and the session tokens.

The form each part takes follows the source:
- Objects whose fields change become classes. Their methods state the whole new value of every field that holds the source's state; in each branch, a field left unstated is stated unchanged. In the TMCL driver that state is a `Snapshot` of the tables and the frames sent, and the functions `Unfiled`, `Filed`, `Confirmed`, `FlaggedAxis` and `ReachState` give it after each step.
- A ghost ledger records requests, their phases and every handler call. The methods state its request list and its handler calls. Its tables equal the driver's by the invariant `Valid`. Its phases and per-key histories are only kept consistent with the rest (the predicate `Consistent`); no method states their new value. Proofs of at-most-once resolution and per-key FIFO order are stated against it.
- Event handlers (CAN messages, GPIO edges, timers, I2C and OPC-UA completions) are methods the environment calls.
- Byte frames, key arithmetic, checksums, text rendering and content types are functions. Lemmas give their inverses and reference definitions.

Files:
- `option.dfy`: `Option` and `Result`.
- `bytes.dfy`: bytes, bits, JavaScript's 32-bit conversions, big-endian words.
- `text.dfy`: the JavaScript string operations used: decimal rendering, `indexOf`, `lastIndexOf`, `parseInt`.
- `tmcl_codec.dfy`, `tmcl_driver.dfy`, `tmcl_scenarios.dfy`: the TMCL driver.
- `dht_frame.dfy`, `dht11_22.dfy`, `dht11.dfy`: the DHT decoders.
- `x20bc008u.dfy`, `oled.dfy`, `nmea.dfy`, `rotary_encoder.dfy`, `debounce.dfy`: the other drivers.
- `settings_form.dfy`, `test_settings.dfy`, `server_settings.dfy`, `http_server.dfy`: the custom firmware.

## Model

| member | source | states |
|---|---|---|
| Bytes.ToUInt32 | drivers/industry/tmcm-3212-tmcl.js:235 | the value `writeUInt32BE` stores is below 2^32 and congruent to the argument modulo 2^32 |
| Bytes.ByteOf | drivers/input/i2cRotaryEncoder.ts:237-239 | the byte stored for a value: congruent to it modulo 256, the low byte of its ToUint32, and the value itself when it is a byte |
| Bytes.ToInt32 | drivers/industry/X20BC008U.js:73-75 | the result of a bitwise operator is a signed 32-bit number with the same 32-bit pattern as its operand |
| Bytes.UInt32ToBE | drivers/industry/tmcm-3212-tmcl.js:235 | a 32-bit word is written as 4 bytes |
| Bytes.BEToUInt32 | drivers/industry/tmcm-3212-tmcl.js:159 | `readUInt32BE` yields a number below 2^32 |
| Bytes.BERoundTrip | drivers/industry/tmcm-3212-tmcl.js:235 | reading back the 4 bytes written for a word gives the word |
| Bytes.BERoundTripBytes | drivers/industry/tmcm-3212-tmcl.js:159 | writing the word read from 4 bytes gives the bytes back |
| Bytes.WithBitBits | drivers/industry/X20BC008U.js:73-75 | `x \| (1 << i)` / `x & ~(1 << i)` makes bit i the chosen value and keeps every other bit |
| Bytes.WithBitValue | drivers/industry/X20BC008U.js:73-75 | changing a bit adds or subtracts 2^i, or changes nothing when the bit already had that value |
| Bytes.WithBitBound | drivers/industry/X20BC008U.js:73-75 | changing a bit below w keeps a number below 2^w |
| Bytes.WithBitTwice | drivers/industry/X20BC008U.js:73-75 | setting a bit twice is the same as setting it once to the second value |
| Text.IndexOf | drivers/industry/X20BC008U.js:190 | `indexOf` gives the first occurrence at or after `from`, or none anywhere after it |
| Text.LastIndexOf | custom_firmware/server/index.js:23 | `lastIndexOf` gives an occurrence with none after it, or none at all |
| Text.NatToStringDigits | drivers/industry/tmcm-3212-tmcl.js:155 | `'' + n` writes decimal digits only, without a leading zero, which read back as n |
| Text.NatToStringInjective | drivers/industry/tmcm-3212-tmcl.js:155 | different numbers are written differently |
| Text.ParseIntNatToString | drivers/industry/X20BC008U.js:194 | `parseInt` reads back a decimal number followed by a non-digit, with radix 10 or without one |
| TmclCodec.KeyFields | drivers/industry/tmcm-3212-tmcl.js:186-188 | the opcode, device and axis (axis + 1 for moves and reference searches, 0 otherwise) can be read back from a key |
| TmclCodec.ReplyKeyFields | drivers/industry/tmcm-3212-tmcl.js:116 | a reply is looked up under a key without an axis |
| TmclCodec.KeysEqual | drivers/industry/tmcm-3212-tmcl.js:186-188 | two requests share a key iff they have the same device and opcode, and, when they are both moves or both searches, the same axis |
| TmclCodec.ReplyKeyMatches | drivers/industry/tmcm-3212-tmcl.js:116 | a reply finds a request iff device and opcode agree and the request is not a move or reference search |
| TmclCodec.TimeoutFollowsKey | drivers/industry/tmcm-3212-tmcl.js:226 | the 300 s timeout goes exactly with the keys that carry an axis, and 5 s with all others |
| TmclCodec.EncodeCommand | drivers/industry/tmcm-3212-tmcl.js:231-235 | a command frame has 7 bytes |
| TmclCodec.CommandRoundTrip | drivers/industry/tmcm-3212-tmcl.js:231-235 | the frame carries opcode, type, motor bank and the value modulo 2^32 |
| TmclCodec.CommandFrameOfFields | drivers/industry/tmcm-3212-tmcl.js:231-235 | every 7-byte frame is the encoding of the fields read from it |
| TmclCodec.DecodeReply | drivers/industry/tmcm-3212-tmcl.js:81-84 | a frame is a reply iff it has 7 bytes, and its value is a 32-bit word |
| TmclCodec.EncodeReply | drivers/industry/tmcm-3212-tmcl.js:81-84 | a reply frame has 7 bytes |
| TmclCodec.ReplyRoundTrip | drivers/industry/tmcm-3212-tmcl.js:82-84 | decoding an encoded reply gives the reply |
| TmclCodec.ReplyBytesRoundTrip | drivers/industry/tmcm-3212-tmcl.js:82-84 | encoding a decoded frame gives the frame back |
| TmclCodec.MaskIsLowByte | drivers/industry/tmcm-3212-tmcl.js:88 | the axis mask of the target-reached event is byte 6, the low byte of the reply value |
| TmclCodec.StatusOutcomeCases | drivers/industry/tmcm-3212-tmcl.js:120-159 | a reply succeeds iff its status is 100, and then with the frame's value; an unlisted status is reported with its code |
| TmclCodec.StatusMessagesDistinct | drivers/industry/tmcm-3212-tmcl.js:120-157 | different failing statuses give different messages, except 5 and 6, which share one |
| TmclCodec.KnownMessageLength | drivers/industry/tmcm-3212-tmcl.js:126-152 | the length of each listed failing status's message |
| TmclCodec.KnownMessageStart | drivers/industry/tmcm-3212-tmcl.js:126-152 | no listed status's message starts like the unknown-status message |
| TmclCodec.MotionOps | drivers/industry/tmcm-3212-tmcl.js:249-307 | exactly the two moves and the reference search wait for the target-reached event, filed under their own axis |
| TmclDriver.PostOk | drivers/industry/tmcm-3212-tmcl.js:186-242 | submitting a request keeps the ledger consistent: entries, queues, phases, handler calls and per-key history |
| TmclDriver.PostLive | drivers/industry/tmcm-3212-tmcl.js:190-196 | a submitted request joins the unresolved requests of its key, last |
| TmclDriver.PostHistoryOk | drivers/industry/tmcm-3212-tmcl.js:190-196 | after a submission, each key still resolves its requests in submission order |
| TmclDriver.PostLogOk | drivers/industry/tmcm-3212-tmcl.js:186-242 | a submission keeps the invariant that each handler call is of a resolved request and no request is resolved twice |
| TmclDriver.ReleaseOk | drivers/industry/tmcm-3212-tmcl.js:202-216 | resolving an entry keeps the ledger consistent |
| TmclDriver.ReleasePhases | drivers/industry/tmcm-3212-tmcl.js:209-212 | a release resolves the released request, puts the head of its queue in flight, and leaves every other request's phase alone |
| TmclDriver.ReleaseLogOk | drivers/industry/tmcm-3212-tmcl.js:202-205 | after a release no request has been resolved twice |
| TmclDriver.ReleaseHistoryOk | drivers/industry/tmcm-3212-tmcl.js:209-212 | after a release each key still resolves its requests in submission order |
| TmclDriver.HistoryAt | drivers/industry/tmcm-3212-tmcl.js:190-213 | the history of any key is its resolved requests, then the one in flight, then its queue |
| TmclDriver.MovedAreFlagged | drivers/industry/tmcm-3212-tmcl.js:92-94 | the target-reached event completes only move keys of flagged axes |
| TmclDriver.UntouchedAxes | drivers/industry/tmcm-3212-tmcl.js:90-110 | the event leaves every axis key that is not a flagged move as it was |
| TmclDriver.MoveKeysApart | drivers/industry/tmcm-3212-tmcl.js:92-103 | the move key and search key of an axis differ from each other and from the key of the confirming status read |
| TmclDriver.SearchIsNotConfirm | drivers/industry/tmcm-3212-tmcl.js:102-103 | a confirming status read is not filed under the search it confirms |
| TmclDriver.Driver.constructor | drivers/industry/tmcm-3212-tmcl.js:69-164 | the driver starts with one request in flight, `transmit(138, 1, 0, 255)`, and its frame sent |
| TmclDriver.Driver.Transmit | drivers/industry/tmcm-3212-tmcl.js:174-242 | a request gets the next id. While its key is busy it is queued, with nothing sent and no entry or timer added. Otherwise it is filed with its timeout and its frame is sent |
| TmclDriver.Driver.Call | drivers/industry/tmcm-3212-tmcl.js:249-307 | each command method submits its opcode, type, motor bank and value |
| TmclDriver.Driver.Post | drivers/industry/tmcm-3212-tmcl.js:186-242 | a submission changes only its own key and keeps the ledger consistent |
| TmclDriver.Driver.File | drivers/industry/tmcm-3212-tmcl.js:190-235 | the queue-or-file step, on the driver's fields |
| TmclDriver.Driver.Release | drivers/industry/tmcm-3212-tmcl.js:202-216 | the done-handler deletes the key, hands it to the head of the queue (sent with the released command and type), and records the outcome |
| TmclDriver.Driver.Unfile | drivers/industry/tmcm-3212-tmcl.js:209-213 | the key is deleted and refiled for the queue head, whose frame is sent |
| TmclDriver.Driver.Resolve | drivers/industry/tmcm-3212-tmcl.js:102-108 | the entry is released with its outcome. A confirming status read that finds its search done (no error, value 0) then also releases that search, if it is still pending. The new tables, the frames sent and the handler calls are stated for both cases |
| TmclDriver.Driver.Complete | drivers/industry/tmcm-3212-tmcl.js:92-94 | a pending request under the key succeeds without a value; with none, nothing changes |
| TmclDriver.Driver.OnMessage | drivers/industry/tmcm-3212-tmcl.js:79-160 | a frame is ignored unless it has 7 bytes, the reply id and an 11-bit id; otherwise it is the target-reached event or a reply |
| TmclDriver.Driver.OnReply | drivers/industry/tmcm-3212-tmcl.js:115-159 | a reply nobody waits for changes nothing. Otherwise its entry is resolved with the status outcome, and a confirming read also completes its search; the new tables and frames sent are stated for each case. No move is resolved by a reply |
| TmclDriver.Driver.TargetReached | drivers/industry/tmcm-3212-tmcl.js:86-112 | in axis order, each flagged axis completes its pending move and gets a status read for its pending search. The new tables and the frames sent are ReachState of the old ones; no other axis key changes |
| TmclDriver.Driver.ReachAxis | drivers/industry/tmcm-3212-tmcl.js:90-110 | one loop iteration of the event keeps the loop invariant |
| TmclDriver.Driver.ReachFlagged | drivers/industry/tmcm-3212-tmcl.js:92-109 | a flagged axis resolves its move, handing the key to the head of its queue, and submits `transmit(13, 2, i, 0)` when a search is pending. The new tables and frames sent are FlaggedAxis of the old ones |
| TmclDriver.Driver.OnTimeout | drivers/industry/tmcm-3212-tmcl.js:222-226 | the timer of a request still in flight fails it with its timeout error; a stale timer changes nothing |
| TmclDriver.Driver.OnTransmitResult | drivers/industry/tmcm-3212-tmcl.js:237-241 | a transmit error fails the request if it is still in flight; success or a stale report changes nothing |
| TmclScenarios.TwoWrites | drivers/industry/tmcm-3212-tmcl.js:190-196 | two axis-parameter writes share a key, so the second waits in the queue |
| TmclScenarios.QueuedRequestInheritsType | drivers/industry/tmcm-3212-tmcl.js:210-212 | the queued write is sent with the type of the write it waited behind |
| TmclScenarios.SecondAxisCompleted | drivers/industry/tmcm-3212-tmcl.js:90-94 | mask 0x02 completes only the move of axis 1 |
| TmclScenarios.MoveAcknowledged | drivers/industry/tmcm-3212-tmcl.js:115-118 | a move's acknowledgement leaves it pending |
| TmclScenarios.MoveWaitsForTargetReached | drivers/industry/tmcm-3212-tmcl.js:86-94 | after the acknowledgement, the target-reached event completes the move without a value |
| DhtFrame.BitsValue | drivers/sensors/dht11_22.js:147-160 | w bits hold a number below 2^w |
| DhtFrame.ToBitsValue | drivers/sensors/dht11_22.js:147-160 | the bits of a number read back as the number |
| DhtFrame.AccumulateHum | drivers/sensors/dht11_22.js:148-156 | bits 1-16 build up the humidity word |
| DhtFrame.AccumulateTemp | drivers/sensors/dht11_22.js:150-158 | bits 17-32 build up the temperature word |
| DhtFrame.AccumulateCheck | drivers/sensors/dht11_22.js:152-160 | bits 33-40 build up the check byte |
| DhtFrame.SignMagnitudeRoundTrip | drivers/sensors/dht11_22.js:188-191 | the sign-magnitude decoding inverts the sensor's encoding |
| DhtFrame.ChecksumIsByteSum | drivers/sensors/dht11_22.js:185 | the mask test equals the byte sum of the four data bytes, modulo 256 |
| DhtFrame.DecodeSpec | drivers/sensors/dht11_22.js:185-192 | 40 bits are accepted iff the last byte is the byte sum of the first four, and then give the two sign-magnitude words |
| DhtFrame.Encode | drivers/sensors/dht11_22.js:146-160 | what a sensor sends is 40 bits: humidity, temperature and check byte |
| DhtFrame.EncodeDecode | drivers/sensors/dht11_22.js:185-192 | every reading a sensor can send is decoded as sent |
| Dht11_22.PulseBit | drivers/sensors/dht11_22.js:147-161 | 0.015-0.047 ms is a 0, any other pulse up to 0.1 ms a 1, and a longer one no bit |
| Dht11_22.StartDelay | drivers/sensors/dht11_22.js:109-113 | the repeat delay is the one given, 1000 ms by default |
| Dht11_22.Sensor.constructor | drivers/sensors/dht11_22.js:42-50 | no measurement pending, no repeat and no rise stamp; no answer awaited and the accumulators empty |
| Dht11_22.Sensor.Measure | drivers/sensors/dht11_22.js:72-89 | refused while a measurement is pending; otherwise the rise stamp is forgotten, the answer awaited and the accumulators cleared |
| Dht11_22.Sensor.Start | drivers/sensors/dht11_22.js:109-115 | a periodic measurement with the repeat delay |
| Dht11_22.Sensor.Stop | drivers/sensors/dht11_22.js:121-127 | no repeat and no pending measurement; nothing else changes |
| Dht11_22.Sensor.Rise | drivers/sensors/dht11_22.js:129-133 | a rising edge is stamped only while measuring |
| Dht11_22.Sensor.Fall | drivers/sensors/dht11_22.js:135-196 | the answer pulse (0.065-0.1 ms) starts the count; each pulse adds its bit; a pulse that is too long ends with "wrong signal" and keeps the accumulators; otherwise the accumulators are always the fold of the bits received; bit 40 ends with the decoded reading |
| Dht11_22.Sensor.Expire | drivers/sensors/dht11_22.js:77-85 | the 3000 ms timer of a pending measurement ends it with "not connected" |
| Dht11_22.ReadAnswer | drivers/sensors/dht11_22.js:135-192 | a sensor answering with well-timed pulses hands exactly its reading to the callback |
| Dht11.PulseBit | drivers/sensors/dht11.js:141-166 | 0.015-0.035 ms is a 0, 0.06-0.08 ms a 1, and any other pulse no bit |
| Dht11.StartDelayAsWritten | drivers/sensors/dht11.js:115 | as written, the repeat delay is 1000 ms without a delay and 0 ms with any delay |
| Dht11.StartDelayIgnoresWait | drivers/sensors/dht11.js:105-115 | any delay but 0 gives a repeat after 0 ms, not after the documented delay (the one of Dht11_22.StartDelay); without a delay both give 1000 ms |
| Dht11.Sensor.constructor | drivers/sensors/dht11.js:45-52 | no measurement pending, no repeat and no rise stamp; the counter at 0 and the accumulators empty |
| Dht11.Sensor.Measure | drivers/sensors/dht11.js:74-91 | refused while pending; otherwise the rise stamp, counter and accumulators are cleared |
| Dht11.Sensor.Start | drivers/sensors/dht11.js:111-117 | a periodic measurement with the documented repeat delay |
| Dht11.Sensor.Stop | drivers/sensors/dht11.js:123-129 | no repeat and no pending measurement |
| Dht11.Sensor.Rise | drivers/sensors/dht11.js:131-135 | a rising edge is stamped only while measuring |
| Dht11.Sensor.Fall | drivers/sensors/dht11.js:137-193 | the first pulse is taken as the answer whatever its length; the next 40 carry the bits; a pulse of neither length ends with "wrong signal" and keeps the accumulators; otherwise the accumulators are always the fold of the bits received |
| Dht11.Sensor.Expire | drivers/sensors/dht11.js:79-87 | the 3000 ms timer ends a pending measurement with "not connected" |
| Dht11.ReadAnswer | drivers/sensors/dht11.js:137-190 | a sensor answering with well-timed pulses hands exactly its reading to the callback |
| X20BC008U.Level | drivers/industry/X20BC008U.js:63-65 | a pin level is 0 or 1; it is 1 iff bit p modulo 32 of the word's 32-bit pattern is set |
| X20BC008U.WithPinLevel | drivers/industry/X20BC008U.js:71-75 | setting pin p changes that pin's level (and that of pins equal to it modulo 32) and no other |
| X20BC008U.DeviceName | drivers/industry/X20BC008U.js:189-192 | the display name after the first " \| ", or all of it when there is none |
| X20BC008U.Placings | drivers/industry/X20BC008U.js:184-198 | each child is placed by its own browse and display names |
| X20BC008U.PositionOfST | drivers/industry/X20BC008U.js:186-194 | a child named "STk" is placed at k - 1 |
| X20BC008U.ListedDomain | drivers/industry/X20BC008U.js:183-198 | a position is listed iff some "ST" child is placed there |
| X20BC008U.ListedLast | drivers/industry/X20BC008U.js:194-197 | a position holds the device of the last child placed there |
| X20BC008U.ListDevices | drivers/industry/X20BC008U.js:183-199 | the loop builds exactly the listing of the children, in order |
| X20BC008U.Setups | drivers/industry/X20BC008U.js:122-128 | each set-up names a device of the list |
| X20BC008U.SetupsOf | drivers/industry/X20BC008U.js:122-128 | a device is set up as an output iff its name starts with "X20DO", and as an input iff it starts with "X20DI", each on its own node |
| X20BC008U.Controller.constructor | drivers/industry/X20BC008U.js:58-60 | no client, no devices, no words and no writes |
| X20BC008U.Controller.GetLevel | drivers/industry/X20BC008U.js:63-65 | the level is 1 iff the device has a word with bit p modulo 32 set; an unknown device reads 0 |
| X20BC008U.Controller.GetLevels | drivers/industry/X20BC008U.js:67-69 | the device's word, or undefined |
| X20BC008U.Controller.InitConnection | drivers/industry/X20BC008U.js:89-101 | devices, words, nodes and write states are forgotten and the client dropped |
| X20BC008U.Controller.Connect | drivers/industry/X20BC008U.js:103-107 | the new client replaces the old one and nothing else changes |
| X20BC008U.Controller.WriteDevice | drivers/industry/X20BC008U.js:276-297 | nothing happens without an output node or a client; while a write is out, another is only marked due; otherwise the word is written |
| X20BC008U.Controller.Store | drivers/industry/X20BC008U.js:80 | the word of the device is replaced and the array grows to cover it |
| X20BC008U.Controller.SetLevel | drivers/industry/X20BC008U.js:71-77 | the pin gets the level; other pins and devices keep theirs; the word is written |
| X20BC008U.Controller.SetLevels | drivers/industry/X20BC008U.js:79-82 | the word is replaced and written |
| X20BC008U.Controller.WriteDone | drivers/industry/X20BC008U.js:287-296 | a stale client's answer is dropped; an error starts the connection over, with every table and the length reset and no write issued; otherwise the status clears and a due write goes out |
| X20BC008U.Controller.OutputReady | drivers/industry/X20BC008U.js:264-268 | the output node is stored, the device idles, and its word is written; words, length, input nodes and client stay |
| X20BC008U.Controller.InputReady | drivers/industry/X20BC008U.js:230-235 | the input node maps to its device once subscribed, for the current client only; words, length, output nodes and statuses stay |
| X20BC008U.Controller.DataChanged | drivers/industry/X20BC008U.js:133-142 | a number on a subscribed input becomes its device's word and is emitted, with the length grown to cover that device; anything else is ignored |
| X20BC008U.Controller.DevicesListed | drivers/industry/X20BC008U.js:118-128 | for the current client, each device gets word 0 and an output or input set-up by its name |
| X20BC008U.OneOutput | drivers/industry/X20BC008U.js:264-268 | an output device becomes ready and writes word 0 |
| X20BC008U.CoalescedWrites | drivers/industry/X20BC008U.js:280-295 | three changes while a write is out give two writes: the first and the latest word |
| Oled.InitAsWritten | spi_oled_ssd1306_sh1106.js:66-167 | as written, only 128x64 gets its set-up; the other two sizes read an undefined constant |
| Oled.SmallPanelRefused | spi_oled_ssd1306_sh1106.js:78-102 | 64x48 and 128x32 panels fail to open |
| Oled.InitSpec | spi_oled_ssd1306_sh1106.js:66-167 | the set-up exists iff the size is known; it has 23 bytes, switches the panel off first and on last, and sets multiplex height - 1; it agrees with the code as written wherever that succeeds |
| Oled.PageHeader | spi_oled_ssd1306_sh1106.js:181-183 | a page starts with its page address and the column address |
| Oled.WithPixel | spi_oled_ssd1306_sh1106.js:206-212 | only bit k of the byte changes, to the chosen value |
| Oled.SetTwice | spi_oled_ssd1306_sh1106.js:210-212 | setting a pixel twice is setting it once |
| Oled.SetThenClear | spi_oled_ssd1306_sh1106.js:206-212 | clearing a set pixel leaves it off |
| Oled.Display.constructor | spi_oled_ssd1306_sh1106.js:50-168 | the buffer is allocated and the set-up commands are sent |
| Oled.Display.Set | spi_oled_ssd1306_sh1106.js:210-212 | that pixel goes on and no other byte changes; a pixel outside the buffer is ignored |
| Oled.Display.Clear | spi_oled_ssd1306_sh1106.js:206-208 | that pixel goes off and no other byte changes |
| Oled.Display.ClearAll | spi_oled_ssd1306_sh1106.js:200-203 | every byte of the buffer becomes the given byte |
| Oled.Display.Apply | spi_oled_ssd1306_sh1106.js:170-198 | the start line, then page by page a header and that page's bytes |
| Oled.Display.Row | spi_oled_ssd1306_sh1106.js:177-196 | from page y on, each page's header and then its `width` bytes from the running offset; nothing after the last page |
| Oled.Display.OffsetIs | spi_oled_ssd1306_sh1106.js:176-189 | the running offset of page y is y times the width |
| Oled.Display.ValidPaged | spi_oled_ssd1306_sh1106.js:52-54 | for every known size the pages exactly fill the buffer |
| Oled.Display.PagesData | spi_oled_ssd1306_sh1106.js:177-192 | the data sent from page y on is the buffer from page y's offset to its end, in order (from page 0: the whole buffer) |
| Oled.Display.PageData | spi_oled_ssd1306_sh1106.js:186-189 | each page adds exactly its own bytes to the data, ahead of the later pages |
| Oled.Display.PagesHeaders | spi_oled_ssd1306_sh1106.js:177-192 | page z is its header followed by its own `width` bytes |
| Oled.Open | spi_oled_ssd1306_sh1106.js:66-167 | a display of a known size, or "unknown display size" |
| Nmea.XorBound | drivers/sensors/nmea_gps.js:91-92 | exclusive-or of w-bit numbers is a w-bit number |
| Nmea.XorAllAscii | drivers/sensors/nmea_gps.js:91-92 | the checksum of ASCII text is below 128 |
| Nmea.XorBetween | drivers/sensors/nmea_gps.js:90-92 | the loop leaves the sum undefined when nothing lies between '$' and '*', and otherwise ends with the exclusive-or of the character codes in between |
| Nmea.CheckLine | drivers/sensors/nmea_gps.js:82-94 | the loop accepts exactly the lines that start with '$', have a '*' after at least one character, and end in the hexadecimal exclusive-or of what lies in between |
| Nmea.AcceptedAt | drivers/sensors/nmea_gps.js:88-94 | once a line starts with '$' and its first '*' has text before it, acceptance depends on the checksum after the '*' alone |
| Nmea.HexDigit | drivers/sensors/nmea_gps.js:93 | a hex digit reads back as its value |
| Nmea.ParseHexByte | drivers/sensors/nmea_gps.js:93 | two hex digits read back as the byte |
| Nmea.SentenceAccepted | drivers/sensors/nmea_gps.js:82-94 | a sentence with its checksum appended is accepted iff the checksum is right |
| Nmea.EmptyBodyRejected | drivers/sensors/nmea_gps.js:90-93 | "$*" followed by anything is rejected: the sum stays undefined |
| Nmea.QualityTextSpec | drivers/sensors/nmea_gps.js:279-291 | "unknown" exactly outside 0-4; the five names differ except that 3 and 4 share one |
| Nmea.Tenths | drivers/sensors/nmea_gps.js:222 | `(v * 36000 + 0.5) \| 0` as a rounding to the nearest tenth of a second |
| Nmea.Split | drivers/sensors/nmea_gps.js:224-229 | degrees, minutes, seconds and tenths add back to the total, each in range |
| Nmea.SplitUnique | drivers/sensors/nmea_gps.js:224-229 | the split is the only one in range |
| Nmea.DmsTextMarks | drivers/sensors/nmea_gps.js:231-242 | the degree mark is always there; the minute, second and decimal marks appear iff those parts are non-zero |
| Nmea.DigitsSplit | drivers/sensors/nmea_gps.js:231-242 | a run of digits followed by a non-digit splits uniquely |
| Nmea.DecimalSplit | drivers/sensors/nmea_gps.js:231-242 | a rendered number followed by a non-digit splits uniquely |
| Nmea.SecondsTextInjective | drivers/sensors/nmea_gps.js:236-240 | different seconds give different text |
| Nmea.MinutesTextInjective | drivers/sensors/nmea_gps.js:233-242 | different minutes and seconds give different text |
| Nmea.DmsTextInjective | drivers/sensors/nmea_gps.js:231-242 | different angles give different text |
| Nmea.Magnitude | drivers/sensors/nmea_gps.js:215-220 | the sign is split off |
| Nmea.AngleText | drivers/sensors/nmea_gps.js:211-243 | null gives "-"; otherwise the rounded magnitude's text followed by the hemisphere letter of the sign |
| Nmea.Lat2Txt | drivers/sensors/nmea_gps.js:211-243 | a latitude ends in 'S' iff negative and in 'N' otherwise |
| Nmea.Lon2Txt | drivers/sensors/nmea_gps.js:245-277 | a longitude ends in 'W' iff negative and in 'E' otherwise |
| RotaryEncoder.EncoderFrame | drivers/input/i2cRotaryEncoder.ts:170-172 | the general configuration write is register 0x00 with 34 |
| RotaryEncoder.IntFrame | drivers/input/i2cRotaryEncoder.ts:131-133 | the interrupt configuration write is register 0x04 with 31 |
| RotaryEncoder.CmaxFrame | drivers/input/i2cRotaryEncoder.ts:149-154 | the maximum write is register 0x0C with 100 as a big-endian word |
| RotaryEncoder.RgbFrame | drivers/input/i2cRotaryEncoder.ts:234-239 | the colour write is register R with the three values modulo 256, which are the values themselves when they are bytes |
| RotaryEncoder.ClassifyAsWritten | drivers/input/i2cRotaryEncoder.ts:222-230 | as written, every non-zero status without a button bit reads the position |
| RotaryEncoder.DoublePushReadsPosition | drivers/input/i2cRotaryEncoder.ts:226 | status 0x04 has neither rotation bit but still reads the position |
| RotaryEncoder.ClassifySpec | drivers/input/i2cRotaryEncoder.ts:222-230 | push on bit 1, release on bit 0 without bit 1, position read on bit 3 or 4 without a button bit; it departs from the code as written only where that reads the position and this gives no event |
| RotaryEncoder.OffsetAsWritten | drivers/input/i2cRotaryEncoder.ts:200-202 | as written, a jump above 50 counts as +1 and below -50 as -1 |
| RotaryEncoder.Wrap | drivers/input/i2cRotaryEncoder.ts:149-154 | the counter wraps within 0..100 |
| RotaryEncoder.WrapUpReportedDown | drivers/input/i2cRotaryEncoder.ts:200-202 | one step up from 100 wraps to 0 and is reported as -1 |
| RotaryEncoder.OffsetSpec | drivers/input/i2cRotaryEncoder.ts:200-202 | single steps are reported with their sign across the wrap, and steps up to 50 without a wrap as they are |
| RotaryEncoder.Encoder.constructor | drivers/input/i2cRotaryEncoder.ts:95-125 | not initialised, at the first set-up stage, position 0 |
| RotaryEncoder.Encoder.Begin | drivers/input/i2cRotaryEncoder.ts:115-125 | the delayed start sends the frame of the current set-up stage |
| RotaryEncoder.Encoder.SetupDone | drivers/input/i2cRotaryEncoder.ts:115-186 | a failed stage is retried; a finished one moves to the next (encoder, maximum, interrupt); the last reports INITIALIZED |
| RotaryEncoder.Encoder.Interrupt | drivers/input/i2cRotaryEncoder.ts:101-114 | the status is read only once initialised |
| RotaryEncoder.Encoder.StatusRead | drivers/input/i2cRotaryEncoder.ts:210-233 | a failed read is retried; push and release are reported; a rotation reads the position |
| RotaryEncoder.Encoder.PositionRead | drivers/input/i2cRotaryEncoder.ts:187-209 | a failed read is retried; a 4-byte answer reports ROTATED with the offset and stores byte 3; any other answer is ignored |
| Debounce.EdgeState | drivers/input/dinDebounce.ts:37-42 | a rise reports 0 and a fall 1 |
| Debounce.Debouncer.constructor | drivers/input/dinDebounce.ts:28-44 | no state and no timer |
| Debounce.Debouncer.Edge | drivers/input/dinDebounce.ts:45-53 | the state is recorded, and a timer starts only when none is pending |
| Debounce.Debouncer.Rise | drivers/input/dinDebounce.ts:37-39 | a rising edge records 0 |
| Debounce.Debouncer.Fall | drivers/input/dinDebounce.ts:40-42 | a falling edge records 1 |
| Debounce.Debouncer.Expire | drivers/input/dinDebounce.ts:48-51 | the expiring timer clears the pending mark and reports the latest state |
| Debounce.Burst | drivers/input/dinDebounce.ts:45-53 | a burst of edges starts one timer and reports only the last edge's state |
| SettingsForm.OrEmpty | custom_firmware/test_server/settings.js:48 | `f \|\| ''` keeps a non-empty string and makes anything else empty |
| SettingsForm.Validate | custom_firmware/test_server/settings.js:30-41 | a form passes iff no field is a string of 1 to 3 characters; otherwise it names exactly those fields |
| SettingsForm.Assign | custom_firmware/test_server/settings.js:47-52 | a missing field keeps the value, null clears it, a string replaces it; a checked field leaves an acceptable password |
| SettingsForm.AssignIfTruthy | custom_firmware/test_server/settings.js:49-50 | only a non-empty string replaces the Wi-Fi name, which keeps at least four characters |
| TestSettings.Store.constructor | custom_firmware/test_server/settings.js:3-9 | the defaults: password and Wi-Fi password "customfirmware", Wi-Fi name "Custom Firmware Example" |
| TestSettings.Store.GetPassword | custom_firmware/test_server/settings.js:12-14 | the stored password, which is empty or at least four characters long |
| TestSettings.Store.GetSettings | custom_firmware/test_server/settings.js:16-25 | the Wi-Fi name and whether a Wi-Fi password is set; the password is not shown |
| TestSettings.Store.SetSettings | custom_firmware/test_server/settings.js:27-56 | a form with a short field is answered with its errors and changes nothing; otherwise each field present is stored; the settings stay well-formed |
| ServerSettings.GetSettings | custom_firmware/server/settings.js:12-22 | the system's Wi-Fi name and whether its password is non-empty |
| ServerSettings.UpdateOf | custom_firmware/server/settings.js:49-53 | the update holds the Wi-Fi name iff it is truthy, and the Wi-Fi password iff it is defined (falsy as empty) |
| ServerSettings.Settings.constructor | custom_firmware/server/settings.js:6 | the password is what /PASSWORD holds |
| ServerSettings.Settings.GetPassword | custom_firmware/server/settings.js:8-10 | the password in use, which is also the last one written to /PASSWORD |
| ServerSettings.Settings.SetSettings | custom_firmware/server/settings.js:24-58 | a form with a short field changes nothing. Otherwise a given password replaces the old one and is written to /PASSWORD, and the Wi-Fi update is scheduled when it changes anything |
| HttpServer.RouteOf | custom_firmware/server/index.js:144-150 | a path under "/api/" is the call named by the rest; everything else is a static file |
| HttpServer.ExtensionTypeTable | custom_firmware/server/index.js:27-43 | the if-chain agrees with the table of six known extensions, with plain text for any other |
| HttpServer.LastDotDecides | custom_firmware/server/index.js:22-27 | what follows the last dot, and only that, goes through the extension tests |
| HttpServer.ContentTypeOf | custom_firmware/server/index.js:22-44 | the type is chosen by what follows the last dot |
| HttpServer.ContentTypeNoDot | custom_firmware/server/index.js:24-25 | a URL without a dot is HTML |
| HttpServer.StaticFileAsWritten | custom_firmware/server/index.js:19 | as written, the root is the index page and any other path is replaced by the full request URL |
| HttpServer.QueryStringServedAsText | custom_firmware/server/index.js:19-44 | a script asked for with a query string is served as plain text; by its path it is a script |
| HttpServer.StaticFile | custom_firmware/server/index.js:19 | the root is served as "/index.html", any other path as itself |
| HttpServer.StaticTypeFollowsPath | custom_firmware/server/index.js:19-45 | a file gets the content type of its path's extension |
| HttpServer.RootServedAsIndex | custom_firmware/server/index.js:19-29 | the root is served as HTML |
| HttpServer.HandleStatic | custom_firmware/server/index.js:18-59 | the file asked for, else the index page under the same type, else 500 |
| HttpServer.Concat | custom_firmware/server/index.js:93 | concatenated chunks have the total length |
| HttpServer.Kept | custom_firmware/server/index.js:83-90 | the chunks kept are the longest prefix whose total stays below 128 KiB |
| HttpServer.Receive | custom_firmware/server/index.js:80-90 | the body is too large iff its total reaches 128 KiB; exactly the chunks before that point are kept, and they stay below the limit |
| HttpServer.FirstFree | custom_firmware/server/index.js:108-112 | the first draw that is not a live token, every earlier one being live |
| HttpServer.RefreshedLives | custom_firmware/server/index.js:122-128 | a refreshed token stays live for exactly two hours from now |
| HttpServer.Server.constructor | custom_firmware/server/index.js:14 | no tokens |
| HttpServer.Server.Authorize | custom_firmware/server/index.js:122-128 | a token passes iff recorded less than two hours ago; a passing token is refreshed to now; a failing one changes nothing |
| HttpServer.Server.IssueToken | custom_firmware/server/index.js:108-114 | the first draw that is not a live token is recorded with now, so no live session is taken over |
| HttpServer.Server.UploadFirmware | custom_firmware/server/index.js:66-78 | the upload goes ahead iff the query's token is live, which refreshes it; otherwise 401 |
| HttpServer.Server.End | custom_firmware/server/index.js:91-141 | unparsable bodies give 500; a login with a wrong password gives 401, and with the right one a fresh token; a logout drops the token; other calls need a live token (401 otherwise), refresh it, and reach the settings or version handlers or get 404. A settings form changes the password, the /PASSWORD writes and the scheduled Wi-Fi updates as SetSettings does |
| HttpServer.InheritedNamePasses | custom_firmware/server/index.js:122-128 | a name such as "constructor", never issued, passes the check as written and is not live |
| HttpServer.PassesAsWrittenElsewhere | custom_firmware/server/index.js:67-68 | for every other token the check as written is exactly LiveIn |

## Left out

- I/O and foreign APIs are events the environment delivers: CAN, SPI, I2C, GPIO, OPC-UA, the file system, the HTTP server and `lowsys`. The same goes for real timers. Timer ids, restarts after I2C errors, the 2000 ms start delay and the 90 s poll are not modelled; only which event leads to what is.
- Randomness: `crypto.randomBytes` is the parameter `draws` of the login.
- HttpServer.Server.IssueToken: requires that some draw is not a live token. The source keeps drawing until one is; with 96-bit tokens that needs no second draw in practice.
- Clocks: times are parameters (`now`, edge stamps).
- JSON parsing and serialisation: the body arrives parsed, or as None for a parse error. Replies are datatypes.
- Non-string JSON values of the settings fields are not modelled. Neither is a missing `settings` or `wifi` object, which throws in the source.
- In the session table, a missing `token` field is looked up as the property "undefined". The model takes the token as a string.
- HttpServer.Receive: only a flag stands for the 500 answers. The source sends one for every chunk from the limit on.
- HttpServer.Server.End: runs on whatever `Receive` kept, even after a 500, as the source does. The model does not join the two handlers.
- Login compares with `!=`, where a number equal to a numeric password would also pass. The model compares strings or their absence only.
- Floating point:
  - Edge stamps and the NMEA angles are `real`.
  - DHT `_mult` and the `/256` scaling are not modelled.
  - Nmea.Tenths: rounds with floor, not with `| 0`. It is the same for non-negative values below 2^31 tenths of a second, and latitudes and longitudes stay far below that.
- Text is strings of characters. UTF-16 surrogates are not modelled, and neither are `charCodeAt` of non-ASCII characters beyond their code point.
- TmclDriver: device ids are bytes. Replies carry the device as one byte, so a driver for a larger id could never be answered.
- TmclDriver: the Promise side of `transmit` is not modelled; a returned request id stands for the callback. Nor is `can.emit('error')`, which is unreachable because every request holds a callback.
- Buffer writes: the model takes lowjs's `writeUInt8` and `writeUInt32BE` to store a value modulo 2^8 and 2^32, without a range check; Node.js since version 10 throws a RangeError instead, which the model does not follow. This is one assumption for all the drivers:
  - TmclDriver.Driver.Transmit: values are stored modulo 2^32;
  - RotaryEncoder.RgbFrame: colour values are stored modulo 256.
- Dht11.Sensor.Start: stores the documented repeat delay, Dht11_22.StartDelay, not the 0 ms that dht11.js:115 stores for any given delay (see Findings; the as-written rule is Dht11.StartDelayAsWritten).
- Oled.Open: returns a display for 64x48 and 128x32, with the corrected multiplex ratio of Oled.InitSpec. The source throws a ReferenceError for both sizes (lines 78 and 102), so no display of those sizes is ever built there (see Findings; the as-written rule is Oled.InitAsWritten).
- Oled.Display.constructor: sends the corrected set-up sequence for 64x48 and 128x32, for the same reason as Oled.Open.
- RotaryEncoder.Encoder.StatusRead: classifies with the corrected Classify (bit 4), so status 0x04 reports no event and reads nothing; the source reads the position (see Findings; the as-written rule is RotaryEncoder.ClassifyAsWritten).
- RotaryEncoder.Encoder.PositionRead: reports the corrected offset, so a step up from 100 to 0 is +1; the source reports -1 (see Findings; the as-written rule is RotaryEncoder.OffsetAsWritten).
- HttpServer.HandleStatic: serves the pathname with its type (the corrected StaticFile), so `GET /main.js?v=2` is JavaScript from "/main.js"; the source types it text/plain and looks up "/main.js?v=2" (see Findings; the as-written rule is HttpServer.StaticFileAsWritten).
- HttpServer.Server.Authorize: checks own keys only (LiveIn), so an inherited property name such as "constructor" or "__proto__" is refused; the source lets it through (see Findings; the as-written rule is HttpServer.PassesAsWritten). Engine-specific extra properties of Object.prototype are not listed in INHERITED.
- HttpServer.Server.UploadFirmware: uses the same own-key check as HttpServer.Server.Authorize, so `?token=constructor` gets 401.
- HttpServer.Server.End: uses the same own-key check as HttpServer.Server.Authorize, so `{"token": "constructor"}` gets 401.
- TmclScenarios.MoveWaitsForTargetReached: reports its resolutions as a ghost out-parameter. It does not state that the completed key leaves the table.
- X20BC008U:
  - holes in the device array and NaN positions, from a browse name without a number after "ST", are not modelled;
  - negative positions, from "ST0", are kept as map keys;
  - the waiting for Ethernet is left to the environment.
- X20BC008U.Controller.OutputReady: does not check the client, as in the source (the callback at lines 264-268 has no client test).
- Oled.Display.constructor: leaves the initial contents of a fresh Buffer unmodelled.
- Oled: the SPI transfer callbacks and the byte-at-a-time command writes are not modelled. The command bytes are one transfer.
- RotaryEncoder: logging and `destroy` are not modelled, and neither are the I2C restarts between retries.
- Debounce: the pin mode and the timer id are not modelled. The timer's start is counted.
- The remaining modules (HC-SR04, radar, HSV animation, UART loops, OPC-UA tree printing, the web front end, the firmware update handlers) are not part of this model.

## Findings

| source | as written | input that shows it | evidently intended | confidence | as-written member | corrected member |
|---|---|---|---|---|---|---|
| drivers/sensors/dht11.js:115 | `waitMS === undefined ? 1000 : 0` ignores the given delay | `start(cb, 5000)` repeats after 0 ms | the delay given, 1000 ms by default, as the comment at line 107 and dht11_22.js:109-113 have it | high, not executed | Dht11.StartDelayIgnoresWait | Dht11_22.StartDelay |
| spi_oled_ssd1306_sh1106.js:78 | the 64x48 and 128x32 branches send `DISPLAY_HEIGHT - 1`, a name that is not defined | `new OLEDDisplay(spi, {width: 64, height: 48})` throws a ReferenceError | the multiplex ratio `this.height - 1`, as the 128x64 branch at line 135 has it | high, not executed | Oled.SmallPanelRefused | Oled.InitSpec |
| drivers/input/i2cRotaryEncoder.ts:226 | `dataRead[0] & 8 \|\| dataRead[0] && 16` is true for every non-zero status | status 0x04 (double push, no rotation bit) reads the position | `dataRead[0] & 16`, a test of the second rotation bit | medium, not executed | RotaryEncoder.DoublePushReadsPosition | RotaryEncoder.ClassifySpec |
| drivers/input/i2cRotaryEncoder.ts:201-202 | a jump above 50 becomes +1 and below -50 becomes -1 | one step up from the maximum 100 wraps to 0 and is reported as -1 | the wrap inverts the jump's sign: above 50 is one step down, below -50 one step up | medium, not executed | RotaryEncoder.WrapUpReportedDown | RotaryEncoder.OffsetSpec |
| custom_firmware/server/index.js:19 | `var url = url == '/' ? '/index.html' : req.url` uses the full request URL, query string included | `GET /main.js?v=2` is typed "text/plain" and looked up as the file "/main.js?v=2" | the path, `url`, so the query string plays no part | medium, not executed | HttpServer.QueryStringServedAsText | HttpServer.StaticTypeFollowsPath |
| custom_firmware/server/index.js:122-123 | `gLoginTokens` is a plain `{}`, and the check refuses only `tim === undefined` or `now - tim >= SESSION_TIMEOUT_MS` | `{"token": "constructor"}` looks up a function, `now - tim` is NaN, and the call reaches SetSettings without a login; `?token=constructor` reaches the firmware upload the same way (lines 67-68) | only tokens issued by a login within two hours pass: an own-key lookup | high, not executed | HttpServer.InheritedNamePasses | HttpServer.Server.Authorize |
