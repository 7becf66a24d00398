# BNO080 SHTP driver — a verified Dafny model

This project models the driver core of a Rust crate for the BNO080 sensor hub
(`src/wrapper.rs`). The driver speaks the Sensor Hub Transport Protocol (SHTP)
over an abstract sensor interface. The model covers:

- **Driver state.** Class `Wrapper.Bno080` has one u8 sequence counter per
  channel (6 channels), a 256-byte send buffer and a 1024-byte receive buffer,
  all as arrays. It also has the two flags `deviceReset` and
  `prodIdVerified`.
- **Frame builder.** `SendPacket` bumps the channel's counter, writes the
  header `[len lo, len hi, channel, seq]` and the body into the send buffer,
  and hands exactly those bytes to the interface.
- **Command encoders.**
  - `EnableReport` and `EnableRotationVector` send the 17-byte set-feature
    command.
  - `SoftReset` sends `[0x01]` on the executable channel.
  - `VerifyProductId` sends `[0xF9, 0x00]` on the hub-control channel and
    checks the reply.
- **Receive dispatcher.**
  - `HandleReceivedPacket` routes a frame on channel, then on report id. It
    sets `deviceReset` on (channel 1, report 1) and `prodIdVerified` on
    (channel 2, report 0xF8).
  - `HandleAdvertiseResponse` walks the tag/length/value records of an
    advertisement.
  - `HandleInputReport` reads only the report id of a sensor report.
- **Polling and handshake.** `ReceivePacket`, `EatOneMessage`,
  `EatAllMessages`, `HandleOneMessage` and `Init`. `Init` runs setup, soft
  reset, discards one frame, drains the advertisement burst, then verifies
  the product id.

The pure parts live in module `Shtp`:

- the header and frame layout;
- the set-feature body;
- the routing decision `RouteOf`;
- the advertisement walk `AdvertiseWalk`;
- the flag effect `Dispatch`;
- the u8 counter.

Each stateful method of `Bno080` is specified against those functions.

The sensor interface is module `Transport`: class `SensorInterface` is a
scripted transport. It has:

- the outcome of `setup`;
- a queue of outcomes for successive sends (an exhausted queue means success);
- a queue of read results, each either a frame or an error (an exhausted
  queue reads as an empty frame);
- a log of every frame handed to it.

Module `WrapperTests` restates the crate's advertisement test as proved
members, plus two proved properties of the handshake: what `init` sends on a
fresh driver, and when it accepts the product-id reply.

Modelling choices:

- **Counter overflow.** `sequence_numbers[ch] += 1` on a u8 is taken with
  release-build wrap-around (`NextSeq` is `+1 mod 256`). A debug build would
  panic at 255 instead.
- **Out-of-bounds reads become `Truncated`.** The source indexes the received
  frame without checks: `msg[2]` and `msg[4]`, `msg[6]` of a 0xF1 command
  response, `msg[9]` of a sensor report, and the length byte after the last
  tag of an advertisement. Where the source would panic, the model routes the
  frame as `Route.Truncated` and changes no state.
- **Caller obligations.** `received_len <= 1024` is an invariant of the
  interface: it reads into the 1024-byte buffer, so it never delivers a longer
  frame. `channel < 6` and `body_len + 4 <= 256` are `requires` clauses of
  `SendPacket`.
- **Header length.** `PACKET_HEADER_LENGTH` lives in `crate::interface`,
  which is not part of this model. It is taken as 4, the size of the header
  `send_packet` writes.
- **`init` never sets `device_reset`.** `eat_one_message` and
  `eat_all_messages` read frames without dispatching them, so `init` never
  sets `device_reset`. `Init`'s contract states this (`deviceReset ==
  old(deviceReset)`).
- **The product-id check ignores the reply's channel.** `verify_product_id`
  checks only receive-buffer byte 4, whatever channel the reply came on. The
  model does the same.
- **Malformed advertisements follow the code.** A record whose length runs
  past the payload end simply ends the walk past the end, with no error. Only
  a tag that is the last payload byte makes the source read out of bounds,
  and only that becomes `Truncated`.
- **Oversized bodies follow the code.** A body that does not fit the send
  buffer is a precondition violation (the source panics on the slice), not an
  error value.

## Model

| member | source | states |
|---|---|---|
| Shtp.NextSeq | src/wrapper.rs:246 | the u8 increment: a counter below 255 goes up by one, and 255 wraps to 0 |
| Shtp.SeqAfterWraps | src/wrapper.rs:246 | after n sends on a channel its counter has advanced by exactly n modulo 256, whatever its start |
| Shtp.Header | src/wrapper.rs:247-253 | the header is 4 bytes: bytes 0 and 1 read back little-endian give the frame length (any length below 65536), byte 2 is the channel and byte 3 the sequence number |
| Shtp.Frame | src/wrapper.rs:247-258 | the frame handed to the transport is the header for length body + 4, followed by the body unchanged; FrameRoundTrip reads every field back from it |
| Shtp.FrameRoundTrip | src/wrapper.rs:243-258 | reading a built frame back recovers its length field (body length + 4), its channel, its sequence number and its body |
| Shtp.U32BytesRoundTrip | src/wrapper.rs:225-228 | the four bytes `(x >> 8k) & 0xFF` of a u32, read little-endian, give x back |
| Shtp.SetFeatureBody | src/wrapper.rs:217-237 | the body is 17 bytes: byte 0 is 0xFD and byte 1 the report id; bytes 5..8 read little-endian give the interval in microseconds (millis * 1000, which always fits a u32); every other byte is zero |
| Shtp.SetFeatureFrameLayout | src/wrapper.rs:217-239 | the set-feature frame is 21 bytes on channel 2 with length bytes 21 and 0; the command, id and little-endian interval sit at frame bytes 4, 5 and 9..12; all else in the body is zero |
| Shtp.RotationVectorEvery100ms | src/wrapper.rs:212-237 | enabling the rotation vector every 100 ms encodes 100000 µs as A0 86 01 00 in an otherwise zero set-feature body |
| Shtp.AdvertiseWalk | src/wrapper.rs:98-110 | the advertisement loop from a cursor either ends at a position no smaller than both the start and the payload length, and below payload length + 256 once it has taken a step, or fails (a tag is the last byte) only when it started inside the payload |
| Shtp.RouteOf | src/wrapper.rs:134-185 | each route holds exactly for its byte pattern: a sensor report for a channel-3 frame of at least 10 bytes, with report id byte 9; an advertisement for channel 0, report 0, when the walk succeeds; reset complete for (1, 1); product-id response for (2, 0xF8); startup or other command response on (2, 0xF1) by byte 6; the ignored arms carry byte 4; unknown channels are those above 3. TruncatedIff, Dispatch and Bno080.HandleReceivedPacket characterize it further |
| Shtp.TruncatedIff | src/wrapper.rs:134-187 | a frame is routed as unreadable exactly when it is shorter than 5 bytes, is a sensor report shorter than 10, is a 0xF1 response shorter than 7, or is an advertisement whose walk would read past its end |
| Shtp.Dispatch | src/wrapper.rs:134-187 | after dispatch deviceReset holds iff it held or the frame is (channel 1, report 1); prodIdVerified holds iff it held or the frame is (channel 2, report 0xF8) |
| Shtp.DispatchIgnores | src/wrapper.rs:140-185 | a frame shorter than 5 bytes, any frame on channel 0, channel 3 or an unknown channel, and any other id than 1 on channel 1 or than 0xF8 on channel 2 (command responses with and without the startup sub-code included) leaves both flags as they were |
| Shtp.DispatchIdempotent | src/wrapper.rs:154-176 | delivering the same frame twice has the effect of delivering it once |
| Shtp.DispatchMonotone | src/wrapper.rs:154-176 | dispatching a frame never clears a flag |
| Transport.SensorInterface.Setup | src/wrapper.rs:195 | setup reports the interface's scripted setup outcome |
| Transport.SensorInterface.SendPacket | src/wrapper.rs:257-259 | a send appends the frame to the log, consumes one scripted send outcome, and reports it |
| Transport.AfterRead | src/wrapper.rs:268-270 | the buffer after a read: a received frame overwrites exactly the prefix of its length, every later byte is as before, and an error leaves the buffer whole |
| Transport.SensorInterface.ReadPacket | src/wrapper.rs:268-270 | a read consumes one scripted result; a frame overwrites exactly the buffer prefix of its length, and its length is returned; an error leaves the buffer alone |
| Wrapper.AfterReceive | src/wrapper.rs:264-270 | after a receive the buffer starts with the frame read, bytes 0 and 1 are zero when the frame does not cover them, and beyond the frame everything is as before |
| Wrapper.ProductIdVerdict | src/wrapper.rs:281-293 | the product-id check passes iff the reply is longer than the header and its first body byte is 0xF8; a read error propagates as a communication error; any other reply is InvalidChipId(0) |
| Wrapper.Drain | src/wrapper.rs:69-79 | the `eat_all_messages` loop on values: reads and discards frames, stopping after the first read that yields 0 bytes; the buffer keeps its size and the remaining script still fits it |
| Wrapper.FirstEmpty | src/wrapper.rs:70-78 | the index of the first read that yields no bytes: every earlier read yields some |
| Wrapper.DrainStopsAtFirstEmpty | src/wrapper.rs:69-79 | draining consumes the reads up to and including the first empty or failed one, and the whole script when there is none |
| Wrapper.Bno080.constructor | src/wrapper.rs:46-55 | a new driver has all counters, both buffers and both flags zero |
| Wrapper.Bno080.SendPacket | src/wrapper.rs:243-261 | only the channel's counter changes, by NextSeq, before stamping; the send buffer holds the frame and is unchanged beyond it; exactly the frame is logged; the result is body length + 4 or the send error |
| Wrapper.Bno080.EnableReport | src/wrapper.rs:217-241 | sends the set-feature frame for the report and interval on channel 2 and bumps only that channel's counter; succeeds iff the send does |
| Wrapper.Bno080.EnableRotationVector | src/wrapper.rs:212-214 | EnableReport for report 0x05 |
| Wrapper.Bno080.SoftReset | src/wrapper.rs:296-301 | sends [0x01] on channel 1, bumps only that counter, leaves both flags as they were; succeeds iff the send does |
| Wrapper.Bno080.ReceivePacket | src/wrapper.rs:264-273 | zeroes receive bytes 0 and 1, then takes one read into the buffer; returns its length or the read error |
| Wrapper.Bno080.SendAndReceivePacket | src/wrapper.rs:304-308 | a failed send returns its error and reads nothing; otherwise the result and the buffer are those of the next read |
| Wrapper.Bno080.EatOneMessage | src/wrapper.rs:63-66 | returns the length of the next read, 0 for an error or an exhausted script |
| Wrapper.Bno080.EatAllMessages | src/wrapper.rs:69-79 | buffer and remaining script end up as Drain describes: reading stops at the first read that yields 0 |
| Wrapper.Bno080.HandleAdvertiseResponse | src/wrapper.rs:98-110 | the loop stops where AdvertiseWalk says, or reports the out-of-bounds length read |
| Wrapper.Bno080.HandleInputReport | src/wrapper.rs:117-132 | yields receive byte 9, the report id after header and timestamp, exactly when the frame is longer than 9 bytes |
| Wrapper.Bno080.HandleReceivedPacket | src/wrapper.rs:134-187 | takes the route RouteOf gives the received bytes and moves the flags as Dispatch says; counters and both buffers are untouched |
| Wrapper.Bno080.HandleOneMessage | src/wrapper.rs:82-95 | returns 1, and dispatches the frame read, exactly when the read succeeds with a non-empty frame; otherwise returns 0 and every flag is unchanged |
| Wrapper.Bno080.VerifyProductId | src/wrapper.rs:275-294 | sends [F9 00] on channel 2; a send or read error propagates; otherwise the verdict on the reply; prodIdVerified is set exactly on success and never cleared |
| Wrapper.Bno080.Init | src/wrapper.rs:191-207 | a setup error sends nothing; a send error on the reset frame stops there; otherwise reset frame, one read, drain, product-id exchange; deviceReset never changes; prodIdVerified is set iff it held or init succeeds |
| WrapperTests.AdvertisingTrail | src/wrapper.rs:431-443 | a 272-byte payload with the recorded advertisement's length bytes is walked over its 25 records to exactly its end |
| WrapperTests.AdvertisingPacketWalk | src/wrapper.rs:431-443 | the recorded 276-byte advertisement has a 272-byte payload, and the walk ends exactly at 272 |
| WrapperTests.AdvertisingPacketRoute | src/wrapper.rs:431-443 | the recorded advertisement routes as an advertisement, not as an unreadable frame |
| WrapperTests.HandleAdvertisingPacket | src/wrapper.rs:414-428 | handling the recorded advertisement counts exactly one message |
| WrapperTests.InitOnFreshDriver | src/wrapper.rs:191-207 | on a fresh driver whose setup and sends succeed, init sends exactly [05 00 01 01 01] and then [06 00 02 01 F9 00], whatever it reads, and leaves the counters at [0,1,1,0,0,0] |
| WrapperTests.InitVerdictOnReply | src/wrapper.rs:275-294 | after one discarded frame and an empty read, init succeeds and sets prodIdVerified exactly when the reply's first body byte is 0xF8; otherwise it fails with InvalidChipId(0) |

## Left out

- Concrete sensor interfaces, I2C addressing and the mock port: `crate::interface` is not part of this model. Only the scripted transport stands in for them.
- Delays (`delay_ms(50)` in init, `delay_ms(1)` in the drain loop): no time is modelled, and nothing is claimed about timing.
- The transport's error type: it is carried as an uninterpreted `TransportError(code)`, never inspected.
- `InvalidFWVersion`: declared in the source but never produced, so it is not in `WrapperError`.
- Decoding of sensor payloads: the source reads only the report id of an input report. The rotation-vector arm and the other arm both do nothing, so the model returns the id and takes no action.
- The received header's length field, including its continuation bit: the source never reads it and trusts the interface's returned length.
- The `MIDPACK` test: it checks only that the mock port's read succeeds. The commented-out tests are left out too.
- A debug build's panic on counter overflow: counters wrap modulo 256.
- Panics on out-of-range indexing in the receive path: the source panics, while the model returns `Truncated` and keeps its state. So on such a frame (a 3-byte frame, say) `Bno080.HandleOneMessage` returns a count of 1 with route `Some(Truncated)`, where `handle_one_message` never returns.
- Bno080.EatAllMessages: terminates because the scripted read queue is finite and reads as empty once exhausted (`decreases |transport.incoming|`); the source's `loop` never ends while the interface keeps returning data, and that non-termination is not modelled.
- Exclusive ownership of the interface and buffers, and blocking behaviour of the interface: the model is sequential, and every object is owned by one driver.
