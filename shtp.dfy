/**
 * The Sensor Hub Transport Protocol (SHTP) as the BNO080 driver speaks it:
 * byte-level constants, the 4-byte frame header, the per-channel u8
 * sequence counter, the 17-byte "set feature" command body, and the
 * decision the receive dispatcher takes for an incoming frame.
 * Everything here is pure; the driver class in module Wrapper uses it.
 */
module Shtp {

  type byte = x: int | 0 <= x < 0x100
  type u16 = x: int | 0 <= x < 0x1_0000

  datatype Option<T> = None | Some(value: T)

  // Buffer geometry of the driver.
  const HeaderLength: nat := 4
  const SendBufLen: nat := 256
  const RecvBufLen: nat := 1024
  const NumChannels: nat := 6

  // The channels this driver uses (4 = wake reports and 5 = gyro rotation
  // vector are numbered but never used).
  const ChanCommand: byte := 0
  const ChanExecutable: byte := 1
  const ChanHubControl: byte := 2
  const ChanSensorReports: byte := 3

  // Report identifiers and command bytes.
  const ProdIdReq: byte := 0xF9
  const ProdIdResp: byte := 0xF8
  const SetFeatureCommand: byte := 0xFD
  const ReportRotationVector: byte := 0x05
  const CommandResp: byte := 0xF1
  const RespAdvertise: byte := 0
  const ExecutableCmdReset: byte := 1
  const ExecutableRespResetComplete: byte := 1

  // Sub-codes of a command response; the startup code is the bitwise OR of
  // the two, and since their bits are disjoint the OR is their sum.
  const InitUnsolicited: byte := 0x80
  const CmdInitialize: byte := 4
  const StartupInitUnsolicited: byte := CmdInitialize + InitUnsolicited

  /* ---------------------------------------------------------------------
   * Per-channel sequence numbers
   * ------------------------------------------------------------------- */

  /** `sequence_numbers[ch] += 1` on a u8, taken with the wrap-around of a
      release build (a debug build would panic on 255 instead). */
  function NextSeq(s: byte): (r: byte)
    ensures s < 0xFF ==> r == s + 1
    ensures s == 0xFF ==> r == 0
  {
    (s + 1) % 0x100
  }

  /** The counter after `n` sends on its channel. */
  function SeqAfter(s: byte, n: nat): byte
    decreases n
  {
    if n == 0 then s else NextSeq(SeqAfter(s, n - 1))
  }

  /** After `n` sends the counter has advanced by exactly `n`, modulo 256. */
  lemma {:induction false} SeqAfterWraps(s: byte, n: nat)
    ensures SeqAfter(s, n) == (s + n) % 0x100
  {
    if n > 0 {
      SeqAfterWraps(s, n - 1);
      var m := s + n - 1;
      assert m == 0x100 * (m / 0x100) + m % 0x100;
      assert m + 1 == 0x100 * (m / 0x100) + (m % 0x100 + 1);
    }
  }

  /* ---------------------------------------------------------------------
   * Frames: [len lo, len hi, channel, seq] ++ body
   * ------------------------------------------------------------------- */

  /** The 4-byte header; both length bytes are the `as u8` truncations of
      the length and of the length shifted right by 8. */
  function Header(len: nat, channel: byte, seqNum: byte): (h: seq<byte>)
    ensures |h| == HeaderLength
    ensures len < 0x1_0000 ==> h[0] as int + 0x100 * h[1] as int == len
    ensures h[2] == channel && h[3] == seqNum
  {
    [len % 0x100, (len / 0x100) % 0x100, channel, seqNum]
  }

  /** The frame `send_packet` hands to the transport. */
  function Frame(channel: byte, seqNum: byte, body: seq<byte>): (f: seq<byte>)
    ensures |f| == |body| + HeaderLength
    ensures f[..HeaderLength] == Header(|body| + HeaderLength, channel, seqNum)
    ensures f[HeaderLength..] == body
  {
    Header(|body| + HeaderLength, channel, seqNum) + body
  }

  // Reading a frame back, the way the receive side addresses it.
  function FrameLength(f: seq<byte>): nat
    requires |f| >= HeaderLength
  {
    f[0] as int + 0x100 * f[1] as int
  }

  function FrameChannel(f: seq<byte>): byte
    requires |f| >= HeaderLength
  {
    f[2]
  }

  function FrameSequence(f: seq<byte>): byte
    requires |f| >= HeaderLength
  {
    f[3]
  }

  function FrameBody(f: seq<byte>): seq<byte>
    requires |f| >= HeaderLength
  {
    f[HeaderLength..]
  }

  /** Reading a built frame back recovers its length field, channel,
      sequence number and body. */
  lemma FrameRoundTrip(channel: byte, seqNum: byte, body: seq<byte>)
    requires |body| + HeaderLength < 0x1_0000
    ensures |Frame(channel, seqNum, body)| == |body| + HeaderLength
    ensures FrameLength(Frame(channel, seqNum, body)) == |body| + HeaderLength
    ensures FrameChannel(Frame(channel, seqNum, body)) == channel
    ensures FrameSequence(Frame(channel, seqNum, body)) == seqNum
    ensures FrameBody(Frame(channel, seqNum, body)) == body
  {
    var f := Frame(channel, seqNum, body);
    assert f[..HeaderLength] == Header(|body| + HeaderLength, channel, seqNum);
    assert f[HeaderLength..] == body;
  }

  /* ---------------------------------------------------------------------
   * The "set feature" command
   * ------------------------------------------------------------------- */

  /** Little-endian value of four bytes. */
  function LittleEndian32(b: seq<byte>): nat
    requires |b| == 4
  {
    b[0] as int + 0x100 * (b[1] as int + 0x100 * (b[2] as int + 0x100 * b[3] as int))
  }

  /** The four bytes `(x >> 8k) & 0xFF`, k = 0..3, of a u32. */
  function U32Bytes(x: nat): seq<byte>
  {
    [x % 0x100, (x / 0x100) % 0x100, (x / 0x1_0000) % 0x100, (x / 0x100_0000) % 0x100]
  }

  /** Splitting a u32 into its bytes and reading them little-endian gives
      the number back. */
  lemma U32BytesRoundTrip(x: nat)
    requires x < 0x1_0000_0000
    ensures LittleEndian32(U32Bytes(x)) == x
  {
  }

  /** The 17-byte body of a set-feature command asking for report
      `reportId` every `millisBetweenReports` milliseconds. */
  function SetFeatureBody(reportId: byte, millisBetweenReports: u16): (body: seq<byte>)
    ensures |body| == 17
    ensures body[0] == SetFeatureCommand && body[1] == reportId
    ensures millisBetweenReports * 1000 < 0x1_0000_0000
    ensures LittleEndian32(body[5..9]) == millisBetweenReports * 1000
    ensures forall i | 0 <= i < 17 && !(i == 0 || i == 1 || 5 <= i < 9) :: body[i] == 0
  {
    var micros := millisBetweenReports * 1000;
    U32BytesRoundTrip(micros);
    [SetFeatureCommand, reportId,
     0,                   // feature flags
     0, 0]                // change sensitivity
    + U32Bytes(micros)    // report interval, microseconds
    + [0, 0, 0, 0,        // batch interval
       0, 0, 0, 0]        // sensor-specific configuration
  }

  /** The frame `enable_report` sends: 21 bytes on the hub-control channel,
      the set-feature command and report id first in the body, the interval
      in microseconds little-endian at body bytes 5..8, zero elsewhere. */
  lemma SetFeatureFrameLayout(reportId: byte, millisBetweenReports: u16, seqNum: byte)
    ensures var f := Frame(ChanHubControl, seqNum, SetFeatureBody(reportId, millisBetweenReports));
      && |f| == 21 && f[0] == 21 && f[1] == 0 && f[2] == ChanHubControl && f[3] == seqNum
      && f[4] == SetFeatureCommand && f[5] == reportId
      && LittleEndian32(f[9..13]) == millisBetweenReports * 1000
      && forall i | 4 <= i < 21 && !(i == 4 || i == 5 || 9 <= i < 13) :: f[i] == 0
  {
    var body := SetFeatureBody(reportId, millisBetweenReports);
    var f := Frame(ChanHubControl, seqNum, body);
    assert f[HeaderLength..] == body;
    assert f[9..13] == body[5..9];
  }

  /** Rotation vector every 100 ms: bytes 5..8 of the body are 100000
      little-endian, A0 86 01 00. */
  lemma RotationVectorEvery100ms()
    ensures SetFeatureBody(ReportRotationVector, 100) ==
      [0xFD, 0x05, 0, 0, 0, 0xA0, 0x86, 0x01, 0x00, 0, 0, 0, 0, 0, 0, 0, 0]
  {
  }

  /* ---------------------------------------------------------------------
   * The advertisement walk: tag/length/value records from offset 1
   * ------------------------------------------------------------------- */

  /** Where the cursor of the advertisement loop ends, or None when a tag
      is the last byte of the payload, so that reading its length byte
      would index past the end. */
  function AdvertiseWalk(payload: seq<byte>, cursor: nat): (end: Option<nat>)
    ensures end.Some? ==> cursor <= end.value && |payload| <= end.value
    ensures end.Some? ==> end.value == cursor || end.value < |payload| + 0x100
    ensures end.None? ==> cursor < |payload|
    decreases |payload| - cursor
  {
    if cursor >= |payload| then Some(cursor)
    else if cursor + 1 >= |payload| then None
    else AdvertiseWalk(payload, cursor + 2 + payload[cursor + 1])
  }

  /** One step of the walk: from a record at `cursor` it moves past tag,
      length byte and value. */
  lemma AdvertiseStep(payload: seq<byte>, cursor: nat)
    requires cursor + 1 < |payload|
    ensures AdvertiseWalk(payload, cursor) == AdvertiseWalk(payload, cursor + 2 + payload[cursor + 1])
  {
  }

  /* ---------------------------------------------------------------------
   * Routing of a received frame
   * ------------------------------------------------------------------- */

  /** The branch the receive dispatcher takes for a frame. `Truncated` is
      a frame too short for a byte the dispatcher reads (the source would
      index out of bounds and panic); the other arms are the source's match
      arms, with an explicit arm per ignored identifier. */
  datatype Route =
    | Truncated
    | SensorReport(reportId: byte)
    | Advertisement
    | CommandIgnored(reportId: byte)
    | ResetComplete
    | ExecutableIgnored(reportId: byte)
    | StartupUnsolicited
    | CommandResponse(subCode: byte)
    | ProductIdResponse
    | HubControlIgnored(reportId: byte)
    | UnknownChannel(channel: byte)

  /** The dispatch decision for `msg`, the first `received_len` bytes of the
      receive buffer: channel at byte 2, report id at byte 4. */
  function RouteOf(msg: seq<byte>): (r: Route)
    ensures r.SensorReport? <==> |msg| >= 10 && msg[2] == ChanSensorReports
    ensures r.SensorReport? ==> r.reportId == msg[9]
    ensures r == Advertisement <==>
      |msg| >= 5 && msg[2] == ChanCommand && msg[4] == RespAdvertise && AdvertiseWalk(msg[4..], 1).Some?
    ensures r.CommandIgnored? <==> |msg| >= 5 && msg[2] == ChanCommand && msg[4] != RespAdvertise
    ensures r == ResetComplete <==>
      |msg| >= 5 && msg[2] == ChanExecutable && msg[4] == ExecutableRespResetComplete
    ensures r.ExecutableIgnored? <==>
      |msg| >= 5 && msg[2] == ChanExecutable && msg[4] != ExecutableRespResetComplete
    ensures r == StartupUnsolicited <==>
      |msg| >= 7 && msg[2] == ChanHubControl && msg[4] == CommandResp && msg[6] == StartupInitUnsolicited
    ensures r.CommandResponse? <==>
      |msg| >= 7 && msg[2] == ChanHubControl && msg[4] == CommandResp && msg[6] != StartupInitUnsolicited
    ensures r.CommandResponse? ==> r.subCode == msg[6]
    ensures r == ProductIdResponse <==> |msg| >= 5 && msg[2] == ChanHubControl && msg[4] == ProdIdResp
    ensures r.HubControlIgnored? <==>
      |msg| >= 5 && msg[2] == ChanHubControl && msg[4] != CommandResp && msg[4] != ProdIdResp
    ensures r.CommandIgnored? || r.ExecutableIgnored? || r.HubControlIgnored? ==> r.reportId == msg[4]
    ensures r.UnknownChannel? <==> |msg| >= 5 && msg[2] > ChanSensorReports
    ensures r.UnknownChannel? ==> r.channel == msg[2]
  {
    if |msg| < HeaderLength + 1 then Truncated
    else
      var channel := FrameChannel(msg);
      var reportId := msg[HeaderLength];
      if channel == ChanSensorReports then
        // 5 timestamp bytes precede the report id of an input report
        if |msg| < HeaderLength + 5 + 1 then Truncated
        else SensorReport(msg[HeaderLength + 5])
      else if channel == ChanCommand then
        if reportId == RespAdvertise then
          if AdvertiseWalk(FrameBody(msg), 1).Some? then Advertisement else Truncated
        else CommandIgnored(reportId)
      else if channel == ChanExecutable then
        if reportId == ExecutableRespResetComplete then ResetComplete
        else ExecutableIgnored(reportId)
      else if channel == ChanHubControl then
        if reportId == CommandResp then
          if |msg| < 7 then Truncated
          else if msg[6] == StartupInitUnsolicited then StartupUnsolicited
          else CommandResponse(msg[6])
        else if reportId == ProdIdResp then ProductIdResponse
        else HubControlIgnored(reportId)
      else UnknownChannel(channel)
  }

  /** Exactly the frames the dispatcher cannot read without indexing past
      their end are routed `Truncated`. */
  lemma TruncatedIff(msg: seq<byte>)
    ensures RouteOf(msg) == Truncated <==>
      || |msg| < 5
      || (msg[2] == ChanSensorReports && |msg| < 10)
      || (msg[2] == ChanHubControl && msg[4] == CommandResp && |msg| < 7)
      || (msg[2] == ChanCommand && msg[4] == RespAdvertise && AdvertiseWalk(msg[4..], 1).None?)
  {
  }

  /* ---------------------------------------------------------------------
   * The two device flags and the effect of dispatching a frame on them
   * ------------------------------------------------------------------- */

  datatype Flags = Flags(deviceReset: bool, prodIdVerified: bool)

  /** The flags after the dispatcher has handled `msg`. Only a reset-complete
      report on the executable channel sets `deviceReset`, only a product-id
      response on the hub-control channel sets `prodIdVerified`, and nothing
      clears either. */
  function Dispatch(f: Flags, msg: seq<byte>): (r: Flags)
    ensures r.deviceReset <==>
      f.deviceReset || (|msg| >= 5 && msg[2] == ChanExecutable && msg[4] == ExecutableRespResetComplete)
    ensures r.prodIdVerified <==>
      f.prodIdVerified || (|msg| >= 5 && msg[2] == ChanHubControl && msg[4] == ProdIdResp)
  {
    match RouteOf(msg)
    case ResetComplete => f.(deviceReset := true)
    case ProductIdResponse => f.(prodIdVerified := true)
    case _ => f
  }

  /** A frame leaves the flags as they were when it is too short for a
      report id, or is on the command channel, the sensor-report channel or
      an unknown channel, or carries any other id than the flag-setting one
      on the executable or hub-control channel (which includes command
      responses with and without the startup sub-code). */
  lemma DispatchIgnores(f: Flags, msg: seq<byte>)
    requires
      || |msg| < 5
      || msg[2] == ChanCommand
      || msg[2] == ChanSensorReports
      || msg[2] > ChanHubControl
      || (msg[2] == ChanExecutable && msg[4] != ExecutableRespResetComplete)
      || (msg[2] == ChanHubControl && msg[4] != ProdIdResp)
    ensures Dispatch(f, msg) == f
  {
  }

  /** Delivering the same frame twice has the effect of delivering it once. */
  lemma DispatchIdempotent(f: Flags, msg: seq<byte>)
    ensures Dispatch(Dispatch(f, msg), msg) == Dispatch(f, msg)
  {
  }

  /** Dispatch never clears a flag. */
  lemma DispatchMonotone(f: Flags, msg: seq<byte>)
    ensures f.deviceReset ==> Dispatch(f, msg).deviceReset
    ensures f.prodIdVerified ==> Dispatch(f, msg).prodIdVerified
  {
  }
}
