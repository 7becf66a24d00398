/**
 * The BNO080 driver: per-channel sequence counters, the two device flags,
 * a 256-byte send buffer and a 1024-byte receive buffer, over a sensor
 * interface. Sending builds a frame in the send buffer; receiving reads a
 * frame into the receive buffer and dispatches it on channel and report id;
 * `Init` runs the reset / drain / product-id handshake.
 */
module Wrapper {
  import opened Shtp
  import opened Transport

  datatype WrapperError =
    | CommError(error: TransportError)
    | InvalidChipId(id: byte)

  datatype Result<T> = Ok(value: T) | Err(error: WrapperError)

  /** `send_packet`'s result for a transport send outcome. */
  function SendResult(o: Outcome, packetLength: nat): (r: Result<nat>)
    ensures r.Ok? <==> o.Pass?
    ensures r.Ok? ==> r.value == packetLength
    ensures r.Err? ==> r.error == CommError(o.error)
  {
    match o
    case Pass => Ok(packetLength)
    case Fail(e) => Err(CommError(e))
  }

  /** The `()`-valued result of a command that only sends. */
  function SendStatus(o: Outcome): (r: Result<()>)
    ensures r.Ok? <==> o.Pass?
    ensures r.Err? ==> r.error == CommError(o.error)
  {
    match o
    case Pass => Ok(())
    case Fail(e) => Err(CommError(e))
  }

  /** `receive_packet`'s result for what the transport read. */
  function ReceiveResult(rr: ReadResult): (r: Result<nat>)
    ensures r.Ok? <==> rr.Received?
    ensures r.Ok? ==> r.value == |rr.bytes|
    ensures r.Err? ==> r.error == CommError(rr.error)
  {
    match rr
    case Received(bytes) => Ok(|bytes|)
    case ReadFailed(e) => Err(CommError(e))
  }

  /** The verdict of `verify_product_id` on the reply it read: a reply
      longer than the header whose first body byte is the product-id
      response code; a read error propagates; anything else is an invalid
      chip id (reported as 0, the id byte is not read). */
  function ProductIdVerdict(rr: ReadResult): (r: Result<()>)
    ensures r.Ok? <==> rr.Received? && |rr.bytes| > HeaderLength && rr.bytes[HeaderLength] == ProdIdResp
    ensures rr.ReadFailed? ==> r == Err(CommError(rr.error))
    ensures rr.Received? && r.Err? ==> r.error == InvalidChipId(0)
  {
    match rr
    case ReadFailed(e) => Err(CommError(e))
    case Received(bytes) =>
      if |bytes| > HeaderLength && bytes[HeaderLength] == ProdIdResp then Ok(())
      else Err(InvalidChipId(0))
  }

  /** The receive buffer once `receive_packet` has cleared bytes 0 and 1
      and the transport has read `rr` into it. */
  function AfterReceive(buf: seq<byte>, rr: ReadResult): (b: seq<byte>)
    requires |buf| == RecvBufLen
    requires rr.Received? ==> |rr.bytes| <= RecvBufLen
    ensures |b| == RecvBufLen
    ensures rr.Received? ==> b[..|rr.bytes|] == rr.bytes
    ensures b[0] == (if ReadLength(rr) > 0 then rr.bytes[0] else 0)
    ensures b[1] == (if ReadLength(rr) > 1 then rr.bytes[1] else 0)
    ensures forall k | 2 <= k < RecvBufLen && ReadLength(rr) <= k :: b[k] == buf[k]
  {
    AfterRead(buf[0 := 0][1 := 0], rr)
  }

  /** Receive buffer and remaining read script after `eat_all_messages`:
      it keeps reading until a read yields no bytes (an error counts as
      none), that read included. */
  function Drain(buf: seq<byte>, q: seq<ReadResult>): (r: (seq<byte>, seq<ReadResult>))
    requires |buf| == RecvBufLen && FramesFit(q, RecvBufLen)
    ensures |r.0| == RecvBufLen && FramesFit(r.1, RecvBufLen)
    decreases |q|
  {
    var next := NextRead(q);
    var buf' := AfterReceive(buf, next);
    if ReadLength(next) == 0 then (buf', RestAfterRead(q))
    else Drain(buf', q[1..])
  }

  /** The index of the first read that yields no bytes, or |q| if none. */
  function FirstEmpty(q: seq<ReadResult>): (k: nat)
    ensures k <= |q|
    ensures forall i | 0 <= i < k :: ReadLength(q[i]) > 0
    ensures k < |q| ==> ReadLength(q[k]) == 0
    decreases |q|
  {
    if q == [] || ReadLength(q[0]) == 0 then 0 else 1 + FirstEmpty(q[1..])
  }

  /** The drain stops at the first empty read: it consumes every read up to
      and including that one, and the whole script when there is none. */
  lemma {:induction false} DrainStopsAtFirstEmpty(buf: seq<byte>, q: seq<ReadResult>)
    requires |buf| == RecvBufLen && FramesFit(q, RecvBufLen)
    ensures Drain(buf, q).1 == if FirstEmpty(q) < |q| then q[FirstEmpty(q) + 1..] else []
    decreases |q|
  {
    if q != [] && ReadLength(q[0]) != 0 {
      var buf' := AfterReceive(buf, q[0]);
      DrainStopsAtFirstEmpty(buf', q[1..]);
      var k := FirstEmpty(q[1..]);
      assert FirstEmpty(q) == k + 1;
      if k < |q[1..]| {
        assert q[1..][k + 1..] == q[k + 2..];
      }
    }
  }

  class Bno080 {
    const transport: SensorInterface
    /** One u8 sequence counter per channel. */
    const sequenceNumbers: array<byte>
    const sendBuf: array<byte>
    const recvBuf: array<byte>
    var deviceReset: bool
    var prodIdVerified: bool

    ghost predicate Valid()
      reads this, transport
    {
      && sequenceNumbers.Length == NumChannels
      && sendBuf.Length == SendBufLen
      && recvBuf.Length == RecvBufLen
      && sequenceNumbers != sendBuf && sequenceNumbers != recvBuf && sendBuf != recvBuf
      && transport.Valid()
    }

    function State(): Flags
      reads this
    {
      Flags(deviceReset, prodIdVerified)
    }

    /** `new_with_interface`: all counters, buffers and flags zero. */
    constructor (transport: SensorInterface)
      requires transport.Valid()
      ensures Valid() && this.transport == transport
      ensures fresh(sequenceNumbers) && fresh(sendBuf) && fresh(recvBuf)
      ensures sequenceNumbers[..] == [0, 0, 0, 0, 0, 0]
      ensures sendBuf[..] == seq(SendBufLen, _ => 0)
      ensures recvBuf[..] == seq(RecvBufLen, _ => 0)
      ensures State() == Flags(false, false)
    {
      this.transport := transport;
      sequenceNumbers := new byte[NumChannels](_ => 0);
      sendBuf := new byte[SendBufLen](_ => 0);
      recvBuf := new byte[RecvBufLen](_ => 0);
      deviceReset := false;
      prodIdVerified := false;
      new;
      assert sequenceNumbers[..] == [0, 0, 0, 0, 0, 0];
    }

    /* -------------------------------------------------------------------
     * Sending
     * ----------------------------------------------------------------- */

    /** Bumps the channel's counter, writes header and body into the send
        buffer and hands the frame to the transport. The channel must index
        the counter array and the frame must fit in the send buffer. */
    method SendPacket(channel: byte, body: seq<byte>) returns (r: Result<nat>)
      requires Valid()
      requires channel < NumChannels
      requires |body| + HeaderLength <= SendBufLen
      modifies sequenceNumbers, sendBuf, transport
      ensures Valid()
      ensures sequenceNumbers[..] == old(sequenceNumbers[..])[channel := NextSeq(old(sequenceNumbers[channel]))]
      ensures sendBuf[..] == Frame(channel, sequenceNumbers[channel], body) + old(sendBuf[..])[|body| + HeaderLength..]
      ensures transport.sent == old(transport.sent) + [Frame(channel, sequenceNumbers[channel], body)]
      ensures transport.sendOutcomes == RestAfterSend(old(transport.sendOutcomes))
      ensures transport.incoming == old(transport.incoming)
      ensures transport.setupResult == old(transport.setupResult)
      ensures r == SendResult(NextSend(old(transport.sendOutcomes)), |body| + HeaderLength)
    {
      sequenceNumbers[channel] := NextSeq(sequenceNumbers[channel]);
      var packetLength := |body| + HeaderLength;
      var header := Header(packetLength, channel, sequenceNumbers[channel]);
      sendBuf[0] := header[0];
      sendBuf[1] := header[1];
      sendBuf[2] := header[2];
      sendBuf[3] := header[3];
      for i := 0 to |body|
        modifies sendBuf
        invariant sendBuf[..HeaderLength] == header
        invariant sendBuf[HeaderLength..HeaderLength + i] == body[..i]
        invariant forall k | HeaderLength + i <= k < SendBufLen :: sendBuf[k] == old(sendBuf[k])
      {
        sendBuf[HeaderLength + i] := body[i];
      }
      assert sendBuf[..packetLength] == Frame(channel, sequenceNumbers[channel], body);
      assert sendBuf[..] == sendBuf[..packetLength] + old(sendBuf[..])[packetLength..];
      var outcome := transport.SendPacket(sendBuf[..packetLength]);
      r := SendResult(outcome, packetLength);
    }

    /** `enable_report`: a set-feature command on the hub-control channel. */
    method EnableReport(reportId: byte, millisBetweenReports: u16) returns (r: Result<()>)
      requires Valid()
      modifies sequenceNumbers, sendBuf, transport
      ensures Valid()
      ensures sequenceNumbers[..] == old(sequenceNumbers[..])[ChanHubControl := NextSeq(old(sequenceNumbers[ChanHubControl]))]
      ensures sendBuf[..] ==
        Frame(ChanHubControl, sequenceNumbers[ChanHubControl], SetFeatureBody(reportId, millisBetweenReports))
        + old(sendBuf[..])[17 + HeaderLength..]
      ensures transport.sent == old(transport.sent)
        + [Frame(ChanHubControl, sequenceNumbers[ChanHubControl], SetFeatureBody(reportId, millisBetweenReports))]
      ensures transport.sendOutcomes == RestAfterSend(old(transport.sendOutcomes))
      ensures transport.incoming == old(transport.incoming)
      ensures transport.setupResult == old(transport.setupResult)
      ensures r == SendStatus(NextSend(old(transport.sendOutcomes)))
    {
      var cmdBody := SetFeatureBody(reportId, millisBetweenReports);
      var sent := SendPacket(ChanHubControl, cmdBody);
      if sent.Err? {
        return Err(sent.error);
      }
      r := Ok(());
    }

    /** `enable_rotation_vector`: `EnableReport` for report 0x05. */
    method EnableRotationVector(millisBetweenReports: u16) returns (r: Result<()>)
      requires Valid()
      modifies sequenceNumbers, sendBuf, transport
      ensures Valid()
      ensures sequenceNumbers[..] == old(sequenceNumbers[..])[ChanHubControl := NextSeq(old(sequenceNumbers[ChanHubControl]))]
      ensures sendBuf[..] ==
        Frame(ChanHubControl, sequenceNumbers[ChanHubControl], SetFeatureBody(ReportRotationVector, millisBetweenReports))
        + old(sendBuf[..])[17 + HeaderLength..]
      ensures transport.sent == old(transport.sent)
        + [Frame(ChanHubControl, sequenceNumbers[ChanHubControl], SetFeatureBody(ReportRotationVector, millisBetweenReports))]
      ensures transport.sendOutcomes == RestAfterSend(old(transport.sendOutcomes))
      ensures transport.incoming == old(transport.incoming)
      ensures transport.setupResult == old(transport.setupResult)
      ensures r == SendStatus(NextSend(old(transport.sendOutcomes)))
    {
      r := EnableReport(ReportRotationVector, millisBetweenReports);
    }

    /** `soft_reset`: the reset command on the executable channel. It does
        not touch the flags: a flag raised before stays raised. */
    method SoftReset() returns (r: Result<()>)
      requires Valid()
      modifies sequenceNumbers, sendBuf, transport
      ensures Valid()
      ensures State() == old(State())
      ensures sequenceNumbers[..] == old(sequenceNumbers[..])[ChanExecutable := NextSeq(old(sequenceNumbers[ChanExecutable]))]
      ensures sendBuf[..] ==
        Frame(ChanExecutable, sequenceNumbers[ChanExecutable], [ExecutableCmdReset]) + old(sendBuf[..])[1 + HeaderLength..]
      ensures transport.sent == old(transport.sent)
        + [Frame(ChanExecutable, sequenceNumbers[ChanExecutable], [ExecutableCmdReset])]
      ensures transport.sendOutcomes == RestAfterSend(old(transport.sendOutcomes))
      ensures transport.incoming == old(transport.incoming)
      ensures transport.setupResult == old(transport.setupResult)
      ensures r == SendStatus(NextSend(old(transport.sendOutcomes)))
    {
      var sent := SendPacket(ChanExecutable, [ExecutableCmdReset]);
      if sent.Err? {
        return Err(sent.error);
      }
      r := Ok(());
    }

    /* -------------------------------------------------------------------
     * Receiving
     * ----------------------------------------------------------------- */

    /** Clears bytes 0 and 1 of the receive buffer, then lets the transport
        read one frame into it. */
    method ReceivePacket() returns (r: Result<nat>)
      requires Valid()
      modifies recvBuf, transport
      ensures Valid()
      ensures recvBuf[..] == AfterReceive(old(recvBuf[..]), NextRead(old(transport.incoming)))
      ensures transport.incoming == RestAfterRead(old(transport.incoming))
      ensures transport.sent == old(transport.sent)
      ensures transport.sendOutcomes == old(transport.sendOutcomes)
      ensures transport.setupResult == old(transport.setupResult)
      ensures r == ReceiveResult(NextRead(old(transport.incoming)))
    {
      recvBuf[0] := 0;
      recvBuf[1] := 0;
      assert recvBuf[..] == old(recvBuf[..])[0 := 0][1 := 0];
      var res := transport.ReadPacket(recvBuf);
      match res
      case ReadOk(n) =>
        r := Ok(n);
      case ReadErr(e) =>
        r := Err(CommError(e));
    }

    /** `send_and_receive_packet`: a send, then, if it succeeded, a read. */
    method SendAndReceivePacket(channel: byte, body: seq<byte>) returns (r: Result<nat>)
      requires Valid()
      requires channel < NumChannels
      requires |body| + HeaderLength <= SendBufLen
      modifies sequenceNumbers, sendBuf, recvBuf, transport
      ensures Valid()
      ensures sequenceNumbers[..] == old(sequenceNumbers[..])[channel := NextSeq(old(sequenceNumbers[channel]))]
      ensures sendBuf[..] == Frame(channel, sequenceNumbers[channel], body) + old(sendBuf[..])[|body| + HeaderLength..]
      ensures transport.sent == old(transport.sent) + [Frame(channel, sequenceNumbers[channel], body)]
      ensures transport.sendOutcomes == RestAfterSend(old(transport.sendOutcomes))
      ensures transport.setupResult == old(transport.setupResult)
      ensures NextSend(old(transport.sendOutcomes)).Fail? ==>
        && r == Err(CommError(NextSend(old(transport.sendOutcomes)).error))
        && recvBuf[..] == old(recvBuf[..])
        && transport.incoming == old(transport.incoming)
      ensures NextSend(old(transport.sendOutcomes)).Pass? ==>
        && r == ReceiveResult(NextRead(old(transport.incoming)))
        && recvBuf[..] == AfterReceive(old(recvBuf[..]), NextRead(old(transport.incoming)))
        && transport.incoming == RestAfterRead(old(transport.incoming))
    {
      var sent := SendPacket(channel, body);
      if sent.Err? {
        return Err(sent.error);
      }
      r := ReceivePacket();
    }

    /** `eat_one_message`: one read whose length is returned, an error
        counting as 0. */
    method EatOneMessage() returns (n: nat)
      requires Valid()
      modifies recvBuf, transport
      ensures Valid()
      ensures n == ReadLength(NextRead(old(transport.incoming)))
      ensures recvBuf[..] == AfterReceive(old(recvBuf[..]), NextRead(old(transport.incoming)))
      ensures transport.incoming == RestAfterRead(old(transport.incoming))
      ensures transport.sent == old(transport.sent)
      ensures transport.sendOutcomes == old(transport.sendOutcomes)
      ensures transport.setupResult == old(transport.setupResult)
    {
      var res := ReceivePacket();
      n := if res.Ok? then res.value else 0;
    }

    /** `eat_all_messages`: read and discard until a read yields nothing. */
    method EatAllMessages()
      requires Valid()
      modifies recvBuf, transport
      ensures Valid()
      ensures recvBuf[..] == Drain(old(recvBuf[..]), old(transport.incoming)).0
      ensures transport.incoming == Drain(old(recvBuf[..]), old(transport.incoming)).1
      ensures transport.sent == old(transport.sent)
      ensures transport.sendOutcomes == old(transport.sendOutcomes)
      ensures transport.setupResult == old(transport.setupResult)
    {
      while true
        invariant Valid()
        invariant Drain(recvBuf[..], transport.incoming) == Drain(old(recvBuf[..]), old(transport.incoming))
        invariant transport.sent == old(transport.sent)
        invariant transport.sendOutcomes == old(transport.sendOutcomes)
        invariant transport.setupResult == old(transport.setupResult)
        decreases |transport.incoming|
      {
        var receivedLen := EatOneMessage();
        if receivedLen == 0 {
          break;
        }
        // the source yields for 1 ms here; time is not modelled
      }
    }

    /** `handle_advertise_response`: walks the tag/length/value records of
        the payload from offset 1. Returns where the cursor stopped, or None
        where the source would read a length byte past the payload. */
    method HandleAdvertiseResponse(receivedLen: nat) returns (end: Option<nat>)
      requires Valid()
      requires HeaderLength <= receivedLen <= RecvBufLen
      ensures end == AdvertiseWalk(recvBuf[HeaderLength..receivedLen], 1)
    {
      var payloadLen := receivedLen - HeaderLength;
      var payload := recvBuf[HeaderLength..receivedLen];
      var cursor: nat := 1; // skip the response type
      while cursor < payloadLen
        invariant AdvertiseWalk(payload, cursor) == AdvertiseWalk(payload, 1)
        decreases payloadLen - cursor
      {
        var tag := payload[cursor];
        cursor := cursor + 1;
        if cursor >= payloadLen {
          return None;
        }
        var len := payload[cursor];
        cursor := cursor + 1;
        cursor := cursor + len;
      }
      end := Some(cursor);
    }

    /** `handle_input_report`: reads the report id after the 5 timestamp
        bytes; None where that byte lies past the frame. */
    method HandleInputReport(receivedLen: nat) returns (reportId: Option<byte>)
      requires Valid()
      requires receivedLen <= RecvBufLen
      ensures reportId.Some? <==> receivedLen > HeaderLength + 5
      ensures reportId.Some? ==> reportId.value == recvBuf[HeaderLength + 5]
    {
      var cursor := HeaderLength + 5; // skip header and timestamp
      if cursor >= receivedLen {
        return None;
      }
      reportId := Some(recvBuf[cursor]);
      // a rotation-vector report and any other report are both left alone
    }

    /** `handle_received_packet`: routes the first `receivedLen` bytes of the
        receive buffer; only the flags may change. */
    method HandleReceivedPacket(receivedLen: nat) returns (route: Route)
      requires Valid()
      requires receivedLen <= RecvBufLen
      modifies this
      ensures Valid()
      ensures route == RouteOf(recvBuf[..receivedLen])
      ensures State() == Dispatch(old(State()), recvBuf[..receivedLen])
    {
      ghost var msg := recvBuf[..receivedLen];
      if receivedLen < HeaderLength + 1 {
        return Truncated;
      }
      var chanNum := recvBuf[2];
      var reportId := recvBuf[HeaderLength];
      if chanNum == ChanSensorReports {
        var id := HandleInputReport(receivedLen);
        route := if id.Some? then SensorReport(id.value) else Truncated;
      } else if chanNum == ChanCommand {
        if reportId == RespAdvertise {
          var end := HandleAdvertiseResponse(receivedLen);
          assert recvBuf[HeaderLength..receivedLen] == FrameBody(msg);
          route := if end.Some? then Advertisement else Truncated;
        } else {
          route := CommandIgnored(reportId);
        }
      } else if chanNum == ChanExecutable {
        if reportId == ExecutableRespResetComplete {
          deviceReset := true;
          route := ResetComplete;
        } else {
          route := ExecutableIgnored(reportId);
        }
      } else if chanNum == ChanHubControl {
        if reportId == CommandResp {
          if receivedLen < 7 {
            route := Truncated;
          } else {
            var cmdResp := recvBuf[6];
            route := if cmdResp == StartupInitUnsolicited then StartupUnsolicited else CommandResponse(cmdResp);
          }
        } else if reportId == ProdIdResp {
          prodIdVerified := true;
          route := ProductIdResponse;
        } else {
          route := HubControlIgnored(reportId);
        }
      } else {
        route := UnknownChannel(chanNum);
      }
    }

    /** `handle_one_message`: one read; a non-empty frame is dispatched and
        counted, an empty read or a read error is not. */
    method HandleOneMessage() returns (msgCount: nat, route: Option<Route>)
      requires Valid()
      modifies this, recvBuf, transport
      ensures Valid()
      ensures recvBuf[..] == AfterReceive(old(recvBuf[..]), NextRead(old(transport.incoming)))
      ensures transport.incoming == RestAfterRead(old(transport.incoming))
      ensures transport.sent == old(transport.sent)
      ensures transport.sendOutcomes == old(transport.sendOutcomes)
      ensures transport.setupResult == old(transport.setupResult)
      ensures msgCount == if ReadLength(NextRead(old(transport.incoming))) > 0 then 1 else 0
      ensures msgCount == 1 ==>
        && route == Some(RouteOf(NextRead(old(transport.incoming)).bytes))
        && State() == Dispatch(old(State()), NextRead(old(transport.incoming)).bytes)
      ensures msgCount == 0 ==> route == None && State() == old(State())
    {
      msgCount := 0;
      route := None;
      var res := ReceivePacket();
      if res.Ok? {
        var receivedLen := res.value;
        if receivedLen > 0 {
          msgCount := msgCount + 1;
          var r := HandleReceivedPacket(receivedLen);
          route := Some(r);
        }
      }
    }

    /* -------------------------------------------------------------------
     * Handshake
     * ----------------------------------------------------------------- */

    /** `verify_product_id`: sends the product-id request on the hub-control
        channel and checks the first body byte of the reply, whatever
        channel the reply came on. */
    method VerifyProductId() returns (r: Result<()>)
      requires Valid()
      modifies this, sequenceNumbers, sendBuf, recvBuf, transport
      ensures Valid()
      ensures deviceReset == old(deviceReset)
      ensures prodIdVerified == (old(prodIdVerified) || r.Ok?)
      ensures sequenceNumbers[..] == old(sequenceNumbers[..])[ChanHubControl := NextSeq(old(sequenceNumbers[ChanHubControl]))]
      ensures sendBuf[..] ==
        Frame(ChanHubControl, sequenceNumbers[ChanHubControl], [ProdIdReq, 0]) + old(sendBuf[..])[2 + HeaderLength..]
      ensures transport.sent == old(transport.sent)
        + [Frame(ChanHubControl, sequenceNumbers[ChanHubControl], [ProdIdReq, 0])]
      ensures transport.sendOutcomes == RestAfterSend(old(transport.sendOutcomes))
      ensures transport.setupResult == old(transport.setupResult)
      ensures NextSend(old(transport.sendOutcomes)).Fail? ==>
        && r == Err(CommError(NextSend(old(transport.sendOutcomes)).error))
        && recvBuf[..] == old(recvBuf[..])
        && transport.incoming == old(transport.incoming)
      ensures NextSend(old(transport.sendOutcomes)).Pass? ==>
        && r == ProductIdVerdict(NextRead(old(transport.incoming)))
        && recvBuf[..] == AfterReceive(old(recvBuf[..]), NextRead(old(transport.incoming)))
        && transport.incoming == RestAfterRead(old(transport.incoming))
    {
      var cmdBody := [ProdIdReq, 0]; // 0: reserved
      var recv := SendAndReceivePacket(ChanHubControl, cmdBody);
      if recv.Err? {
        return Err(recv.error);
      }
      var recvLen := recv.value;
      if recvLen > HeaderLength {
        var reportId := recvBuf[HeaderLength];
        if reportId == ProdIdResp {
          prodIdVerified := true;
          return Ok(());
        }
      }
      r := Err(InvalidChipId(0));
    }

    /** `init`: set the transport up, reset, discard one frame, drain the
        rest of the advertisement burst, verify the product id. A setup or
        send error ends it at once. No frame is dispatched on the way, so
        `deviceReset` is left as it was. */
    method Init() returns (r: Result<()>)
      requires Valid()
      modifies this, sequenceNumbers, sendBuf, recvBuf, transport
      ensures Valid()
      ensures deviceReset == old(deviceReset)
      ensures prodIdVerified == (old(prodIdVerified) || r.Ok?)
      ensures transport.setupResult == old(transport.setupResult)
      // setup fails: nothing is sent, nothing else changes
      ensures transport.setupResult.Fail? ==>
        && r == Err(CommError(transport.setupResult.error))
        && sequenceNumbers[..] == old(sequenceNumbers[..])
        && sendBuf[..] == old(sendBuf[..]) && recvBuf[..] == old(recvBuf[..])
        && transport.sent == old(transport.sent)
        && transport.sendOutcomes == old(transport.sendOutcomes)
        && transport.incoming == old(transport.incoming)
      // the reset frame cannot be sent: nothing further happens
      ensures transport.setupResult.Pass? && NextSend(old(transport.sendOutcomes)).Fail? ==>
        && r == Err(CommError(NextSend(old(transport.sendOutcomes)).error))
        && sequenceNumbers[..] == old(sequenceNumbers[..])[ChanExecutable := NextSeq(old(sequenceNumbers[ChanExecutable]))]
        && sendBuf[..] ==
           Frame(ChanExecutable, sequenceNumbers[ChanExecutable], [ExecutableCmdReset]) + old(sendBuf[..])[1 + HeaderLength..]
        && transport.sent == old(transport.sent)
           + [Frame(ChanExecutable, sequenceNumbers[ChanExecutable], [ExecutableCmdReset])]
        && transport.sendOutcomes == RestAfterSend(old(transport.sendOutcomes))
        && recvBuf[..] == old(recvBuf[..])
        && transport.incoming == old(transport.incoming)
      // the reset frame is sent: one read, the drain, then the product-id exchange
      ensures transport.setupResult.Pass? && NextSend(old(transport.sendOutcomes)).Pass? ==>
        && sequenceNumbers[..] == old(sequenceNumbers[..])
           [ChanExecutable := NextSeq(old(sequenceNumbers[ChanExecutable]))]
           [ChanHubControl := NextSeq(old(sequenceNumbers[ChanHubControl]))]
        && sendBuf[..] ==
           Frame(ChanHubControl, sequenceNumbers[ChanHubControl], [ProdIdReq, 0]) + old(sendBuf[..])[2 + HeaderLength..]
        && transport.sent == old(transport.sent)
           + [Frame(ChanExecutable, sequenceNumbers[ChanExecutable], [ExecutableCmdReset]),
              Frame(ChanHubControl, sequenceNumbers[ChanHubControl], [ProdIdReq, 0])]
        && transport.sendOutcomes == RestAfterSend(RestAfterSend(old(transport.sendOutcomes)))
        && var drained := Drain(AfterReceive(old(recvBuf[..]), NextRead(old(transport.incoming))),
                                RestAfterRead(old(transport.incoming)));
           if NextSend(RestAfterSend(old(transport.sendOutcomes))).Fail? then
             && r == Err(CommError(NextSend(RestAfterSend(old(transport.sendOutcomes))).error))
             && recvBuf[..] == drained.0
             && transport.incoming == drained.1
           else
             && r == ProductIdVerdict(NextRead(drained.1))
             && recvBuf[..] == AfterReceive(drained.0, NextRead(drained.1))
             && transport.incoming == RestAfterRead(drained.1)
    {
      var setup := transport.Setup();
      if setup.Fail? {
        return Err(CommError(setup.error));
      }
      var reset := SoftReset();
      if reset.Err? {
        return Err(reset.error);
      }
      // the source waits 50 ms here and after the next read; time is not modelled
      var _ := EatOneMessage();
      EatAllMessages();
      r := VerifyProductId();
    }
  }
}
