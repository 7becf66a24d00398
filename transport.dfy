/**
 * The driver's only collaborator, the sensor interface (setup, send a frame,
 * read a frame into a buffer), modelled as a scripted transport: the outcome
 * of setup, a queue of outcomes for successive sends, a queue of results for
 * successive reads, and a log of every frame handed to it.
 */
module Transport {
  import opened Shtp

  /** Whatever the concrete interface reports on failure; never inspected. */
  datatype TransportError = TransportError(code: int)

  datatype Outcome = Pass | Fail(error: TransportError)

  /** What the next read of the interface yields. */
  datatype ReadResult = Received(bytes: seq<byte>) | ReadFailed(error: TransportError)

  /** What `read_packet` returns: the received length or the error. */
  datatype ReadOutcome = ReadOk(len: nat) | ReadErr(error: TransportError)

  /** Every queued frame fits in a buffer of `capacity` bytes. */
  predicate FramesFit(q: seq<ReadResult>, capacity: nat) {
    forall i | 0 <= i < |q| :: q[i].Received? ==> |q[i].bytes| <= capacity
  }

  /** An exhausted script reads as an empty frame and sends succeed. */
  function NextRead(q: seq<ReadResult>): ReadResult {
    if q == [] then Received([]) else q[0]
  }

  function RestAfterRead(q: seq<ReadResult>): (r: seq<ReadResult>)
    ensures FramesFit(q, RecvBufLen) ==> FramesFit(r, RecvBufLen)
  {
    if q == [] then [] else q[1..]
  }

  function NextSend(q: seq<Outcome>): Outcome {
    if q == [] then Pass else q[0]
  }

  function RestAfterSend(q: seq<Outcome>): seq<Outcome> {
    if q == [] then [] else q[1..]
  }

  /** The length a read reports, with an error counting as nothing read. */
  function ReadLength(r: ReadResult): nat {
    match r
    case Received(bytes) => |bytes|
    case ReadFailed(_) => 0
  }

  function OutcomeOfRead(r: ReadResult): (o: ReadOutcome)
    ensures o.ReadOk? <==> r.Received?
    ensures o.ReadOk? ==> o.len == |r.bytes|
  {
    match r
    case Received(bytes) => ReadOk(|bytes|)
    case ReadFailed(e) => ReadErr(e)
  }

  /** The buffer after a read: a received frame overwrites its prefix and
      the rest is untouched; a failed read leaves it as it was. */
  function AfterRead(buf: seq<byte>, r: ReadResult): (b: seq<byte>)
    requires r.Received? ==> |r.bytes| <= |buf|
    ensures |b| == |buf|
    ensures r.Received? ==> b[..|r.bytes|] == r.bytes
    ensures forall k | ReadLength(r) <= k < |buf| :: b[k] == buf[k]
  {
    match r
    case Received(bytes) => bytes + buf[|bytes|..]
    case ReadFailed(_) => buf
  }

  class SensorInterface {
    var setupResult: Outcome
    var sendOutcomes: seq<Outcome>
    var incoming: seq<ReadResult>
    /** Every frame handed to `SendPacket`, oldest first. */
    var sent: seq<seq<byte>>

    /** The interface reads into the driver's 1024-byte receive buffer, so
        no frame it delivers is longer than that. */
    ghost predicate Valid()
      reads this
    {
      FramesFit(incoming, RecvBufLen)
    }

    constructor (setupResult: Outcome, sendOutcomes: seq<Outcome>, incoming: seq<ReadResult>)
      requires FramesFit(incoming, RecvBufLen)
      ensures Valid()
      ensures this.setupResult == setupResult && this.sendOutcomes == sendOutcomes
      ensures this.incoming == incoming && sent == []
    {
      this.setupResult := setupResult;
      this.sendOutcomes := sendOutcomes;
      this.incoming := incoming;
      sent := [];
    }

    method Setup() returns (r: Outcome)
      ensures r == setupResult
    {
      r := setupResult;
    }

    method SendPacket(frame: seq<byte>) returns (r: Outcome)
      requires Valid()
      modifies this
      ensures Valid()
      ensures r == NextSend(old(sendOutcomes))
      ensures sendOutcomes == RestAfterSend(old(sendOutcomes))
      ensures sent == old(sent) + [frame]
      ensures incoming == old(incoming) && setupResult == old(setupResult)
    {
      r := NextSend(sendOutcomes);
      sendOutcomes := RestAfterSend(sendOutcomes);
      sent := sent + [frame];
    }

    method ReadPacket(buf: array<byte>) returns (r: ReadOutcome)
      requires Valid() && buf.Length >= RecvBufLen
      modifies this, buf
      ensures Valid()
      ensures r == OutcomeOfRead(NextRead(old(incoming)))
      ensures buf[..] == AfterRead(old(buf[..]), NextRead(old(incoming)))
      ensures incoming == RestAfterRead(old(incoming))
      ensures sent == old(sent) && sendOutcomes == old(sendOutcomes) && setupResult == old(setupResult)
    {
      var next := NextRead(incoming);
      incoming := RestAfterRead(incoming);
      match next
      case ReadFailed(e) =>
        r := ReadErr(e);
      case Received(bytes) =>
        assert |bytes| <= buf.Length;
        for i := 0 to |bytes|
          modifies buf
          invariant buf[..i] == bytes[..i]
          invariant forall k | i <= k < buf.Length :: buf[k] == old(buf[k])
        {
          buf[i] := bytes[i];
        }
        assert buf[..] == bytes + old(buf[..])[|bytes|..];
        r := ReadOk(|bytes|);
    }
  }
}
