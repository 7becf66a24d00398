/**
 * The crate's advertisement test, restated as proved members (the recorded
 * advertisement burst is walked to its end and counted as one message), plus
 * two proved properties of the handshake: on a fresh driver it sends exactly
 * the reset and product-id request frames, and it passes exactly on a
 * product-id response.
 */
module WrapperTests {
  import opened Shtp
  import opened Transport
  import opened Wrapper

  /** The advertisement frame the sensor hub sent on start-up, as recorded:
      channel 0, report 0, 272 payload bytes (written one recorded line
      per piece). */
  const AdvertisingPacketFull: seq<byte> :=
    [0x14, 0x81, 0x00, 0x01]
    + [0x00, 0x01, 0x04, 0x00, 0x00, 0x00, 0x00, 0x80, 0x06, 0x31, 0x2E, 0x30, 0x2E, 0x30, 0x00, 0x02, 0x02, 0x00, 0x01, 0x03, 0x02, 0xFF, 0x7F, 0x04, 0x02, 0x00, 0x01, 0x05]
    + [0x02, 0xFF, 0x7F, 0x08, 0x05, 0x53, 0x48, 0x54, 0x50, 0x00, 0x06, 0x01, 0x00, 0x09, 0x08, 0x63, 0x6F, 0x6E, 0x74, 0x72, 0x6F, 0x6C, 0x00, 0x01, 0x04, 0x01, 0x00, 0x00]
    + [0x00, 0x08, 0x0B, 0x65, 0x78, 0x65, 0x63, 0x75, 0x74, 0x61, 0x62, 0x6C, 0x65, 0x00, 0x06, 0x01, 0x01, 0x09, 0x07, 0x64, 0x65, 0x76, 0x69, 0x63, 0x65, 0x00, 0x01, 0x04]
    + [0x02, 0x00, 0x00, 0x00, 0x08, 0x0A, 0x73, 0x65, 0x6E, 0x73, 0x6F, 0x72, 0x68, 0x75, 0x62, 0x00, 0x06, 0x01, 0x02, 0x09, 0x08, 0x63, 0x6F, 0x6E, 0x74, 0x72, 0x6F, 0x6C]
    + [0x00, 0x06, 0x01, 0x03, 0x09, 0x0C, 0x69, 0x6E, 0x70, 0x75, 0x74, 0x4E, 0x6F, 0x72, 0x6D, 0x61, 0x6C, 0x00, 0x07, 0x01, 0x04, 0x09, 0x0A, 0x69, 0x6E, 0x70, 0x75, 0x74]
    + [0x57, 0x61, 0x6B, 0x65, 0x00, 0x06, 0x01, 0x05, 0x09, 0x0C, 0x69, 0x6E, 0x70, 0x75, 0x74, 0x47, 0x79, 0x72, 0x6F, 0x52, 0x76, 0x00, 0x80, 0x06, 0x31, 0x2E, 0x31, 0x2E]
    + [0x30, 0x00, 0x81, 0x64, 0xF8, 0x10, 0xF5, 0x04, 0xF3, 0x10, 0xF1, 0x10, 0xFB, 0x05, 0xFA, 0x05, 0xFC, 0x11, 0xEF, 0x02, 0x01, 0x0A, 0x02, 0x0A, 0x03, 0x0A, 0x04, 0x0A]
    + [0x05, 0x0E, 0x06, 0x0A, 0x07, 0x10, 0x08, 0x0C, 0x09, 0x0E, 0x0A, 0x08, 0x0B, 0x08, 0x0C, 0x06, 0x0D, 0x06, 0x0E, 0x06, 0x0F, 0x10, 0x10, 0x05, 0x11, 0x0C, 0x12, 0x06]
    + [0x13, 0x06, 0x14, 0x10, 0x15, 0x10, 0x16, 0x10, 0x17, 0x00, 0x18, 0x08, 0x19, 0x06, 0x1A, 0x00, 0x1B, 0x00, 0x1C, 0x06, 0x1D, 0x00, 0x1E, 0x10, 0x1F, 0x00, 0x20, 0x00]
    + [0x21, 0x00, 0x22, 0x00, 0x23, 0x00, 0x24, 0x00, 0x25, 0x00, 0x26, 0x00, 0x27, 0x00, 0x28, 0x0E, 0x29, 0x0C, 0x2A, 0x0E]

  /** Any 272-byte payload whose length bytes are those of the recorded
      advertisement is walked record by record to exactly its end. */
  lemma AdvertisingTrail(p: seq<byte>)
    requires |p| == 272
    requires p[2] == 4
    requires p[8] == 6
    requires p[16] == 2
    requires p[20] == 2
    requires p[24] == 2
    requires p[28] == 2
    requires p[32] == 5
    requires p[39] == 1
    requires p[42] == 8
    requires p[52] == 4
    requires p[58] == 11
    requires p[71] == 1
    requires p[74] == 7
    requires p[83] == 4
    requires p[89] == 10
    requires p[101] == 1
    requires p[104] == 8
    requires p[114] == 1
    requires p[117] == 12
    requires p[131] == 1
    requires p[134] == 10
    requires p[146] == 1
    requires p[149] == 12
    requires p[163] == 6
    requires p[171] == 100
    ensures AdvertiseWalk(p, 1) == Some(272)
  {
    AdvertiseStep(p, 1);
    AdvertiseStep(p, 7);
    AdvertiseStep(p, 15);
    AdvertiseStep(p, 19);
    AdvertiseStep(p, 23);
    AdvertiseStep(p, 27);
    AdvertiseStep(p, 31);
    AdvertiseStep(p, 38);
    AdvertiseStep(p, 41);
    AdvertiseStep(p, 51);
    AdvertiseStep(p, 57);
    AdvertiseStep(p, 70);
    AdvertiseStep(p, 73);
    AdvertiseStep(p, 82);
    AdvertiseStep(p, 88);
    AdvertiseStep(p, 100);
    AdvertiseStep(p, 103);
    AdvertiseStep(p, 113);
    AdvertiseStep(p, 116);
    AdvertiseStep(p, 130);
    AdvertiseStep(p, 133);
    AdvertiseStep(p, 145);
    AdvertiseStep(p, 148);
    AdvertiseStep(p, 162);
    AdvertiseStep(p, 170);
  }

  // The length byte of each of the 25 records, counted in the whole frame.

  lemma AdvertisingLengthBytes1()
    ensures |AdvertisingPacketFull| == 276
    ensures AdvertisingPacketFull[6] == 4
    ensures AdvertisingPacketFull[12] == 6
    ensures AdvertisingPacketFull[20] == 2
    ensures AdvertisingPacketFull[24] == 2
    ensures AdvertisingPacketFull[28] == 2
  {
  }

  lemma AdvertisingLengthBytes2()
    ensures |AdvertisingPacketFull| == 276
    ensures AdvertisingPacketFull[32] == 2
    ensures AdvertisingPacketFull[36] == 5
    ensures AdvertisingPacketFull[43] == 1
    ensures AdvertisingPacketFull[46] == 8
    ensures AdvertisingPacketFull[56] == 4
  {
  }

  lemma AdvertisingLengthBytes3()
    ensures |AdvertisingPacketFull| == 276
    ensures AdvertisingPacketFull[62] == 11
    ensures AdvertisingPacketFull[75] == 1
    ensures AdvertisingPacketFull[78] == 7
    ensures AdvertisingPacketFull[87] == 4
    ensures AdvertisingPacketFull[93] == 10
  {
  }

  lemma AdvertisingLengthBytes4()
    ensures |AdvertisingPacketFull| == 276
    ensures AdvertisingPacketFull[105] == 1
    ensures AdvertisingPacketFull[108] == 8
    ensures AdvertisingPacketFull[118] == 1
    ensures AdvertisingPacketFull[121] == 12
    ensures AdvertisingPacketFull[135] == 1
  {
  }

  lemma AdvertisingLengthBytes5()
    ensures |AdvertisingPacketFull| == 276
    ensures AdvertisingPacketFull[138] == 10
    ensures AdvertisingPacketFull[150] == 1
    ensures AdvertisingPacketFull[153] == 12
    ensures AdvertisingPacketFull[167] == 6
    ensures AdvertisingPacketFull[175] == 100
  {
  }

  /** The advertisement loop runs over all 25 records and stops exactly at
      the end of the 272-byte payload. */
  lemma AdvertisingPacketWalk()
    ensures |AdvertisingPacketFull| == 276
    ensures AdvertiseWalk(AdvertisingPacketFull[HeaderLength..], 1) == Some(272)
  {
    AdvertisingLengthBytes1();
    AdvertisingLengthBytes2();
    AdvertisingLengthBytes3();
    AdvertisingLengthBytes4();
    AdvertisingLengthBytes5();
    AdvertisingTrail(AdvertisingPacketFull[HeaderLength..]);
  }

  /** So the recorded frame routes as an advertisement. */
  lemma AdvertisingPacketRoute()
    ensures RouteOf(AdvertisingPacketFull) == Advertisement
  {
    AdvertisingPacketWalk();
  }

  /** `test_handle_adv_message`: delivered by the transport, the recorded
      advertisement counts as exactly one handled message. */
  method HandleAdvertisingPacket() returns (msgCount: nat, route: Option<Route>)
    ensures msgCount == 1
    ensures route == Some(Advertisement)
  {
    AdvertisingPacketWalk();
    var port := new SensorInterface(Pass, [], [Received(AdvertisingPacketFull)]);
    var shub := new Bno080(port);
    msgCount, route := shub.HandleOneMessage();
  }

  /** A fresh driver whose setup and sends succeed sends the reset frame
      [05 00 01 01 01] and then the product-id request [06 00 02 01 F9 00],
      whatever it reads, and leaves the counters of channels 1 and 2 at 1. */
  method InitOnFreshDriver(incoming: seq<ReadResult>) returns (sent: seq<seq<byte>>, seqNumbers: seq<byte>)
    requires FramesFit(incoming, RecvBufLen)
    ensures sent == [[0x05, 0x00, 0x01, 0x01, 0x01], [0x06, 0x00, 0x02, 0x01, 0xF9, 0x00]]
    ensures seqNumbers == [0, 1, 1, 0, 0, 0]
  {
    var port := new SensorInterface(Pass, [], incoming);
    var shub := new Bno080(port);
    var _ := shub.Init();
    assert Frame(ChanExecutable, 1, [ExecutableCmdReset]) == [0x05, 0x00, 0x01, 0x01, 0x01];
    assert Frame(ChanHubControl, 1, [ProdIdReq, 0]) == [0x06, 0x00, 0x02, 0x01, 0xF9, 0x00];
    sent := port.sent;
    seqNumbers := shub.sequenceNumbers[..];
  }

  /** After one discarded frame and an empty read that ends the drain, the
      handshake succeeds, and marks the product id verified, exactly when
      the reply's first body byte is 0xF8; otherwise it reports an invalid
      chip id. */
  method InitVerdictOnReply(first: seq<byte>, reply: seq<byte>) returns (r: Result<()>, verified: bool)
    requires |first| <= RecvBufLen && |reply| <= RecvBufLen
    ensures r.Ok? <==> |reply| > HeaderLength && reply[HeaderLength] == ProdIdResp
    ensures r.Err? ==> r.error == InvalidChipId(0)
    ensures verified <==> r.Ok?
  {
    var port := new SensorInterface(Pass, [], [Received(first), Received([]), Received(reply)]);
    var shub := new Bno080(port);
    r := shub.Init();
    verified := shub.prodIdVerified;
  }
}
