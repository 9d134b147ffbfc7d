/** Building a command packet and putting it on the wire
    (opal/src/command.rs:6-81, opal/src/session.rs:116-137; TCG Storage
    Architecture Core Specification, section 3.2.3). */
module Command {
  import opened Streams
  import opened Tokens
  import opened Response

  const PACKET_HEADER := 24
  const SUBPACKET_HEADER := 12

  type u32 = n: int | 0 <= n < 0x1_0000_0000

  /** The header fields a command sets; all others stay 0. */
  datatype OpalCommand = OpalCommand(
    comPacketLen: u32, packetLen: u32, subpacketLen: u32,
    comId: nat, tsn: u32, hsn: u32,
    payload: seq<byte>, eod: bool)

  /** `ENDOFDATA` and the list of three zeros that ends a method call. */
  const EOD_TOKENS: TokenList :=
    Cons(List(Cons(Simple(0), Cons(Simple(0), Cons(Simple(0), Nil)))), Cons(Simple(ENDOFDATA), Nil))

  /** How many zero bytes bring a length to a multiple of 4. */
  function PadLen(len: nat): (k: nat)
    ensures k < 4 && (len + k) % 4 == 0
  {
    (4 - len % 4) % 4
  }

  lemma PadSteps(len: nat)
    ensures len % 4 == 0 ==> PadLen(len) == 0
    ensures len % 4 != 0 ==> PadLen(len) == PadLen(len + 1) + 1
  {
  }

  function Zeros(n: nat): (r: seq<byte>)
    ensures |r| == n
  {
    seq(n, _ => 0)
  }

  function Build(printed: seq<byte>, eod: bool): (c: OpalCommand)
    ensures c.eod == eod
  {
    var body := printed + if eod then Flat(RenderList(EOD_TOKENS)) else [];
    var padded := |body| + PadLen(|body|);
    OpalCommand((padded + SUBPACKET_HEADER + PACKET_HEADER) % TWO_32, (padded + SUBPACKET_HEADER) % TWO_32,
                |body| % TWO_32, 0, 0, 0, body + Zeros(PadLen(|body|)), eod)
  }

  class OpalCommandBuilder {
    const buffer: Buffer

    /** `empty` */
    constructor ()
      ensures fresh(buffer) && buffer.bytes == []
    {
      buffer := new Buffer();
    }

    /** `new`: a method call on an object. */
    constructor Call(invokingUid: seq<byte>, method_: seq<byte>)
      requires |invokingUid| == 8 && |method_| == 8
      ensures fresh(buffer) && buffer.bytes == Flat(RenderList(CallTokens(invokingUid, method_)))
    {
      buffer := new Buffer();
      new;
      var call := CallTokens(invokingUid, method_);
      WritableListIsPrintable(call);
      WriteBare(call, buffer);
      assert [] + Flat(RenderList(call)) == Flat(RenderList(call));
    }

    /** `payload`: append an already printed stream. */
    method Payload(stream: seq<byte>)
      modifies buffer
      ensures buffer.bytes == old(buffer.bytes) + stream
    {
      buffer.Extend(stream);
    }

    method BuildEod(eod: bool) returns (c: OpalCommand)
      modifies buffer
      ensures c == Build(old(buffer.bytes), eod)
      ensures buffer.bytes == c.payload
    {
      hide Flat, RenderList;
      if eod {
        WritableListIsPrintable(EOD_TOKENS);
        WriteBare(EOD_TOKENS, buffer);
      }
      ghost var body := buffer.bytes;
      var subpacketLen := |buffer.bytes| % TWO_32;
      ghost var pad := 0;
      hide PadLen;
      PadSteps(|buffer.bytes|);
      while |buffer.bytes| % 4 != 0
        invariant PadLen(|buffer.bytes|) + pad == PadLen(|body|)
        invariant |buffer.bytes| % 4 == 0 ==> PadLen(|buffer.bytes|) == 0
        invariant buffer.bytes == body + Zeros(pad)
        decreases PadLen(|buffer.bytes|)
      {
        PadSteps(|buffer.bytes|);
        PadSteps(|buffer.bytes| + 1);
        assert Zeros(pad + 1) == Zeros(pad) + [0];
        buffer.Push(0);
        pad := pad + 1;
      }
      var padded := |buffer.bytes|;
      c := OpalCommand((padded + SUBPACKET_HEADER + PACKET_HEADER) % TWO_32, (padded + SUBPACKET_HEADER) % TWO_32,
                       subpacketLen, 0, 0, 0, buffer.bytes, eod);
    }
  }

  function CallTokens(invokingUid: seq<byte>, method_: seq<byte>): (ts: TokenList)
    ensures |invokingUid| == 8 && |method_| == 8 ==> WritableList(ts)
  {
    assert WritableList(Cons(Simple(CALL), Nil));
    var call := Cons(BS8(invokingUid), Cons(Simple(CALL), Nil));
    assert |invokingUid| == 8 ==> WritableList(call);
    Cons(BS8(method_), call)
  }

  /** `set_session` */
  function SetSession(c: OpalCommand, comId: nat, tsn: u32, hsn: u32): OpalCommand {
    c.(comId := comId, tsn := tsn, hsn := hsn)
  }

  // ----- the wire -----

  /** The packet as sent: ComPacket header (20 bytes), Packet header (24), Subpacket
      header (12), each field big-endian, and the padded payload. */
  function Wire(c: OpalCommand): (r: seq<byte>)
    ensures |r| == HEADER_SIZE + |c.payload|
  {
    Zeros(4) + BigEndian(c.comId, 2) + Zeros(2) + Zeros(8) + BigEndian(c.comPacketLen, 4)
    + BigEndian(c.tsn, 4) + BigEndian(c.hsn, 4) + Zeros(12) + BigEndian(c.packetLen, 4)
    + Zeros(8) + BigEndian(c.subpacketLen, 4) + c.payload
  }

  /** A field of a received packet. */
  function Field(packet: seq<byte>, at: nat, width: nat): nat
    requires at + width <= |packet|
  {
    FromBigEndian(packet[at..at + width])
  }

  function ComIdOf(packet: seq<byte>): nat requires |packet| >= HEADER_SIZE { Field(packet, 4, 2) }
  function OutstandingOf(packet: seq<byte>): nat requires |packet| >= HEADER_SIZE { Field(packet, 8, 4) }
  function MinTransferOf(packet: seq<byte>): nat requires |packet| >= HEADER_SIZE { Field(packet, 12, 4) }
  function ComPacketLenOf(packet: seq<byte>): nat requires |packet| >= HEADER_SIZE { Field(packet, 16, 4) }
  function TsnOf(packet: seq<byte>): nat requires |packet| >= HEADER_SIZE { Field(packet, 20, 4) }
  function HsnOf(packet: seq<byte>): nat requires |packet| >= HEADER_SIZE { Field(packet, 24, 4) }
  function PacketLenOf(packet: seq<byte>): nat requires |packet| >= HEADER_SIZE { Field(packet, 40, 4) }
  function SubpacketLenOf(packet: seq<byte>): nat requires |packet| >= HEADER_SIZE { Field(packet, 52, 4) }

  /** Where a reader finds the fields of a packet, all big-endian, and that every other
      byte of the header is 0. */
  lemma WireBytes(c: OpalCommand)
    requires c.comId < 0x1_0000
    ensures var p := Wire(c);
      && |p| == 56 + |c.payload| && p[56..] == c.payload
      && FromBigEndian(p[4..6]) == c.comId && FromBigEndian(p[16..20]) == c.comPacketLen
      && FromBigEndian(p[20..24]) == c.tsn && FromBigEndian(p[24..28]) == c.hsn
      && FromBigEndian(p[40..44]) == c.packetLen && FromBigEndian(p[52..56]) == c.subpacketLen
    ensures var p := Wire(c);
      forall i | (0 <= i < 4 || 6 <= i < 16 || 28 <= i < 40 || 44 <= i < 52) :: p[i] == 0
  {
    WireFields(c);
  }

  lemma WireFields(c: OpalCommand)
    requires c.comId < 0x1_0000
    ensures var p := Wire(c);
      && ComIdOf(p) == c.comId && TsnOf(p) == c.tsn && HsnOf(p) == c.hsn
      && ComPacketLenOf(p) == c.comPacketLen && PacketLenOf(p) == c.packetLen
      && SubpacketLenOf(p) == c.subpacketLen
      && p[HEADER_SIZE..] == c.payload
  {
    var p := Wire(c);
    PowValues();
    assert Pow256(2) == 0x1_0000;
    assert p[4..6] == BigEndian(c.comId, 2);
    assert p[16..20] == BigEndian(c.comPacketLen, 4);
    assert p[20..24] == BigEndian(c.tsn, 4);
    assert p[24..28] == BigEndian(c.hsn, 4);
    assert p[40..44] == BigEndian(c.packetLen, 4);
    assert p[52..56] == BigEndian(c.subpacketLen, 4);
    BigEndianRoundTrip(c.comId, 2);
    BigEndianRoundTrip(c.comPacketLen, 4);
    BigEndianRoundTrip(c.tsn, 4);
    BigEndianRoundTrip(c.hsn, 4);
    BigEndianRoundTrip(c.packetLen, 4);
    BigEndianRoundTrip(c.subpacketLen, 4);
  }

  /** The tokens a built command carries. */
  function Carried(ts: TokenList, eod: bool): seq<seq<byte>>
    requires WritableList(ts)
  {
    RenderList(ts) + if eod then RenderList(EOD_TOKENS) else []
  }

  /** Printing, framing, sending and parsing a token tree gives back exactly its tokens
      in push order; the padding is never parsed, and every length field counts the
      bytes behind its own header. */
  lemma FrameRoundTrip(ts: TokenList, eod: bool, comId: nat, tsn: u32, hsn: u32)
    requires WritableList(ts) && comId < 0x1_0000
    requires |Flat(RenderList(ts))| + 0x100 < TWO_32
    ensures var p := Wire(SetSession(Build(Flat(RenderList(ts)), eod), comId, tsn, hsn));
      && Parse(p, HEADER_SIZE, HEADER_SIZE + SubpacketLenOf(p)) == Some(Carried(ts, eod))
      && ComPacketLenOf(p) == |p| - 20
      && PacketLenOf(p) == |p| - 44
      && |p| % 4 == 0 && |p| - 4 < 56 + SubpacketLenOf(p) <= |p|
      && ComIdOf(p) == comId && TsnOf(p) == tsn && HsnOf(p) == hsn
  {
    hide Wire, Build, Carried, RenderList, Flat, PadLen, Parse, Clean,
         ComIdOf, TsnOf, HsnOf, ComPacketLenOf, PacketLenOf, SubpacketLenOf;
    var printed := Flat(RenderList(ts));
    var all := Carried(ts, eod);
    CarriedFacts(ts, eod);
    BuildFacts(printed, eod);
    var c := SetSession(Build(printed, eod), comId, tsn, hsn);
    WireFields(c);
    var p := Wire(c);
    ParseClean(p, all);
  }

  lemma BuildFacts(printed: seq<byte>, eod: bool)
    requires |printed| + 0x100 < TWO_32
    ensures var c := Build(printed, eod);
      var body := printed + if eod then Flat(RenderList(EOD_TOKENS)) else [];
      && c.payload == body + Zeros(PadLen(|body|))
      && |c.payload| % 4 == 0 && |c.payload| - 4 < |body| == c.subpacketLen
      && c.packetLen == |c.payload| + SUBPACKET_HEADER
      && c.comPacketLen == |c.payload| + SUBPACKET_HEADER + PACKET_HEADER
  {
    EodTokens();
    hide Flat, RenderList;
  }

  lemma ParseClean(p: seq<byte>, all: seq<seq<byte>>)
    requires Clean(all) && |p| >= HEADER_SIZE + |Flat(all)|
    requires Flat(all) <= p[HEADER_SIZE..]
    ensures Parse(p, HEADER_SIZE, HEADER_SIZE + |Flat(all)|) == Some(all)
  {
    assert p[HEADER_SIZE..HEADER_SIZE + |Flat(all)|] == p[HEADER_SIZE..][..|Flat(all)|];
    WalkFlat(p, HEADER_SIZE, all);
    KeptAll(all);
  }

  lemma CarriedFacts(ts: TokenList, eod: bool)
    requires WritableList(ts)
    ensures Clean(Carried(ts, eod))
    ensures Flat(Carried(ts, eod))
      == Flat(RenderList(ts)) + if eod then Flat(RenderList(EOD_TOKENS)) else []
    ensures |Flat(RenderList(EOD_TOKENS))| == 6
  {
    RenderListClean(ts);
    RenderListClean(EOD_TOKENS);
    EodTokens();
    FlatConcat(RenderList(ts), if eod then RenderList(EOD_TOKENS) else []);
  }

  lemma EodTokens()
    ensures RenderList(EOD_TOKENS) == [[ENDOFDATA], [STARTLIST], [0], [0], [0], [ENDLIST]]
    ensures Flat(RenderList(EOD_TOKENS)) == [ENDOFDATA, STARTLIST, 0, 0, 0, ENDLIST]
  {
    EodPrinted();
    hide RenderList, Flat;
    EodFlat();
  }

  lemma EodPrinted()
    ensures RenderList(EOD_TOKENS) == [[ENDOFDATA], [STARTLIST], [0], [0], [0], [ENDLIST]]
  {
    var zeros1 := Cons(Simple(0), Nil);
    var zeros2 := Cons(Simple(0), zeros1);
    var zeros3 := Cons(Simple(0), zeros2);
    assert RenderList(zeros1) == [[0]];
    assert RenderList(zeros2) == [[0], [0]];
    assert RenderList(zeros3) == [[0], [0], [0]];
    assert Render(List(zeros3)) == [[STARTLIST], [0], [0], [0], [ENDLIST]];
    assert RenderList(Cons(Simple(ENDOFDATA), Nil)) == [[ENDOFDATA]];
  }

  lemma EodFlat()
    ensures Flat([[ENDOFDATA], [STARTLIST], [0], [0], [0], [ENDLIST]]) == [ENDOFDATA, STARTLIST, 0, 0, 0, ENDLIST]
  {
    var t0: seq<seq<byte>> := [[ENDOFDATA], [STARTLIST], [0], [0], [0], [ENDLIST]];
    assert t0[1..][1..][1..][1..][1..] == [[ENDLIST]];
    FlatOne([ENDLIST]);
    hide Flat;
    FlatFirst(t0);
    FlatFirst(t0[1..]);
    FlatFirst(t0[1..][1..]);
    FlatFirst(t0[1..][1..][1..]);
    FlatFirst(t0[1..][1..][1..][1..]);
  }

  lemma FlatFirst(ts: seq<seq<byte>>)
    requires ts != []
    ensures Flat(ts) == ts[0] + Flat(ts[1..])
  {
  }
}
