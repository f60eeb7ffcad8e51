/** The acknowledgement header: built in place by the simulator, converted in place by the client. */
module AckPacket {
  import opened Bytes
  import opened Packet

  const READ_PAYLOAD_ACK: Byte := 101
  const MEM_ACK: Byte := 102
  const DISK_ACK: Byte := 103
  const READ_NO_PAYLOAD_ACK: Byte := 110
  const ACK_LEN := 32

  datatype Ack = Ack(kind: Byte, numLb: nat, pReqId: nat, dnReqId: nat)

  /** What an ack can carry: a 16-bit block count and 32-bit IDs. */
  ghost predicate Fits(a: Ack) { a.numLb < Pow256(2) && a.pReqId < Pow256(4) && a.dnReqId < Pow256(4) }

  function AckBytes(a: Ack): (s: seq<Byte>)
    ensures |s| == ACK_LEN
  {
    MAGIC + [a.kind, 0] + BE(a.numLb, 2) + [0, 0, 0, 0] + BE(a.pReqId, 4) + BE(a.dnReqId, 4) + MAGIC
  }

  /** `DNProto_ReqAck_ntoh`: the count has 24 bits, in bytes 9 to 11. */
  function ParseAck(p: seq<Byte>): Ack
    requires |p| >= ACK_LEN
  {
    Ack(p[8], 65536 * p[9] + FromBE(p[10..12]), FromBE(p[16..20]), FromBE(p[20..24]))
  }

  lemma AckRoundTrip(a: Ack)
    requires Fits(a)
    ensures ParseAck(AckBytes(a)) == a
  {
    var p := AckBytes(a);
    assert p[10..12] == BE(a.numLb, 2) && p[16..20] == BE(a.pReqId, 4) && p[20..24] == BE(a.dnReqId, 4);
    BERound(a.numLb, 2);
    BERound(a.pReqId, 4);
    BERound(a.dnReqId, 4);
  }

  /** `DNSrv_gen_ackpkt`: both ID fields first receive four magic bytes and are corrected by the two
      field stores at the end. */
  method GenAck(buf: array<Byte>, a: Ack)
    requires buf.Length == ACK_LEN
    modifies buf
    ensures buf[..] == AckBytes(a)
  {
    hide BE;
    ghost var b := buf[..];
    Store(buf, 0, MAGIC);
    Store(buf, 8, [a.kind]);
    Store(buf, 9, [0]);
    Store(buf, 10, BE(a.numLb, 2));
    Store(buf, 12, [0, 0, 0, 0]);
    Store(buf, 16, MAGIC[..4]);
    Store(buf, 20, MAGIC[..4]);
    Store(buf, 24, MAGIC);
    Store(buf, 16, BE(a.pReqId, 4));
    Store(buf, 20, BE(a.dnReqId, 4));
    AckStores(b, a.kind, BE(a.numLb, 2), BE(a.pReqId, 4), BE(a.dnReqId, 4));
  }

  lemma AckStores(b: seq<Byte>, kind: Byte, n: seq<Byte>, c: seq<Byte>, d: seq<Byte>)
    requires |b| == ACK_LEN && |n| == 2 && |c| == |d| == 4
    ensures var b1 := Splice(Splice(Splice(Splice(Splice(b, 0, MAGIC), 8, [kind]), 9, [0]), 10, n), 12, [0, 0, 0, 0]);
            var b2 := Splice(Splice(Splice(b1, 16, MAGIC[..4]), 20, MAGIC[..4]), 24, MAGIC);
            (Splice(Splice(b2, 16, c), 20, d) == MAGIC + [kind, 0] + n + [0, 0, 0, 0] + c + d + MAGIC)
  {
    SpliceTwice(b, 0, MAGIC, [kind]);
    SpliceTwice(b, 0, MAGIC + [kind], [0]);
    SpliceTwice(b, 0, MAGIC + [kind] + [0], n);
    SpliceTwice(b, 0, MAGIC + [kind] + [0] + n, [0, 0, 0, 0]);
    var b1 := Splice(b, 0, MAGIC + [kind] + [0] + n + [0, 0, 0, 0]);
    SpliceTwice(b1, 16, MAGIC[..4], MAGIC[..4]);
    SpliceTwice(b1, 16, MAGIC[..4] + MAGIC[..4], MAGIC);
    var b2 := Splice(b1, 16, MAGIC[..4] + MAGIC[..4] + MAGIC);
    SpliceTwice(b2, 16, c, d);
  }

  /** The client's conversion, reading field by field. */
  method AckNtoh(buf: array<Byte>) returns (a: Ack)
    requires buf.Length == ACK_LEN
    ensures a == ParseAck(buf[..])
    ensures forall x: Ack :: Fits(x) && buf[..] == AckBytes(x) ==> a == x
  {
    var high: nat, low := buf[9], FromBE(buf[10..12]);
    a := Ack(buf[8], low + 65536 * high, FromBE(buf[16..20]), FromBE(buf[20..24]));
    assert buf[..][10..12] == buf[10..12] && buf[..][16..20] == buf[16..20] && buf[..][20..24] == buf[20..24];
    forall x: Ack | Fits(x) && buf[..] == AckBytes(x) ensures a == x { AckRoundTrip(x); }
  }
}
