/** The request packet between client and datanode: built by the client, parsed by the datanode
    simulator. */
module Packet {
  import opened Wrappers
  import opened Bytes

  const WRITE: Byte := 3
  const READ: Byte := 4
  const HEART_BEAT: Byte := 10
  const WRITE_NO_PAYLOAD: Byte := 12
  const READ_NO_PAYLOAD: Byte := 13
  const WRITE_NO_IO: Byte := 14
  const READ_NO_IO: Byte := 15
  const WRITE_NO_PAYLOAD_IO: Byte := 16
  const READ_NO_PAYLOAD_IO: Byte := 17

  const MAX_LBS := 33
  const HEADER_LEN := 32
  const FP_LENGTH := 20
  const PAGE_SIZE := 4096
  const LB_SIZE := 4096
  const MAGIC: seq<Byte> := [165, 165, 165, 165, 165, 165, 165, 165]

  predicate IsWrite(op: Byte) {
    op == WRITE || op == WRITE_NO_PAYLOAD || op == WRITE_NO_IO || op == WRITE_NO_PAYLOAD_IO
  }

  predicate IsRead(op: Byte) { op == READ || op == READ_NO_PAYLOAD || op == READ_NO_IO || op == READ_NO_PAYLOAD_IO }

  /** The part of a datanode request that goes on the wire. */
  datatype UdReq = UdReq(opcode: Byte, callerId: nat, reqId: nat, hbids: seq<nat>, locs: seq<nat>)

  ghost predicate Words64(ws: seq<nat>) { forall i :: 0 <= i < |ws| ==> ws[i] < Pow256(8) }

  ghost predicate Sendable(r: UdReq) {
    && (IsWrite(r.opcode) || IsRead(r.opcode))
    && 1 <= |r.hbids| <= MAX_LBS && |r.locs| <= MAX_LBS
    && r.callerId < Pow256(4) && r.reqId < Pow256(4)
    && Words64(r.hbids) && Words64(r.locs)
  }

  /** Bytes between the HBIDs and the locations: fingerprints or masks. */
  function MidLen(op: Byte, n: nat): nat {
    if IsWrite(op) then FP_LENGTH * n else if IsRead(op) then 8 * n else 0
  }

  /** Eight mask bytes for each block, only the first one set. */
  function Mask(n: nat): (s: seq<Byte>)
    ensures |s| == 8 * n
  {
    if n == 0 then [] else [1, 0, 0, 0, 0, 0, 0, 0] + Mask(n - 1)
  }

  /** The first of every eight mask bytes is 1 and the others are 0. */
  lemma {:induction false} MaskAt(n: nat, j: nat)
    requires j < 8 * n
    ensures Mask(n)[j] == if j % 8 == 0 then 1 else 0
  {
    if j >= 8 {
      MaskAt(n - 1, j - 8);
      assert (j - 8) % 8 == j % 8;
    } else {
      assert Mask(n)[..8] == [1, 0, 0, 0, 0, 0, 0, 0];
    }
  }

  function Words(ws: seq<nat>): (s: seq<Byte>)
    ensures |s| == 8 * |ws|
  {
    if ws == [] then [] else BE(ws[0], 8) + Words(ws[1..])
  }

  /** The three reserved bytes are not written: they are whatever the buffer held. */
  function Header(r: UdReq, reserved: seq<Byte>): (s: seq<Byte>)
    requires |reserved| == 3
    ensures |s| == HEADER_LEN
  {
    MAGIC + [r.opcode] + BE(|r.hbids|, 2) + BE(|r.locs|, 2) + reserved + BE(r.callerId, 4) + BE(r.reqId, 4) + MAGIC
  }

  function PacketBytes(r: UdReq, reserved: seq<Byte>, mid: seq<Byte>): seq<Byte>
    requires |reserved| == 3
  {
    Header(r, reserved) + Words(r.hbids) + mid + Words(r.locs)
  }

  // ---------------------------------------------------------------- the simulator's parser

  /** A parsed request. HBIDs and locations are copied raw, in network order. */
  datatype CnReq = CnReq(opcode: Byte, numHbids: nat, pReqId: nat, dnReqId: nat, hbids: seq<nat>, locs: seq<nat>)

  function Raw64s(p: seq<Byte>, off: nat, n: nat): (ws: seq<nat>)
    requires off + 8 * n <= |p|
    ensures |ws| == n
  {
    if n == 0 then [] else Raw64s(p, off, n - 1) + [FromLE(p[off + 8 * (n - 1)..off + 8 * n])]
  }

  function NumHbids(p: seq<Byte>): nat
    requires |p| >= HEADER_LEN
  {
    FromBE(p[9..11])
  }

  function NumLocs(p: seq<Byte>): nat
    requires |p| >= HEADER_LEN
  {
    FromBE(p[11..13])
  }

  function LocsAt(p: seq<Byte>): nat
    requires |p| >= HEADER_LEN
  {
    HEADER_LEN + 8 * NumHbids(p) + MidLen(p[8], NumHbids(p))
  }

  /** `_DNSrv_rcv_hder`: a heartbeat or a bare header leaves the request uninitialised. */
  function Parse(p: seq<Byte>): Option<CnReq>
    requires |p| >= HEADER_LEN && |p| >= LocsAt(p) + 8 * NumLocs(p)
  {
    if p[8] == HEART_BEAT || |p| == HEADER_LEN then None
    else Some(CnReq(p[8], NumHbids(p), FromBE(p[16..20]), FromBE(p[20..24]),
                    Raw64s(p, HEADER_LEN, NumHbids(p)), Raw64s(p, LocsAt(p), NumLocs(p))))
  }

  // ---------------------------------------------------------------- round trip

  function SwapAll(ws: seq<nat>): (s: seq<nat>)
    ensures |s| == |ws|
  {
    if ws == [] then [] else SwapAll(ws[..|ws| - 1]) + [Swap64(ws[|ws| - 1])]
  }

  lemma {:induction false} WordsSnoc(ws: seq<nat>, w: nat)
    ensures Words(ws + [w]) == Words(ws) + BE(w, 8)
  {
    if ws == [] {
      assert ws + [w] == [w] && Words([w]) == BE(w, 8) + Words([]);
    } else {
      WordsSnoc(ws[1..], w);
      assert (ws + [w])[1..] == ws[1..] + [w];
    }
  }

  /** Loading the stored words without conversion gives the swapped words. */
  lemma {:induction false} RawWords(a: seq<Byte>, ws: seq<nat>, b: seq<Byte>)
    ensures Raw64s(a + Words(ws) + b, |a|, |ws|) == SwapAll(ws)
  {
    hide BE, FromLE, Words, Raw64s, SwapAll;
    if ws == [] {
      NoWords(a, b);
    } else {
      var init, w := ws[..|ws| - 1], ws[|ws| - 1];
      assert ws == init + [w];
      WordsSnoc(init, w);
      RawWords(a, init, BE(w, 8) + b);
      LastWord(a, Words(init), BE(w, 8), b, |init|);
      LastSwap(ws);
    }
  }

  lemma NoWords(a: seq<Byte>, b: seq<Byte>)
    ensures Raw64s(a + Words([]) + b, |a|, 0) == SwapAll([])
  {
  }

  lemma LastSwap(ws: seq<nat>)
    requires ws != []
    ensures SwapAll(ws) == SwapAll(ws[..|ws| - 1]) + [Swap64(ws[|ws| - 1])]
  {
  }

  lemma LastWord(a: seq<Byte>, init: seq<Byte>, w: seq<Byte>, b: seq<Byte>, n: nat)
    requires |init| == 8 * n && |w| == 8
    ensures Raw64s(a + (init + w) + b, |a|, n + 1) == Raw64s(a + init + (w + b), |a|, n) + [FromLE(w)]
  {
    hide FromLE;
    var p := a + (init + w) + b;
    assert p == a + init + (w + b);
    assert p[|a| + 8 * n..|a| + 8 * (n + 1)] == w;
  }

  lemma HeaderFields(r: UdReq, reserved: seq<Byte>, rest: seq<Byte>)
    requires |reserved| == 3 && |r.hbids| < 65536 && |r.locs| < 65536 && r.callerId < Pow256(4) && r.reqId < Pow256(4)
    ensures var p := Header(r, reserved) + rest;
            && p[8] == r.opcode && NumHbids(p) == |r.hbids| && NumLocs(p) == |r.locs|
            && FromBE(p[16..20]) == r.callerId && FromBE(p[20..24]) == r.reqId
  {
    var p := Header(r, reserved) + rest;
    assert p[9..11] == BE(|r.hbids|, 2) && p[11..13] == BE(|r.locs|, 2);
    assert p[16..20] == BE(r.callerId, 4) && p[20..24] == BE(r.reqId, 4);
    assert Pow256(1) == 256 && Pow256(2) == 65536;
    BERound(|r.hbids|, 2);
    BERound(|r.locs|, 2);
    BERound(r.callerId, 4);
    BERound(r.reqId, 4);
  }

  lemma LocsOffset(r: UdReq, reserved: seq<Byte>, mid: seq<Byte>)
    requires Sendable(r) && |reserved| == 3 && |mid| == MidLen(r.opcode, |r.hbids|)
    ensures var p := PacketBytes(r, reserved, mid);
            && |p| == HEADER_LEN + 8 * |r.hbids| + MidLen(r.opcode, |r.hbids|) + 8 * |r.locs|
            && LocsAt(p) == |Header(r, reserved) + Words(r.hbids) + mid|
            && NumHbids(p) == |r.hbids| && NumLocs(p) == |r.locs| && p[8] == r.opcode
            && FromBE(p[16..20]) == r.callerId && FromBE(p[20..24]) == r.reqId
  {
    HeaderFields(r, reserved, Words(r.hbids) + mid + Words(r.locs));
    assert PacketBytes(r, reserved, mid) == Header(r, reserved) + (Words(r.hbids) + mid + Words(r.locs));
  }

  /** Parsing what the client built recovers the opcode, the counts and both IDs, and each raw word
      is the byte-swapped original; the packet fits the 8192-byte buffer and is shorter than a
      page, so the simulator takes it for a header. */
  lemma PacketRoundTrip(r: UdReq, reserved: seq<Byte>, mid: seq<Byte>)
    requires Sendable(r) && |reserved| == 3 && |mid| == MidLen(r.opcode, |r.hbids|)
    ensures var p := PacketBytes(r, reserved, mid);
            && |p| == 32 + 8 * |r.hbids| + (if IsWrite(r.opcode) then 20 else 8) * |r.hbids| + 8 * |r.locs|
            && HEADER_LEN < |p| < PAGE_SIZE && |p| <= 8192
            && |p| >= LocsAt(p) + 8 * NumLocs(p)
            && Parse(p) == Some(CnReq(r.opcode, |r.hbids|, r.callerId, r.reqId, SwapAll(r.hbids), SwapAll(r.locs)))
  {
    hide Header, BE, FromBE, Raw64s, Words, SwapAll, Words64, Pow256;
    var p, h := PacketBytes(r, reserved, mid), Header(r, reserved);
    LocsOffset(r, reserved, mid);
    RawWords(h, r.hbids, mid + Words(r.locs));
    assert p == h + Words(r.hbids) + (mid + Words(r.locs));
    RawWords(h + Words(r.hbids) + mid, r.locs, []);
    assert p == h + Words(r.hbids) + mid + Words(r.locs) + [];
  }

  /** The same by opcode number: the four kinds of write carry 20 bytes a block between the HBIDs and
      the locations, the four kinds of read eight; the heart beat is not a request. */
  lemma PacketByOpcode(r: UdReq, reserved: seq<Byte>, mid: seq<Byte>)
    requires Words64(r.hbids) && Words64(r.locs) && r.callerId < Pow256(4) && r.reqId < Pow256(4)
    requires 1 <= |r.hbids| <= MAX_LBS && |r.locs| <= MAX_LBS && |reserved| == 3
    requires r.opcode in {3, 12, 14, 16} ==> |mid| == 20 * |r.hbids|
    requires r.opcode in {4, 13, 15, 17} ==> |mid| == 8 * |r.hbids|
    ensures var p := PacketBytes(r, reserved, mid);
            && |p| == 32 + 8 * |r.hbids| + |mid| + 8 * |r.locs|
            && (r.opcode in {3, 4, 12, 13, 14, 15, 16, 17} ==>
                  && |p| >= LocsAt(p) + 8 * NumLocs(p)
                  && Parse(p) == Some(CnReq(r.opcode, |r.hbids|, r.callerId, r.reqId,
                                            SwapAll(r.hbids), SwapAll(r.locs))))
            && (r.opcode == 10 && |p| >= LocsAt(p) + 8 * NumLocs(p) ==> Parse(p).None?)
  {
    hide Words, Words64, NumLocs, Raw64s, SwapAll;
    if r.opcode in {3, 4, 12, 13, 14, 15, 16, 17} {
      hide Header, Parse, LocsAt;
      PacketRoundTrip(r, reserved, mid);
    } else {
      assert PacketBytes(r, reserved, mid)[8] == r.opcode;
    }
  }

  /** Swapping back gives the words that were sent. */
  lemma {:induction false} SwapAllBack(ws: seq<nat>, i: nat)
    requires Words64(ws) && i < |ws|
    ensures SwapAll(ws)[i] == Swap64(ws[i]) && FromBE(LE(SwapAll(ws)[i], 8)) == ws[i]
    decreases |ws|
  {
    var init := ws[..|ws| - 1];
    if i < |ws| - 1 {
      SwapAllBack(init, i);
    } else {
      SwapTwice(ws[i]);
    }
  }

  // ---------------------------------------------------------------- building the packet in place

  /** The buffer with `s` written at `off`. */
  function Splice(b: seq<Byte>, off: nat, s: seq<Byte>): (r: seq<Byte>)
    requires off + |s| <= |b|
    ensures |r| == |b|
  {
    b[..off] + s + b[off + |s|..]
  }

  lemma SpliceTwice(b: seq<Byte>, off: nat, s: seq<Byte>, t: seq<Byte>)
    requires off + |s| + |t| <= |b|
    ensures Splice(Splice(b, off, s), off + |s|, t) == Splice(b, off, s + t)
  {
  }

  /** A store: every byte of `s` goes to its place and nothing else changes. */
  method Store(buf: array<Byte>, off: nat, s: seq<Byte>)
    requires off + |s| <= buf.Length
    modifies buf
    ensures buf[..] == Splice(old(buf[..]), off, s)
  {
    forall i | 0 <= i < |s| { buf[off + i] := s[i]; }
    assert forall i :: 0 <= i < buf.Length ==> buf[..][i] == Splice(old(buf[..]), off, s)[i];
  }

  /** `_gen_DNReq_header`: seven stores; the reserved bytes keep their old content. */
  method GenHeader(buf: array<Byte>, r: UdReq) returns (len: nat)
    requires buf.Length >= HEADER_LEN
    modifies buf
    ensures len == HEADER_LEN && buf[..] == Splice(old(buf[..]), 0, Header(r, old(buf[13..16])))
  {
    hide BE;
    ghost var b, res := buf[..], buf[13..16];
    Store(buf, 0, MAGIC);
    Store(buf, 8, [r.opcode]);
    Store(buf, 9, BE(|r.hbids|, 2));
    Store(buf, 11, BE(|r.locs|, 2));
    Store(buf, 16, BE(r.callerId, 4));
    Store(buf, 20, BE(r.reqId, 4));
    Store(buf, 24, MAGIC);
    HeaderStores(b, r, BE(|r.hbids|, 2), BE(|r.locs|, 2), BE(r.callerId, 4), BE(r.reqId, 4));
    len := HEADER_LEN;
  }

  lemma HeaderStores(b: seq<Byte>, r: UdReq, n: seq<Byte>, m: seq<Byte>, c: seq<Byte>, d: seq<Byte>)
    requires |b| >= HEADER_LEN && |n| == |m| == 2 && |c| == |d| == 4
    ensures var b1 := Splice(Splice(Splice(Splice(b, 0, MAGIC), 8, [r.opcode]), 9, n), 11, m);
            (Splice(Splice(Splice(b1, 16, c), 20, d), 24, MAGIC)
             == Splice(b, 0, MAGIC + [r.opcode] + n + m + b[13..16] + c + d + MAGIC))
  {
    SpliceTwice(b, 0, MAGIC, [r.opcode]);
    SpliceTwice(b, 0, MAGIC + [r.opcode], n);
    SpliceTwice(b, 0, MAGIC + [r.opcode] + n, m);
    var front := MAGIC + [r.opcode] + n + m;
    var b1 := Splice(b, 0, front);
    SpliceTwice(b1, 16, c, d);
    SpliceTwice(b1, 16, c + d, MAGIC);
    assert Splice(b1, 16, c + d + MAGIC) == Splice(b, 0, front + b[13..16] + (c + d + MAGIC));
    assert front + b[13..16] + (c + d + MAGIC) == front + b[13..16] + c + d + MAGIC;
  }

  lemma NothingStored(b: seq<Byte>, off: nat)
    requires off <= |b|
    ensures Splice(b, off, Words([])) == b
  {
  }

  /** `_fill_u64_array_pkt`. */
  method FillWords(buf: array<Byte>, off: nat, ws: seq<nat>) returns (len: nat)
    requires off + 8 * |ws| <= buf.Length
    modifies buf
    ensures len == 8 * |ws| && buf[..] == Splice(old(buf[..]), off, Words(ws))
  {
    hide BE, Words, Splice;
    ghost var b := buf[..];
    var i := 0;
    NothingStored(b, off);
    while i < |ws|
      invariant 0 <= i <= |ws| && buf[..] == Splice(b, off, Words(ws[..i]))
    {
      Store(buf, off + 8 * i, BE(ws[i], 8));
      assert ws[..i + 1] == ws[..i] + [ws[i]];
      WordsSnoc(ws[..i], ws[i]);
      SpliceTwice(b, off, Words(ws[..i]), BE(ws[i], 8));
      i := i + 1;
    }
    assert ws[..i] == ws;
    len := 8 * |ws|;
  }

  function Middle(op: Byte, n: nat, fps: seq<Byte>): (s: seq<Byte>)
    requires |fps| == FP_LENGTH * n
    ensures |s| == MidLen(op, n)
  {
    if IsWrite(op) then fps else if IsRead(op) then Mask(n) else []
  }

  /** A read packet asks for every sector of every block: eight mask bytes for each, after the HBIDs. */
  lemma ReadMaskAt(r: UdReq, reserved: seq<Byte>, fps: seq<Byte>, j: nat)
    requires IsRead(r.opcode) && |reserved| == 3 && |fps| == FP_LENGTH * |r.hbids| && j < 8 * |r.hbids|
    ensures var p := PacketBytes(r, reserved, Middle(r.opcode, |r.hbids|, fps));
            HEADER_LEN + 8 * |r.hbids| + j < |p| && p[HEADER_LEN + 8 * |r.hbids| + j] == if j % 8 == 0 then 1 else 0
  {
    hide Header, Words, Mask;
    MaskAt(|r.hbids|, j);
  }

  /** `DNProto_gen_ReqPacket`, given the fingerprint bytes of a write. */
  method GenReqPacket(buf: array<Byte>, r: UdReq, fps: seq<Byte>) returns (len: nat)
    requires |fps| == FP_LENGTH * |r.hbids|
    requires buf.Length >= HEADER_LEN + 8 * |r.hbids| + MidLen(r.opcode, |r.hbids|) + 8 * |r.locs|
    modifies buf
    ensures len == HEADER_LEN + 8 * |r.hbids| + MidLen(r.opcode, |r.hbids|) + 8 * |r.locs|
    ensures var p := PacketBytes(r, old(buf[13..16]), Middle(r.opcode, |r.hbids|, fps));
            |p| == len && buf[..] == Splice(old(buf[..]), 0, p)
  {
    hide Header, Words, Mask, Middle, MidLen, Splice;
    ghost var b, res := buf[..], buf[13..16];
    len := GenHeader(buf, r);
    var done := FillWords(buf, len, r.hbids);
    SpliceTwice(b, 0, Header(r, res), Words(r.hbids));
    len := len + done;
    var mid := Middle(r.opcode, |r.hbids|, fps);
    Store(buf, len, mid);
    SpliceTwice(b, 0, Header(r, res) + Words(r.hbids), mid);
    len := len + |mid|;
    done := FillWords(buf, len, r.locs);
    SpliceTwice(b, 0, Header(r, res) + Words(r.hbids) + mid, Words(r.locs));
    len := len + done;
  }
}
