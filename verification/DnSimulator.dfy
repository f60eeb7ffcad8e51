/** The datanode simulator: size-based framing of what the client sends, and the state machine
    that answers the client's reads. */
module DnSimulator {
  import opened Wrappers
  import opened Bytes
  import opened Packet
  import opened AckPacket
  import opened Segments

  datatype TxState = TxInit | RHderDone | RDataDone | WMemAckDone | WDiskAckDone

  datatype Sim = Sim(
    rxPend: Option<CnReq>,    // write whose payload is still coming in
    rxSize: nat,              // payload bytes still missing
    txPend: Option<CnReq>,    // request being answered
    txState: TxState,
    pool: seq<CnReq>)         // submitted requests, first in first out

  const IDLE := Sim(None, 0, None, TxInit, [])

  predicate HasPayload(op: Byte) { op == WRITE || op == WRITE_NO_IO }

  // ---------------------------------------------------------------- receiving

  /** What the simulator can be handed: a data request header, or payload after a write header. */
  ghost predicate Accepts(s: Sim, p: seq<Byte>) {
    if |p| < PAGE_SIZE
    then |p| >= HEADER_LEN && |p| >= LocsAt(p) + 8 * NumLocs(p) && Parse(p).Some?
    else s.rxPend.Some?
  }

  /** `discoDNSrv_rx_rcv`: anything shorter than a page is a header; the 32-bit count of missing
      payload wraps. */
  function RxRcv(s: Sim, p: seq<Byte>): Sim
    requires Accepts(s, p)
  {
    if |p| < PAGE_SIZE then
      var r := Parse(p).value;
      if HasPayload(r.opcode) then s.(rxPend := Some(r), rxSize := r.numHbids * LB_SIZE)
      else if IsWrite(r.opcode) || IsRead(r.opcode) then s.(pool := s.pool + [r])
      else s
    else
      var left := (s.rxSize - |p|) % 0x1_0000_0000;
      if left == 0 then s.(rxPend := None, rxSize := 0, pool := s.pool + [s.rxPend.value])
      else s.(rxSize := left)
  }

  /** The packets `ps`, sent one after the other, take the simulator from `s` to `s'`. */
  ghost predicate Delivers(s: Sim, ps: seq<seq<Byte>>, s': Sim)
    decreases |ps|
  {
    if ps == [] then s' == s else Accepts(s, ps[0]) && Delivers(RxRcv(s, ps[0]), ps[1..], s')
  }

  /** One request as the client sends it. */
  datatype Outgoing = Outgoing(r: UdReq, reserved: seq<Byte>, mid: seq<Byte>, data: seq<seq<Byte>>)

  function Total(data: seq<seq<Byte>>): nat { if data == [] then 0 else |data[0]| + Total(data[1..]) }

  ghost predicate Framed(o: Outgoing) {
    && Sendable(o.r) && |o.reserved| == 3 && |o.mid| == MidLen(o.r.opcode, |o.r.hbids|)
    && (forall i :: 0 <= i < |o.data| ==> |o.data[i]| >= PAGE_SIZE)
    && Total(o.data) == |o.r.hbids| * LB_SIZE
  }

  function Stream(o: Outgoing): seq<seq<Byte>>
    requires |o.reserved| == 3
  {
    [PacketBytes(o.r, o.reserved, o.mid)] + if HasPayload(o.r.opcode) then o.data else []
  }

  function Parsed(r: UdReq): CnReq {
    CnReq(r.opcode, |r.hbids|, r.callerId, r.reqId, SwapAll(r.hbids), SwapAll(r.locs))
  }

  ghost function StreamAll(os: seq<Outgoing>): seq<seq<Byte>>
    requires forall i :: 0 <= i < |os| ==> Framed(os[i])
  {
    if os == [] then [] else assert Framed(os[0]); Stream(os[0]) + StreamAll(os[1..])
  }

  function ParsedAll(os: seq<Outgoing>): seq<CnReq> {
    if os == [] then [] else [Parsed(os[0].r)] + ParsedAll(os[1..])
  }

  lemma {:induction false} DeliversAppend(s: Sim, ps: seq<seq<Byte>>, t: Sim, qs: seq<seq<Byte>>, u: Sim)
    requires Delivers(s, ps, t) && Delivers(t, qs, u)
    ensures Delivers(s, ps + qs, u)
    decreases |ps|
  {
    hide RxRcv, Accepts;
    if ps == [] {
      assert ps + qs == qs;
    } else {
      DeliversAppend(RxRcv(s, ps[0]), ps[1..], t, qs, u);
      assert (ps + qs)[1..] == ps[1..] + qs;
    }
  }

  /** The payload: nothing is submitted before the last segment, and then exactly the request. */
  lemma {:induction false} PayloadDelivers(s: Sim, data: seq<seq<Byte>>)
    requires s.rxPend.Some? && data != [] && s.rxSize == Total(data) < 0x1_0000_0000
    requires forall i :: 0 <= i < |data| ==> |data[i]| >= PAGE_SIZE
    ensures Delivers(s, data, s.(rxPend := None, rxSize := 0, pool := s.pool + [s.rxPend.value]))
    ensures forall k :: 0 <= k < |data| ==> Delivers(s, data[..k], s.(rxSize := Total(data[k..])))
    decreases |data|
  {
    var s1 := RxRcv(s, data[0]);
    assert data[0..] == data;
    if |data| > 1 {
      assert |data[1]| >= PAGE_SIZE && Total(data[1..]) >= |data[1]|;
      PayloadDelivers(s1, data[1..]);
      forall k | 0 <= k < |data| ensures Delivers(s, data[..k], s.(rxSize := Total(data[k..]))) {
        if k > 0 {
          assert data[..k][1..] == data[1..][..k - 1] && data[1..][k - 1..] == data[k..];
        }
      }
    } else {
      assert data[1..] == [];
    }
  }

  lemma HeaderAccepted(s: Sim, o: Outgoing)
    requires Framed(o)
    ensures var p := PacketBytes(o.r, o.reserved, o.mid);
            && Accepts(s, p) && RxRcv(s, p) ==
               if HasPayload(o.r.opcode) then s.(rxPend := Some(Parsed(o.r)), rxSize := |o.r.hbids| * LB_SIZE)
               else s.(pool := s.pool + [Parsed(o.r)])
  {
    hide PacketBytes, LocsAt, NumLocs, SwapAll, Parse, Words64;
    PacketRoundTrip(o.r, o.reserved, o.mid);
  }

  /** The same by opcode number: two kinds of write wait for 4096 bytes a block, every other request is
      submitted at once. */
  lemma HeaderByOpcode(s: Sim, o: Outgoing)
    requires Framed(o)
    ensures var p, op := PacketBytes(o.r, o.reserved, o.mid), o.r.opcode;
            && Accepts(s, p)
            && RxRcv(s, p) == if op == 3 || op == 14
                              then s.(rxPend := Some(Parsed(o.r)), rxSize := |o.r.hbids| * 4096)
                              else s.(pool := s.pool + [Parsed(o.r)])
  {
    hide Framed, Accepts, RxRcv, Parsed;
    HeaderAccepted(s, o);
  }

  lemma OneDelivers(s: Sim, o: Outgoing)
    requires Framed(o) && s.rxPend.None? && s.rxSize == 0
    ensures Delivers(s, Stream(o), s.(pool := s.pool + [Parsed(o.r)]))
  {
    hide PacketBytes, Parse, Sendable;
    HeaderAccepted(s, o);
    var p := PacketBytes(o.r, o.reserved, o.mid);
    var s1 := RxRcv(s, p);
    assert Stream(o)[1..] == if HasPayload(o.r.opcode) then o.data else [];
    if HasPayload(o.r.opcode) {
      SizeFits(o);
      PayloadDelivers(s1, o.data);
    }
  }

  lemma SizeFits(o: Outgoing)
    requires Framed(o)
    ensures 0 < Total(o.data) < 0x1_0000_0000 && o.data != []
  {
  }

  /** Whatever the client sends, the simulator ends with every request submitted once, in the order
      sent, and with no payload pending. */
  lemma {:induction false} FramingExact(s: Sim, os: seq<Outgoing>)
    requires s.rxPend.None? && s.rxSize == 0 && forall i :: 0 <= i < |os| ==> Framed(os[i])
    ensures Delivers(s, StreamAll(os), s.(pool := s.pool + ParsedAll(os)))
    decreases |os|
  {
    hide Sendable, MidLen, Total, Stream, Parsed, RxRcv, Accepts;
    if os == [] {
      assert s.pool + ParsedAll(os) == s.pool;
    } else {
      var s1 := s.(pool := s.pool + [Parsed(os[0].r)]);
      assert Framed(os[0]);
      OneDelivers(s, os[0]);
      FramingExact(s1, os[1..]);
      assert s1.pool + ParsedAll(os[1..]) == s.pool + ParsedAll(os);
      DeliversAppend(s, Stream(os[0]), s1, StreamAll(os[1..]), s.(pool := s.pool + ParsedAll(os)));
    }
  }

  // ---------------------------------------------------------------- the segments are well framed

  /** The bytes of each segment. */
  function SegDatas(chunks: seq<seq<Byte>>, segs: seq<Seg>): seq<seq<Byte>>
    requires SegsOk(chunks, segs)
  {
    if segs == [] then [] else SegDatas(chunks, segs[..|segs| - 1]) + [SegData(chunks, segs[|segs| - 1])]
  }

  lemma {:induction false} TotalSnoc(data: seq<seq<Byte>>, d: seq<Byte>)
    ensures Total(data + [d]) == Total(data) + |d|
  {
    if data == [] {
      assert data + [d] == [d] && [d][1..] == [];
    } else {
      TotalSnoc(data[1..], d);
      assert (data + [d])[1..] == data[1..] + [d];
    }
  }

  lemma NoSegments()
    ensures Total([]) == 0
  {
  }

  lemma SegLength(chunks: seq<seq<Byte>>, s: Seg)
    requires SegOk(chunks, s)
    ensures |SegData(chunks, s)| == s.len
  {
  }

  /** Segments made of whole blocks are each taken for payload, and their sizes add up. */
  lemma {:induction false} SegmentsFramed(chunks: seq<seq<Byte>>, segs: seq<Seg>)
    requires SegsOk(chunks, segs) && forall i :: 0 <= i < |segs| ==> Whole(segs[i].len)
    ensures Total(SegDatas(chunks, segs)) == |Sent(chunks, segs)|
    ensures forall i :: 0 <= i < |SegDatas(chunks, segs)| ==> |SegDatas(chunks, segs)[i]| >= PAGE_SIZE
    decreases |segs|
  {
    hide Total, Whole, SegOk;
    if segs == [] {
      NoSegments();
    } else {
      var front, s := segs[..|segs| - 1], segs[|segs| - 1];
      SegmentsFramed(chunks, front);
      assert SegOk(chunks, s);
      SegSize(chunks, s);
      SegLength(chunks, s);
      TotalSnoc(SegDatas(chunks, front), SegData(chunks, s));
    }
  }

  /** A write whose segments are whole blocks and add up to its blocks is well framed, so the
      simulator submits it once, after the last segment. */
  lemma WriteIsFramed(r: UdReq, reserved: seq<Byte>, mid: seq<Byte>, chunks: seq<seq<Byte>>, segs: seq<Seg>)
    requires Sendable(r) && |reserved| == 3 && |mid| == MidLen(r.opcode, |r.hbids|)
    requires SegsOk(chunks, segs) && (forall i :: 0 <= i < |segs| ==> Whole(segs[i].len))
    requires |Sent(chunks, segs)| == |r.hbids| * LB_SIZE
    ensures Framed(Outgoing(r, reserved, mid, SegDatas(chunks, segs)))
  {
    hide Sendable, Sent, SegDatas, Whole;
    SegmentsFramed(chunks, segs);
  }
}
