/** The client's receiver against the simulator's sender: one read of the client is one call of
    the simulator, which answers without looking at what the client expects. */
module DnLockStep {
  import opened Wrappers
  import opened Bytes
  import opened Packet
  import opened AckPacket
  import opened Segments
  import opened DnSimulator

  predicate PayloadRead(op: Byte) { op == READ || op == READ_NO_IO }

  function AckOf(kind: Byte, r: CnReq): Ack { Ack(kind, r.numHbids, r.pReqId, r.dnReqId) }

  // ---------------------------------------------------------------- the simulator answers a read

  /** Nothing to answer: the read waits. */
  predicate Blocks(s: Sim) { if s.txState.TxInit? then s.pool == [] else s.txPend.None? }

  /** `_gen_txAck_packet`: the next state and the ack written, if any. A data read changes nothing
      in the buffer, and an unknown opcode is answered with an uninitialised ack. */
  function GenTx(st: TxState, r: CnReq): (TxState, Option<Ack>) {
    match st
    case TxInit =>
      if IsWrite(r.opcode) then (WMemAckDone, Some(AckOf(MEM_ACK, r)))
      else if PayloadRead(r.opcode) then (RHderDone, Some(AckOf(READ_PAYLOAD_ACK, r)))
      else if IsRead(r.opcode) then (RDataDone, Some(AckOf(READ_NO_PAYLOAD_ACK, r)))
      else (st, None)
    case RHderDone => (RDataDone, None)
    case WMemAckDone => (WDiskAckDone, Some(AckOf(DISK_ACK, r)))
    case _ => (st, None)
  }

  /** `discoDNSrv_tx_send`. */
  function TxSend(s: Sim): (Sim, Option<Ack>)
    requires !Blocks(s)
  {
    var s1 := if s.txState.TxInit? then s.(txPend := Some(s.pool[0]), pool := s.pool[1..]) else s;
    var (st, out) := GenTx(s.txState, s1.txPend.value);
    (if st.WDiskAckDone? || st.RDataDone? then s1.(txPend := None, txState := TxInit) else s1.(txState := st), out)
  }

  // ---------------------------------------------------------------- the client receives

  /** Sizes of the data reads for an expected size: full chunks and a rest. */
  function ChunkReads(size: int): (rs: seq<nat>)
    ensures |rs| == if size <= 0 then 0 else (size + CHUNK - 1) / CHUNK
    decreases size
  {
    if size <= 0 then [] else [if size >= CHUNK then CHUNK else size] + ChunkReads(size - CHUNK)
  }

  function Sum(rs: seq<nat>): nat { if rs == [] then 0 else rs[0] + Sum(rs[1..]) }

  /** The data reads ask for exactly the expected bytes, none of them for more than a chunk. */
  lemma {:induction false} ReadsAddUp(size: nat)
    ensures Sum(ChunkReads(size)) == size && forall r :: r in ChunkReads(size) ==> 0 < r <= CHUNK
  {
    if size >= CHUNK {
      ReadsAddUp(size - CHUNK);
      assert ChunkReads(size) == [CHUNK] + ChunkReads(size - CHUNK);
    } else if size > 0 {
      assert ChunkReads(size) == [size];
    }
  }

  lemma NextRead(left: int)
    ensures ChunkReads(left)
            == if left <= 0 then [] else [if left >= CHUNK then CHUNK else left] + ChunkReads(left - CHUNK)
  {
  }

  lemma Assoc<T>(a: seq<T>, b: seq<T>, c: seq<T>)
    ensures a + b + c == a + (b + c)
  {
  }

  /** The loop of `_DNCWker_rcv_readData`. */
  method RcvReadData(expected: int) returns (sizes: seq<nat>)
    ensures sizes == ChunkReads(expected)
  {
    hide ChunkReads;
    NextRead(expected);
    sizes := [];
    var left := expected;
    assert [] + ChunkReads(left) == ChunkReads(expected);
    while left > 0
      invariant sizes + ChunkReads(left) == ChunkReads(expected)
      decreases left
    {
      var rcv := if left >= CHUNK then CHUNK else left;
      NextRead(left);
      NextRead(left - CHUNK);
      Assoc(sizes, [rcv], ChunkReads(left - CHUNK));
      sizes := sizes + [rcv];
      left := left - CHUNK;
    }
  }

  datatype Receipt = Receipt(ack: Ack, chunks: seq<nat>)

  /** The receiver between two reads: at the start of a round, or with data reads left. */
  datatype Client = Ready | Reading(receipt: Receipt, left: nat)

  /** What one read ends in. */
  datatype Outcome = Waiting | Garbled | Done(s: Sim, c: Client, got: seq<Receipt>)

  /** `_DNCWker_rcv_dnAck`, one read of the socket at a time: the ack bytes are decoded; payload is
      read for READ_PAYLOAD, and made up, without reading, for READ_NO_PAYLOAD. */
  function Read(s: Sim, c: Client): Outcome {
    if Blocks(s) then Waiting
    else
      var (s1, out) := TxSend(s);
      if c.Reading? then
        if c.left <= 1 then Done(s1, Ready, [c.receipt]) else Done(s1, c.(left := c.left - 1), [])
      else if out.None? then Garbled
      else
        var a := ParseAck(AckBytes(out.value));
        var data := a.kind == READ_PAYLOAD_ACK || a.kind == READ_NO_PAYLOAD_ACK;
        var sizes := if data then ChunkReads(a.numLb * LB_SIZE) else [];
        if a.kind == READ_PAYLOAD_ACK && sizes != [] then Done(s1, Reading(Receipt(a, sizes), |sizes|), [])
        else Done(s1, Ready, [Receipt(a, sizes)])
  }

  // ---------------------------------------------------------------- in step

  /** A data request whose ack can carry its count and IDs. */
  ghost predicate Answerable(r: CnReq) {
    (IsWrite(r.opcode) || IsRead(r.opcode)) && Fits(AckOf(MEM_ACK, r))
  }

  /** A read with payload fits one chunk. */
  predicate OneChunk(r: CnReq) { PayloadRead(r.opcode) ==> 1 <= r.numHbids <= CHUNK / LB_SIZE }

  ghost predicate Good(r: CnReq) { Answerable(r) && OneChunk(r) }

  ghost predicate InStep(s: Sim, c: Client) {
    && (forall i :: 0 <= i < |s.pool| ==> Good(s.pool[i]))
    && match c
       case Ready => s.txState.TxInit? || (s.txState.WMemAckDone? && s.txPend.Some? && Good(s.txPend.value))
       case Reading(_, left) => left == 1 && s.txState.RHderDone? && s.txPend.Some?
  }

  /** What the client should get for one request. */
  function Expected(r: CnReq): seq<Receipt> {
    if IsWrite(r.opcode) then [Receipt(AckOf(MEM_ACK, r), []), Receipt(AckOf(DISK_ACK, r), [])]
    else if PayloadRead(r.opcode) then [Receipt(AckOf(READ_PAYLOAD_ACK, r), ChunkReads(r.numHbids * LB_SIZE))]
    else [Receipt(AckOf(READ_NO_PAYLOAD_ACK, r), ChunkReads(r.numHbids * LB_SIZE))]
  }

  /** By opcode number, what the sender of a request can expect, each ack with the IDs and the block
      count it sent: a memory ack and then a disk ack for the four kinds of write, one ack and the
      payload for reads; an ack of its own kind says that no payload follows. */
  lemma AnswersByOpcode(r: UdReq)
    ensures var op, n, rs := r.opcode, |r.hbids|, Expected(Parsed(r));
            && (op in {3, 12, 14, 16} ==>
                  rs == [Receipt(Ack(102, n, r.callerId, r.reqId), []), Receipt(Ack(103, n, r.callerId, r.reqId), [])])
            && (op in {4, 15} ==> rs == [Receipt(Ack(101, n, r.callerId, r.reqId), ChunkReads(4096 * n))])
            && (op in {13, 17} ==> rs == [Receipt(Ack(110, n, r.callerId, r.reqId), ChunkReads(4096 * n))])
  {
    hide ChunkReads;
  }

  function ExpectedAll(rs: seq<CnReq>): seq<Receipt> {
    if rs == [] then [] else Expected(rs[0]) + ExpectedAll(rs[1..])
  }

  /** What is still owed to the client. */
  function Owed(s: Sim, c: Client): seq<Receipt> {
    (if c.Reading? then [c.receipt]
     else if s.txState.WMemAckDone? && s.txPend.Some? then [Receipt(AckOf(DISK_ACK, s.txPend.value), [])] else [])
    + ExpectedAll(s.pool)
  }

  lemma DecodeAck(kind: Byte, r: CnReq)
    requires Answerable(r)
    ensures ParseAck(AckBytes(AckOf(kind, r))) == AckOf(kind, r)
  {
    AckRoundTrip(AckOf(kind, r));
  }

  /** The disk ack, after the memory ack of the same write. */
  lemma DiskStep(s: Sim)
    requires InStep(s, Ready) && s.txState.WMemAckDone?
    ensures Read(s, Ready)
            == Done(s.(txPend := None, txState := TxInit), Ready, [Receipt(AckOf(DISK_ACK, s.txPend.value), [])])
  {
    hide ParseAck, AckBytes, ChunkReads;
    DecodeAck(DISK_ACK, s.txPend.value);
  }

  lemma FirstAck(s: Sim)
    requires InStep(s, Ready) && s.txState.TxInit? && s.pool != []
    ensures var r := s.pool[0]; var s1 := s.(txPend := Some(r), pool := s.pool[1..]);
            Read(s, Ready) ==
            if IsWrite(r.opcode) then Done(s1.(txState := WMemAckDone), Ready, [Expected(r)[0]])
            else if PayloadRead(r.opcode) then Done(s1.(txState := RHderDone), Reading(Expected(r)[0], 1), [])
            else Done(s1.(txPend := None), Ready, Expected(r))
  {
    hide ParseAck, AckBytes, ChunkReads;
    var r := s.pool[0];
    assert Good(r);
    if IsWrite(r.opcode) {
      DecodeAck(MEM_ACK, r);
    } else if PayloadRead(r.opcode) {
      DecodeAck(READ_PAYLOAD_ACK, r);
      OneRead(r.numHbids);
    } else {
      DecodeAck(READ_NO_PAYLOAD_ACK, r);
    }
  }

  /** Between 1 and 32 blocks are one data read, and nothing else is. */
  lemma OneRead(n: nat)
    ensures |ChunkReads(n * LB_SIZE)| == (n + 31) / 32
    ensures |ChunkReads(n * LB_SIZE)| == 1 <==> 1 <= n <= CHUNK / LB_SIZE
  {
  }

  lemma DataStep(s: Sim, c: Client)
    requires InStep(s, c) && c.Reading?
    ensures Read(s, c) == Done(s.(txPend := None, txState := TxInit), Ready, [c.receipt])
  {
  }

  /** Each read of the client delivers the next receipt it is owed or a part of it; the reading side
      of the simulator is not touched. */
  lemma ReadStep(s: Sim, c: Client)
    requires InStep(s, c) && !Blocks(s)
    ensures var d := Read(s, c);
            && d.Done? && InStep(d.s, d.c) && d.got + Owed(d.s, d.c) == Owed(s, c)
            && d.s.rxPend == s.rxPend && d.s.rxSize == s.rxSize
  {
    hide Read, Good;
    if c.Reading? {
      DataStep(s, c);
    } else if s.txState.WMemAckDone? {
      DiskStep(s);
    } else {
      FirstAck(s);
      assert Good(s.pool[0]);
    }
  }

  // ---------------------------------------------------------------- whole conversations

  /** A packet arrives at the simulator, or the client reads. */
  datatype Event = Arrive(p: seq<Byte>) | ReadOne

  /** The events take simulator and receiver from `s`, `c` to `s'`, `c'`, and the receiver gets `got`. */
  ghost predicate Chats(s: Sim, c: Client, es: seq<Event>, got: seq<Receipt>, s': Sim, c': Client)
    decreases |es|
  {
    if es == [] then got == [] && s' == s && c' == c
    else if es[0].Arrive? then Accepts(s, es[0].p) && Chats(RxRcv(s, es[0].p), c, es[1..], got, s', c')
    else
      var d := Read(s, c);
      d.Done? && |d.got| <= |got| && got[..|d.got|] == d.got && Chats(d.s, d.c, es[1..], got[|d.got|..], s', c')
  }

  /** The packets that arrive, in order. */
  function Packets(es: seq<Event>): seq<seq<Byte>> {
    if es == [] then [] else (if es[0].Arrive? then [es[0].p] else []) + Packets(es[1..])
  }

  /** The receiving side on its own: nothing submitted, nothing being answered. */
  function Front(s: Sim): Sim { IDLE.(rxPend := s.rxPend, rxSize := s.rxSize) }

  /** What a packet submits does not depend on what was submitted or answered before. */
  lemma ArrivalFrame(s: Sim, p: seq<Byte>)
    requires Accepts(s, p)
    ensures var f := RxRcv(Front(s), p);
            && Accepts(Front(s), p) && |f.pool| <= 1
            && RxRcv(s, p) == s.(rxPend := f.rxPend, rxSize := f.rxSize, pool := s.pool + f.pool)
  {
    hide Parse;
    assert s.pool + [] == s.pool;
  }

  lemma {:induction false} PoolFrame(f: Sim, ps: seq<seq<Byte>>, t: Sim)
    requires Delivers(f, ps, t)
    ensures f.pool <= t.pool && t.txPend == f.txPend && t.txState == f.txState
    ensures Delivers(f.(pool := []), ps, t.(pool := t.pool[|f.pool|..]))
    decreases |ps|
  {
    hide Parse;
    if ps != [] {
      var f1, g1 := RxRcv(f, ps[0]), RxRcv(f.(pool := []), ps[0]);
      assert Accepts(f.(pool := []), ps[0]) && f1 == g1.(pool := f.pool + g1.pool);
      PoolFrame(f1, ps[1..], t);
      PoolAppend(f1.(pool := []), g1.pool, ps[1..], t.(pool := t.pool[|f1.pool|..]));
      assert g1.pool + t.pool[|f1.pool|..] == t.pool[|f.pool|..] && g1.pool + [] == g1.pool;
    } else {
      assert t.pool[|f.pool|..] == [];
    }
  }

  lemma {:induction false} PoolAppend(f: Sim, pre: seq<CnReq>, ps: seq<seq<Byte>>, t: Sim)
    requires Delivers(f, ps, t)
    ensures Delivers(f.(pool := pre + f.pool), ps, t.(pool := pre + t.pool))
    decreases |ps|
  {
    hide Parse;
    if ps != [] {
      var f1, g1 := RxRcv(f, ps[0]), RxRcv(f.(pool := pre + f.pool), ps[0]);
      assert forall x: CnReq :: pre + f.pool + [x] == pre + (f.pool + [x]);
      assert g1 == f1.(pool := pre + f1.pool);
      PoolAppend(f1, pre, ps[1..], t);
    }
  }

  lemma {:induction false} ExpectedJoin(rs: seq<CnReq>, qs: seq<CnReq>)
    ensures ExpectedAll(rs + qs) == ExpectedAll(rs) + ExpectedAll(qs)
  {
    hide Expected;
    if rs == [] {
      assert rs + qs == qs;
    } else {
      ExpectedJoin(rs[1..], qs);
      assert (rs + qs)[0] == rs[0] && (rs + qs)[1..] == rs[1..] + qs;
      Assoc(Expected(rs[0]), ExpectedAll(rs[1..]), ExpectedAll(qs));
    }
  }

  lemma ArriveStep(s: Sim, c: Client, p: seq<Byte>)
    requires InStep(s, c) && Accepts(s, p)
    requires forall i :: 0 <= i < |RxRcv(Front(s), p).pool| ==> Good(RxRcv(Front(s), p).pool[i])
    ensures var s1 := RxRcv(s, p); var f := RxRcv(Front(s), p);
            InStep(s1, c) && Owed(s1, c) == Owed(s, c) + ExpectedAll(f.pool) && Front(s1) == f.(pool := [])
  {
    hide Good, ExpectedAll, RxRcv, Accepts;
    ArrivalFrame(s, p);
    ArrivalShape(s, p);
    ExpectedJoin(s.pool, RxRcv(Front(s), p).pool);
  }

  lemma ArrivalShape(s: Sim, p: seq<Byte>)
    requires Accepts(s, p)
    ensures Accepts(Front(s), p) && RxRcv(Front(s), p).txPend.None? && RxRcv(Front(s), p).txState.TxInit?
  {
    hide Parse;
  }

  /** However arrivals and reads interleave, what the receiver got and what it is still owed are
      together exactly what the submitted requests ask for, in order. */
  lemma {:induction false} Conversation(s: Sim, c: Client, es: seq<Event>, got: seq<Receipt>, s': Sim, c': Client,
                                        t: Sim)
    requires InStep(s, c) && Chats(s, c, es, got, s', c')
    requires Delivers(Front(s), Packets(es), t) && forall i :: 0 <= i < |t.pool| ==> Good(t.pool[i])
    ensures InStep(s', c') && got + Owed(s', c') == Owed(s, c) + ExpectedAll(t.pool)
    decreases |es|
  {
    hide Read, Owed, Expected, ExpectedAll, InStep, RxRcv, Accepts, Good;
    if es == [] {
      NothingOwed();
      assert got + Owed(s', c') == Owed(s, c) + [];
    } else if es[0].Arrive? {
      var p := es[0].p;
      assert Packets(es) == [p] + Packets(es[1..]);
      var f := RxRcv(Front(s), p);
      assert Delivers(f, Packets(es[1..]), t);
      PoolFrame(f, Packets(es[1..]), t);
      assert forall i :: 0 <= i < |f.pool| ==> f.pool[i] == t.pool[i];
      ArriveStep(s, c, p);
      var rest := t.(pool := t.pool[|f.pool|..]);
      Conversation(RxRcv(s, p), c, es[1..], got, s', c', rest);
      ExpectedJoin(f.pool, rest.pool);
      assert f.pool + rest.pool == t.pool;
      Assoc(Owed(s, c), ExpectedAll(f.pool), ExpectedAll(rest.pool));
    } else {
      assert Packets(es) == [] + Packets(es[1..]) == Packets(es[1..]);
      var d := Read(s, c);
      NotBlocked(s, c);
      ReadStep(s, c);
      assert Front(d.s) == Front(s);
      Conversation(d.s, d.c, es[1..], got[|d.got|..], s', c', t);
      assert got == d.got + got[|d.got|..];
      Prepend(d.got, got[|d.got|..], Owed(s', c'), Owed(d.s, d.c), ExpectedAll(t.pool));
    }
  }

  lemma NothingOwed()
    ensures ExpectedAll([]) == []
  {
  }

  lemma NotBlocked(s: Sim, c: Client)
    requires Read(s, c).Done?
    ensures !Blocks(s)
  {
  }

  lemma Prepend<T>(x: seq<T>, y: seq<T>, z: seq<T>, a: seq<T>, b: seq<T>)
    requires y + z == a + b
    ensures x + y + z == x + a + b
  {
    Assoc(x, y, z);
    Assoc(x, a, b);
  }

  /** Every request is well formed and every read with payload fits one chunk. */
  ghost predicate Polite(os: seq<Outgoing>) {
    forall i :: 0 <= i < |os| ==> Framed(os[i]) && OneChunk(Parsed(os[i].r))
  }

  lemma SentIsGood(o: Outgoing)
    requires Framed(o) && OneChunk(Parsed(o.r))
    ensures Good(Parsed(o.r))
  {
    assert Pow256(1) == 256 && Pow256(2) == 65536;
  }

  lemma {:induction false} SentAreGood(os: seq<Outgoing>)
    requires Polite(os)
    ensures |ParsedAll(os)| == |os| && forall i :: 0 <= i < |os| ==> Good(ParsedAll(os)[i])
  {
    hide Framed, Parsed, OneChunk, Good;
    if os != [] {
      assert Framed(os[0]);
      SentIsGood(os[0]);
      SentAreGood(os[1..]);
    }
  }

  /** The first packets of a delivery are a delivery of their own. */
  lemma {:induction false} DeliversPrefix(s: Sim, ps: seq<seq<Byte>>, qs: seq<seq<Byte>>, u: Sim) returns (t: Sim)
    requires Delivers(s, qs, u) && ps <= qs
    ensures Delivers(s, ps, t) && t.pool <= u.pool && (ps == qs ==> t == u)
    decreases |ps|
  {
    hide RxRcv, Accepts;
    if ps == [] {
      PoolFrame(s, qs, u);
      t := s;
    } else {
      t := DeliversPrefix(RxRcv(s, ps[0]), ps[1..], qs[1..], u);
    }
  }

  /** The client sends the packets of its requests, and the two sides run at any speed: at every
      moment what the receiver got and what it is still owed are together exactly what the first
      `k` requests ask for, in order - per write a memory ack and then a disk ack, per read one ack
      with its payload, each with the IDs and the block count sent. Once every packet has arrived,
      that is all of the requests. */
  lemma LockStep(s: Sim, os: seq<Outgoing>, es: seq<Event>, got: seq<Receipt>, s': Sim, c': Client)
    requires InStep(s, Ready) && s.rxPend.None? && s.rxSize == 0 && Polite(os)
    requires Chats(s, Ready, es, got, s', c') && Packets(es) <= StreamAll(os)
    ensures InStep(s', c')
    ensures exists k :: 0 <= k <= |ParsedAll(os)|
              && got + Owed(s', c') == Owed(s, Ready) + ExpectedAll(ParsedAll(os)[..k])
    ensures Packets(es) == StreamAll(os) ==> got + Owed(s', c') == Owed(s, Ready) + ExpectedAll(ParsedAll(os))
  {
    hide Framed, Parsed, OneChunk, Good, InStep, Owed, ExpectedAll, Chats, Delivers, StreamAll, ParsedAll;
    FramingExact(Front(s), os);
    SentAreGood(os);
    var all := Front(s).(pool := [] + ParsedAll(os));
    assert all.pool == ParsedAll(os);
    var t := DeliversPrefix(Front(s), Packets(es), StreamAll(os), all);
    assert forall i :: 0 <= i < |t.pool| ==> t.pool[i] == ParsedAll(os)[i];
    Conversation(s, Ready, es, got, s', c', t);
    assert t.pool == ParsedAll(os)[..|t.pool|];
  }

  // ---------------------------------------------------------------- exactly when

  /** The data reads of a round with no arrival in between, or none when one of them waits. */
  function Finish(s: Sim, c: Client): Option<Sim>
    decreases if c.Reading? then c.left + 1 else 0
  {
    if c.Ready? then Some(s)
    else
      var d := Read(s, c);
      if d.Done? then Finish(d.s, d.c) else None
  }

  /** One round of the client. */
  function Round(s: Sim): Option<Sim> {
    var d := Read(s, Ready);
    if d.Done? then Finish(d.s, d.c) else None
  }

  lemma {:induction false} FinishShrinks(s: Sim, c: Client)
    requires Finish(s, c).Some?
    ensures |Finish(s, c).value.pool| <= |s.pool|
    decreases if c.Reading? then c.left + 1 else 0
  {
    if c.Reading? { FinishShrinks(Read(s, c).s, Read(s, c).c); }
  }

  /** A read with payload leaves the two sides in step, its request answered and the others
      untouched, exactly when it has between 1 and 32 blocks. */
  lemma InStepExactly(s: Sim)
    requires s.txState.TxInit? && s.pool != [] && Answerable(s.pool[0]) && PayloadRead(s.pool[0].opcode)
    ensures (Round(s).Some? && Round(s).value.txState.TxInit? && Round(s).value.pool == s.pool[1..])
            <==> 1 <= s.pool[0].numHbids <= CHUNK / LB_SIZE
  {
    hide ParseAck, AckBytes, ChunkReads, Finish;
    var r := s.pool[0];
    var s1 := s.(txPend := Some(r), pool := s.pool[1..], txState := RHderDone);
    DecodeAck(READ_PAYLOAD_ACK, r);
    OneRead(r.numHbids);
    var k := |ChunkReads(r.numHbids * LB_SIZE)|;
    assert TxSend(s).0 == s1;
    var d := Read(s, Ready);
    if k == 0 {
      assert d.c.Ready?;
      FinishReady(s1);
    } else {
      assert d.c.Reading? && d.c.left == k && d.s == s1;
      DataReads(s1, d.c);
    }
  }

  lemma FinishReady(s: Sim)
    ensures Finish(s, Ready) == Some(s)
  {
  }

  /** The first data read ends the request; any other takes a request off the pool or waits. */
  lemma DataReads(s: Sim, c: Client)
    requires s.txState.RHderDone? && s.txPend.Some? && c.Reading? && c.left > 0
    ensures c.left == 1 ==> Finish(s, c) == Some(s.(txPend := None, txState := TxInit))
    ensures c.left > 1 && Finish(s, c).Some? ==> |Finish(s, c).value.pool| < |s.pool|
  {
    hide ParseAck, AckBytes, ChunkReads;
    var idle := s.(txPend := None, txState := TxInit);
    assert TxSend(s).0 == idle;
    if c.left == 1 {
      FinishReady(idle);
    } else {
      var c1 := c.(left := c.left - 1);
      assert Finish(s, c) == Finish(idle, c1);
      if Finish(idle, c1).Some? { FinishShrinks(Read(idle, c1).s, Read(idle, c1).c); }
    }
  }

  // ---------------------------------------------------------------- the simulator in place

  class Simulator {
    var rxPend: Option<CnReq>
    var rxSize: nat
    var txPend: Option<CnReq>
    var txState: TxState
    var pool: seq<CnReq>

    function View(): Sim
      reads this
    {
      Sim(rxPend, rxSize, txPend, txState, pool)
    }

    constructor ()
      ensures View() == IDLE
    {
      rxPend, rxSize, txPend, txState, pool := None, 0, None, TxInit, [];
    }

    method Submit(r: CnReq)
      modifies this`pool
      ensures pool == old(pool) + [r]
    {
      pool := pool + [r];
    }

    /** `discoDNSrv_rx_rcv`: the header of a request that carries payload waits for it, any other is
        submitted as it was sent; payload only counts down until the last byte, which submits the
        waiting request. */
    method RxReceive(p: seq<Byte>)
      requires Accepts(View(), p)
      modifies this
      ensures View() == RxRcv(old(View()), p)
      ensures forall o :: Framed(o) && p == PacketBytes(o.r, o.reserved, o.mid) ==>
                if HasPayload(o.r.opcode)
                then rxPend == Some(Parsed(o.r)) && rxSize == |o.r.hbids| * LB_SIZE && pool == old(pool)
                else rxPend == old(rxPend) && pool == old(pool) + [Parsed(o.r)]
      ensures PAGE_SIZE <= |p| < old(rxSize) < 0x1_0000_0000 ==>
                rxSize == old(rxSize) - |p| && rxPend == old(rxPend) && pool == old(pool)
      ensures PAGE_SIZE <= |p| == old(rxSize) ==> rxSize == 0 && rxPend.None? && pool == old(pool) + [old(rxPend).value]
    {
      ghost var s0 := View();
      forall o | Framed(o) && p == PacketBytes(o.r, o.reserved, o.mid) ensures Accepts(s0, p) && RxRcv(s0, p) ==
          if HasPayload(o.r.opcode) then s0.(rxPend := Some(Parsed(o.r)), rxSize := |o.r.hbids| * LB_SIZE)
          else s0.(pool := s0.pool + [Parsed(o.r)]) { HeaderAccepted(s0, o); }
      hide Parse, Framed, Parsed, PacketBytes;
      if |p| < PAGE_SIZE {
        var r := Parse(p).value;
        if r.opcode == WRITE || r.opcode == WRITE_NO_IO {
          rxPend, rxSize := Some(r), r.numHbids * LB_SIZE;
        } else if IsRead(r.opcode) || r.opcode == WRITE_NO_PAYLOAD || r.opcode == WRITE_NO_PAYLOAD_IO {
          Submit(r);
        }
      } else {
        rxSize := (rxSize - |p|) % 0x1_0000_0000;
        if rxSize == 0 {
          var r := rxPend.value;
          rxPend := None;
          Submit(r);
        }
      }
    }

    /** `discoDNSrv_tx_send` once there is something to answer: the buffer receives an ack header or
        is left as it was. */
    method TxTransmit(buf: array<Byte>)
      requires !Blocks(View()) && buf.Length == ACK_LEN
      requires txState.TxInit? ==> IsWrite(pool[0].opcode) || IsRead(pool[0].opcode)
      modifies this, buf
      ensures View() == TxSend(old(View())).0
      ensures var out := TxSend(old(View())).1;
              buf[..] == if out.Some? then AckBytes(out.value) else old(buf[..])
    {
      hide AckBytes;
      if txState.TxInit? {
        txPend, pool := Some(pool[0]), pool[1..];
      }
      var r := txPend.value;
      match txState {
        case TxInit =>
          if IsWrite(r.opcode) {
            GenAck(buf, AckOf(MEM_ACK, r));
            txState := WMemAckDone;
          } else if PayloadRead(r.opcode) {
            GenAck(buf, AckOf(READ_PAYLOAD_ACK, r));
            txState := RHderDone;
          } else if IsRead(r.opcode) {
            GenAck(buf, AckOf(READ_NO_PAYLOAD_ACK, r));
            txState := RDataDone;
          }
        case RHderDone =>
          txState := RDataDone;
        case WMemAckDone =>
          GenAck(buf, AckOf(DISK_ACK, r));
          txState := WDiskAckDone;
        case _ =>
      }
      if txState.WDiskAckDone? || txState.RDataDone? {
        txState, txPend := TxInit, None;
      }
    }
  }
}
