/** What each step of a request does, state by state, and whole lives from a new request to its
    free. */
module RequestLife {
  import opened Wrappers
  import opened RequestFsm
  import opened Request
  import opened RequestRaces

  // ---------------------------------------------------------------- steps, exactly

  /** A memory ack is processed, with one more reference, exactly while the request waits for its
      response; in every other state it changes nothing. */
  lemma MemAckExactly(r: Req)
    requires r.inPool
    ensures After(r, MemAck) ==
            if r.st.WaitResp? then r.(ref := r.ref + 1, ack := r.ack.(memory := r.ack.memory + 1)) else r
  {
  }

  /** The final ack claims the request exactly while it waits for its response with its pool bit set;
      in every state but that one it changes nothing. */
  lemma FinalAckExactly(r: Req)
    requires r.inPool
    ensures After(r, FinalAck) ==
            if !r.st.WaitResp? then r
            else if !r.poolBit then r.(st := ProcessResp)
            else r.(st := ProcessResp, ref := r.ref + 1, poolBit := false, inPool := false,
                    ack := r.ack.(finals := r.ack.finals + 1), ackClaims := r.ackClaims + 1)
  {
  }

  /** A peek takes the request off the worker queue and hands it to a sender, with one more reference,
      exactly while it waits to be sent. */
  lemma PeekExactly(r: Req)
    requires r.queueBit
    ensures After(r, PeekStep) ==
            if r.st.WaitSend?
            then r.(st := Sending, queueBit := false, ref := r.ref + 1, send := r.send.(peeked := r.send.peeked + 1))
            else r.(queueBit := false)
  {
  }

  /** The sender goes on to send whatever the state says, and the request waits for its response unless
      it was cancelled meanwhile. */
  lemma SendDoneExactly(r: Req)
    requires Inv(r) && r.send.peeked > 0
    ensures After(r, SendDoneStep) ==
            r.(st := if r.st.CancelReq? then CancelReq else WaitResp,
               send := r.send.(peeked := r.send.peeked - 1, sending := r.send.sending + 1))
  {
  }

  /** A reconnect thread collects the request, with one more reference, exactly when it is for that
      datanode and waits for its response. */
  lemma CollectExactly(r: Req, thread: nat, back: nat)
    requires r.inPool
    ensures After(r, Collect(thread, back)) ==
            if back == r.addr && r.st.WaitResp?
            then r.(st := RetryReq, ref := r.ref + 1, onRetry := Some(thread)) else r
  {
  }

  /** After the check it goes back to the worker queue unless it was cancelled meanwhile. */
  lemma RetryChkExactly(r: Req)
    requires Inv(r) && r.retry.checking > 0
    ensures var t := r.retry.(checking := r.retry.checking - 1);
            After(r, RetryChk) == if r.st.RetryReq? then r.(st := WaitSend, retry := t.(requeuing := t.requeuing + 1))
                                  else r.(retry := t.(requeued := t.requeued + 1))
    ensures r.st.RetryReq? || r.st.CancelReq?
  {
  }

  /** Only the caller can cancel; then the request is claimed while it waits to be sent, is being sent
      or waits for its response, only marked between two sends, and in every other state nothing
      changes. */
  lemma CancelExactly(r: Req, callerId: nat)
    requires r.inPool
    ensures After(r, CancelStep(callerId)) ==
            if callerId != r.caller then r
            else if r.st.WaitSend? || r.st.Sending? || r.st.WaitResp?
            then r.(st := CancelReq, ref := r.ref + 1, inPool := false, cancelClaims := r.cancelClaims + 1,
                    cancel := r.cancel.(claimed := r.cancel.claimed + 1))
            else if r.st.RetryReq? then r.(st := CancelReq)
            else r
  {
  }

  // ---------------------------------------------------------------- whole lives

  const ACKS: seq<Step> := [MemAck, MemAckDone] + [FinalAck, FinalAckDone(FreeIt)] + [AckFree]
  const CANCEL: seq<Step> := [CancelDeref, CancelUnqueue] + [CancelFree]

  lemma Two(r: Req, e1: Step, r1: Req, e2: Step, r2: Req)
    requires Can(r, e1) && r1 == After(r, e1) && Can(r1, e2) && r2 == After(r1, e2)
    ensures Runs(r, [e1, e2], r2)
  {
    hide Can, After;
    RunsOne(r, e1);
    Extend(r, [e1], r1, e2, r2);
    assert [e1] + [e2] == [e1, e2];
  }

  lemma MemoryAcked(r: Req)
    requires r.inPool && r.st.WaitResp?
    ensures Runs(r, [MemAck, MemAckDone], r)
  {
    var r1 := r.(ref := r.ref + 1, ack := r.ack.(memory := r.ack.memory + 1));
    MemAckExactly(r);
    assert After(r1, MemAckDone) == r;
    hide After;
    Two(r, MemAck, r1, MemAckDone, r);
  }

  /** Acknowledged: off the pool, no reference of the handler left, about to be freed. */
  function Acked(r: Req): Req {
    r.(st := ProcessResp, poolBit := false, inPool := false, ack := r.ack.(freeing := r.ack.freeing + 1),
       ackClaims := r.ackClaims + 1)
  }

  lemma FinallyAcked(r: Req)
    requires r.inPool && r.st.WaitResp? && r.poolBit
    ensures Runs(r, [FinalAck, FinalAckDone(FreeIt)], Acked(r))
  {
    FinalAckExactly(r);
    var r1 := After(r, FinalAck);
    assert r1.ack.finals > 0 && After(r1, FinalAckDone(FreeIt)) == Acked(r);
    hide After;
    Two(r, FinalAck, r1, FinalAckDone(FreeIt), Acked(r));
  }

  lemma FreedNow(r: Req)
    requires r.ref == 0
    ensures Runs(Acked(r), [AckFree], Acked(r).(ack := r.ack, frees := r.frees + 1))
  {
    var r1 := Acked(r);
    assert After(r1, AckFree) == r1.(ack := r.ack, frees := r.frees + 1);
    hide After;
    RunsOne(r1, AckFree);
  }

  /** A request that waits for its response and is held by nobody: a memory ack, the final ack, freed. */
  lemma AckedLife(r: Req)
    requires r.inPool && r.st.WaitResp? && r.poolBit && r.ref == 0
    ensures Runs(r, ACKS, Acked(r).(ack := r.ack, frees := r.frees + 1))
  {
    hide Runs;
    MemoryAcked(r);
    FinallyAcked(r);
    FreedNow(r);
    RunsAppend(r, [MemAck, MemAckDone], r, [FinalAck, FinalAckDone(FreeIt)], Acked(r));
    RunsAppend(r, [MemAck, MemAckDone] + [FinalAck, FinalAckDone(FreeIt)], Acked(r), [AckFree],
               Acked(r).(ack := r.ack, frees := r.frees + 1));
  }

  /** Every new request can be enqueued, sent, acknowledged in memory, acknowledged finally and freed. */
  lemma PlainLife(high: bool, caller: nat, addr: nat, plain: bool)
    ensures var s := SentOnce(high, caller, addr, plain);
            Runs(NewReq(high, caller, addr, plain), ENQUEUE + SEND + ACKS, Acked(s).(ack := s.ack, frees := 1))
  {
    var r, s := NewReq(high, caller, addr, plain), SentOnce(high, caller, addr, plain);
    hide Runs;
    SentOnceReached(high, caller, addr, plain);
    AckedLife(s);
    RunsAppend(r, ENQUEUE + SEND, s, ACKS, Acked(s).(ack := s.ack, frees := 1));
  }

  /** A request that waits for its response can be collected and sent again, and ends as it was. */
  lemma Resent(r: Req)
    requires r.inPool && r.st.WaitResp? && r.sent && r.plain && !r.queueBit && r.onRetry.None?
    ensures Runs(r, [Collect(0, r.addr)] + REQUEUE + SEND, r)
  {
    CollectExactly(r, 0, r.addr);
    RunsOne(r, Collect(0, r.addr));
    hide Runs, Can, After;
    var r1 := r.(st := RetryReq, ref := r.ref + 1, onRetry := Some(0));
    Requeue(r1);
    var r2 := Waiting(r1).(ref := r1.ref - 1, onRetry := None);
    RunsAppend(r, [Collect(0, r.addr)], r1, REQUEUE, r2);
    SendIt(r2);
    RunsAppend(r, [Collect(0, r.addr)] + REQUEUE, r2, SEND, r);
  }

  /** Every new request whose opcode is sent as it is can be collected after a reconnect, sent again,
      acknowledged and freed. */
  lemma ResentLife(high: bool, caller: nat, addr: nat)
    ensures var s := SentOnce(high, caller, addr, true);
            Runs(NewReq(high, caller, addr, true), ENQUEUE + SEND + ([Collect(0, addr)] + REQUEUE + SEND) + ACKS,
                 Acked(s).(ack := s.ack, frees := 1))
  {
    var r, s := NewReq(high, caller, addr, true), SentOnce(high, caller, addr, true);
    hide Runs;
    SentOnceReached(high, caller, addr, true);
    Resent(s);
    RunsAppend(r, ENQUEUE + SEND, s, [Collect(0, addr)] + REQUEUE + SEND, s);
    AckedLife(s);
    RunsAppend(r, ENQUEUE + SEND + ([Collect(0, addr)] + REQUEUE + SEND), s, ACKS,
               Acked(s).(ack := s.ack, frees := 1));
  }

  /** Every new request can be cancelled after it was sent, and freed. */
  lemma CancelledLife(high: bool, caller: nat, addr: nat, plain: bool)
    ensures var s := SentOnce(high, caller, addr, plain);
            Runs(NewReq(high, caller, addr, plain), ENQUEUE + SEND + [CancelStep(caller)] + CANCEL,
                 s.(st := CancelReq, inPool := false, cancelClaims := 1, frees := 1))
  {
    var r, s := NewReq(high, caller, addr, plain), SentOnce(high, caller, addr, plain);
    CancelExactly(s, caller);
    RunsOne(s, CancelStep(caller));
    var s1 := s.(st := CancelReq, ref := 1, inPool := false, cancelClaims := 1, cancel := CancelThreads(1, 0, 0));
    CancelEnds(s1);
    hide Runs, Can, After;
    SentOnceReached(high, caller, addr, plain);
    RunsAppend(r, ENQUEUE + SEND, s, [CancelStep(caller)], s1);
    RunsAppend(r, ENQUEUE + SEND + [CancelStep(caller)], s1, CANCEL,
               s.(st := CancelReq, inPool := false, cancelClaims := 1, frees := 1));
  }

  lemma CancelEnds(r: Req)
    requires r.cancel == CancelThreads(1, 0, 0) && r.ref == 1 && !r.queueBit
    ensures Runs(r, CANCEL, r.(ref := 0, cancel := CancelThreads(0, 0, 0), frees := r.frees + 1))
  {
    var r1 := r.(ref := 0, cancel := CancelThreads(0, 1, 0));
    var r2 := r1.(cancel := CancelThreads(0, 0, 1));
    var r3 := r2.(cancel := CancelThreads(0, 0, 0), frees := r.frees + 1);
    assert After(r, CancelDeref) == r1;
    assert After(r1, CancelUnqueue) == r2;
    assert Can(r2, CancelFree) && After(r2, CancelFree) == r3;
    hide After, Can;
    Two(r, CancelDeref, r1, CancelUnqueue, r2);
    RunsOne(r2, CancelFree);
    hide Runs;
    RunsAppend(r, [CancelDeref, CancelUnqueue], r2, [CancelFree], r3);
  }
}
