/** The races of a request, followed to their end: when exactly they do harm, and runs that reach
    them from a new request. */
module RequestRaces {
  import opened Wrappers
  import opened RequestFsm
  import opened Request

  // ---------------------------------------------------------------- references that will leak

  /** A reference has leaked or is bound to: a sender is about to skip a rewritten opcode. */
  ghost predicate Doomed(r: Req) {
    r.leaked > 0 || (!r.plain && (r.send.sending > 1 || (r.sent && r.send.sending > 0)))
  }

  lemma DoomedHoldsRef(r: Req)
    requires Inv(r) && Doomed(r)
    ensures r.ref > 0
  {
  }

  /** Sending, opcode and leaks change only where a sender ends or a final ack is given up. */
  ghost predicate SendKept(r: Req, r': Req) {
    && r'.plain == r.plain && r'.leaked >= r.leaked && (r.sent ==> r'.sent)
    && (r'.send.sending >= r.send.sending || r'.leaked > r.leaked
        || (r'.send.sending == r.send.sending - 1 && r'.sent && (r.plain || !r.sent)))
  }

  lemma SendKeptSend(r: Req, e: Step)
    requires Can(r, e) && SendPath(e)
    ensures SendKept(r, After(r, e))
  {
    AfterIs(r, e);
    hide Next, Can, After;
    var r' := SendStep(r, e);
    assert e.SendEnd? || (r'.leaked == r.leaked && r'.send.sending >= r.send.sending && r'.sent == r.sent);
  }

  lemma SendKeptAck(r: Req, e: Step)
    requires Can(r, e) && AckPath(e)
    ensures SendKept(r, After(r, e))
  {
    AckFrame(r, e);
    hide Can, After;
  }

  lemma SendKeptCancel(r: Req, e: Step)
    requires Can(r, e) && CancelPath(e)
    ensures SendKept(r, After(r, e))
  {
    CancelFrame(r, e);
    hide Can, After;
  }

  lemma SendKeptRetry(r: Req, e: Step)
    requires Can(r, e) && RetryPath(e)
    ensures SendKept(r, After(r, e))
  {
    RetryFrame(r, e);
    hide Can, After;
  }

  lemma DoomedStep(r: Req, e: Step)
    requires Inv(r) && Doomed(r) && r.frees == 0 && Can(r, e)
    ensures Doomed(After(r, e)) && After(r, e).frees == 0
  {
    hide Can, After, Inv;
    DoomedHoldsRef(r);
    if SendPath(e) {
      SendKeptSend(r, e);
      LeakSend(r, e);
    } else if AckPath(e) {
      SendKeptAck(r, e);
      LeakAck(r, e);
    } else {
      if CancelPath(e) { SendKeptCancel(r, e); } else { SendKeptRetry(r, e); }
      LeakRest(r, e);
    }
  }

  /** A request with a leaked reference, or one bound to leak, is never freed. */
  lemma {:induction false} DoomedIsNeverFreed(r: Req, es: seq<Step>, r': Req)
    requires Inv(r) && Doomed(r) && r.frees == 0 && Runs(r, es, r')
    ensures Inv(r') && Doomed(r') && r'.frees == 0
    decreases |es|
  {
    if es != [] {
      hide Inv, Doomed, Can, After;
      StepInv(r, es[0]);
      DoomedStep(r, es[0]);
      DoomedIsNeverFreed(After(r, es[0]), es[1..], r');
    }
  }

  // ---------------------------------------------------------------- the overtaken enqueue

  /** Threads that only have to drop their reference. */
  function Busy(r: Req): nat { r.ack.memory + r.send.sending + r.retry.requeued + B(r.send.submit.Enqueued?) }

  /** Every reference is the enqueuer's or that of such a thread, and none will leak. */
  ghost predicate Drains(r: Req) {
    && !Doomed(r) && Pending(r) == 1
    && r.ref == r.retry.requeuing + B(r.send.submit.Referenced?) + Busy(r)
  }

  /** What draining leaves alone. */
  ghost predicate Rest(r: Req, r': Req) {
    r'.cancel == r.cancel && r'.frees == r.frees && r'.queueBit == r.queueBit
  }

  /** One thread drops its reference. */
  lemma DrainOne(r: Req) returns (e: Step)
    requires Drains(r) && Busy(r) > 0
    ensures Can(r, e) && Drains(After(r, e)) && Busy(After(r, e)) == Busy(r) - 1 && Rest(r, After(r, e))
  {
    hide Drains, Can, After, Rest;
    if r.ack.memory > 0 {
      e := MemAckDone;
      DrainMemory(r);
    } else if r.send.sending > 0 {
      e := SendEnd;
      DrainSender(r);
    } else if r.retry.requeued > 0 {
      e := RetryDone;
      DrainRetry(r);
    } else {
      e := SubmitDone;
      DrainSubmit(r);
    }
  }

  lemma DrainMemory(r: Req)
    requires Drains(r) && r.ack.memory > 0
    ensures Can(r, MemAckDone)
    ensures var r' := After(r, MemAckDone); Drains(r') && Busy(r') == Busy(r) - 1 && Rest(r, r')
  {
    assert After(r, MemAckDone) == r.(ref := r.ref - 1, ack := r.ack.(memory := r.ack.memory - 1));
  }

  lemma DrainSender(r: Req)
    requires Drains(r) && r.send.sending > 0
    ensures Can(r, SendEnd)
    ensures var r' := After(r, SendEnd); Drains(r') && Busy(r') == Busy(r) - 1 && Rest(r, r')
  {
    assert After(r, SendEnd) == r.(sent := true, ref := r.ref - 1, send := r.send.(sending := r.send.sending - 1));
  }

  lemma DrainRetry(r: Req)
    requires Drains(r) && r.retry.requeued > 0
    ensures Can(r, RetryDone)
    ensures var r' := After(r, RetryDone); Drains(r') && Busy(r') == Busy(r) - 1 && Rest(r, r')
  {
    assert After(r, RetryDone) == r.(ref := r.ref - 1, retry := r.retry.(requeued := r.retry.requeued - 1));
  }

  lemma DrainSubmit(r: Req)
    requires Drains(r) && r.send.submit.Enqueued?
    ensures Can(r, SubmitDone)
    ensures var r' := After(r, SubmitDone); Drains(r') && Busy(r') == Busy(r) - 1 && Rest(r, r')
  {
    assert After(r, SubmitDone) == r.(ref := r.ref - 1, send := r.send.(submit := Gone));
  }

  lemma {:induction false} DrainAll(r: Req) returns (es: seq<Step>, r': Req)
    requires Drains(r)
    ensures Runs(r, es, r') && Drains(r') && Busy(r') == 0 && Rest(r, r')
    decreases Busy(r)
  {
    if Busy(r) == 0 {
      es, r' := [], r;
    } else {
      var e := DrainOne(r);
      hide Drains, Can, After;
      var fs;
      fs, r' := DrainAll(After(r, e));
      es := [e] + fs;
      RunsCons(r, e, fs, r');
    }
  }

  lemma UnqueuedDrains(r: Req)
    requires Inv(r) && r.st.WaitSend? && Pending(r) == 1 && !Doomed(r)
    ensures Drains(Unqueued(r)) && Unqueued(r).frees == 0 && Unqueued(r).cancel.freeing > 0
  {
  }

  /** A cancel that claims a request which a thread is about to enqueue can end with the request
      freed and still linked in the worker queue, exactly unless a reference of it has leaked or is
      bound to, in which case it is never freed at all. */
  lemma OvertakenExactly(r: Req)
    requires Inv(r) && r.st.WaitSend? && Pending(r) == 1
    ensures (exists es, r' :: Runs(r, [CancelStep(r.caller)] + es, r') && r'.frees == 1 && r'.queueBit) <==> !Doomed(r)
  {
    if Doomed(r) {
      NotFreed(r);
      forall es, r' | Runs(r, [CancelStep(r.caller)] + es, r') ensures r'.frees == 0 {
        DoomedIsNeverFreed(r, [CancelStep(r.caller)] + es, r');
      }
    } else {
      var es, r' := OvertakenRun(r);
    }
  }

  lemma NotFreed(r: Req)
    requires Inv(r) && r.st.WaitSend?
    ensures r.frees == 0
  {
  }

  lemma OvertakenRun(r: Req) returns (es: seq<Step>, r': Req)
    requires Inv(r) && r.st.WaitSend? && Pending(r) == 1 && !Doomed(r)
    ensures Runs(r, [CancelStep(r.caller)] + es, r') && r'.frees == 1 && r'.queueBit
  {
    hide Inv, Runs, After, Can, Doomed;
    CancelPrefix(r);
    UnqueuedDrains(r);
    var u := Unqueued(r);
    var ds, d := DrainAll(u);
    var late, v := LateEnqueue(d);
    FreeNow(v);
    r' := After(v, CancelFree);
    RunsOne(v, CancelFree);
    RunsAppend(d, late, v, [CancelFree], r');
    RunsAppend(u, ds, d, late + [CancelFree], r');
    var pre := [CancelStep(r.caller), CancelDeref, CancelUnqueue];
    RunsAppend(r, pre, u, ds + (late + [CancelFree]), r');
    es := [CancelDeref, CancelUnqueue] + (ds + (late + [CancelFree]));
    assert pre + (ds + (late + [CancelFree])) == [CancelStep(r.caller)] + es;
  }

  // ---------------------------------------------------------------- runs from a new request

  lemma Extend(r: Req, es: seq<Step>, r1: Req, e: Step, r2: Req)
    requires Runs(r, es, r1) && Can(r1, e) && r2 == After(r1, e)
    ensures Runs(r, es + [e], r2)
  {
    hide Can, After;
    RunsOne(r1, e);
    RunsAppend(r, es, r1, [e], r2);
  }

  /** A new request that was prepared: its submitter holds a reference, has published the ID, and has
      not enqueued it yet. */
  function Prepared(high: bool, caller: nat, addr: nat, plain: bool): Req {
    var r := NewReq(high, caller, addr, plain);
    r.(st := WaitSend, ref := 1, send := r.send.(submit := Referenced))
  }

  lemma PreparedReached(high: bool, caller: nat, addr: nat, plain: bool)
    ensures Runs(NewReq(high, caller, addr, plain), [InitDoneStep, SubmitRef], Prepared(high, caller, addr, plain))
  {
    var r := NewReq(high, caller, addr, plain);
    var r1 := r.(st := WaitSend, send := r.send.(submit := Ready));
    PrepareSteps(r);
    hide Can, After, Runs;
    RunsOne(r, InitDoneStep);
    Extend(r, [InitDoneStep], r1, SubmitRef, Prepared(high, caller, addr, plain));
    assert [InitDoneStep] + [SubmitRef] == [InitDoneStep, SubmitRef];
  }

  lemma PreparedOk(high: bool, caller: nat, addr: nat, plain: bool)
    ensures var r := Prepared(high, caller, addr, plain);
            Inv(r) && r.st.WaitSend? && Pending(r) == 1 && !Doomed(r) && r.caller == caller
  {
  }

  lemma PrepareSteps(r: Req)
    requires r.st.Init? && r.send.submit.Preparing?
    ensures var r1 := r.(st := WaitSend, send := r.send.(submit := Ready));
            var r2 := r1.(ref := r.ref + 1, send := r.send.(submit := Referenced));
            && Can(r, InitDoneStep) && After(r, InitDoneStep) == r1
            && Can(r1, SubmitRef) && After(r1, SubmitRef) == r2
  {
  }

  /** So every new request can be cancelled by its ID and freed while it is still in the worker queue. */
  lemma OvertakenReached(high: bool, caller: nat, addr: nat, plain: bool)
    ensures exists es, r' :: && Runs(NewReq(high, caller, addr, plain), [InitDoneStep, SubmitRef] + es, r')
                             && r'.frees == 1 && r'.queueBit
  {
    PreparedReached(high, caller, addr, plain);
    PreparedOk(high, caller, addr, plain);
    hide *;
    var r, r2 := NewReq(high, caller, addr, plain), Prepared(high, caller, addr, plain);
    var es, r' := OvertakenRun(r2);
    RunsAppend(r, [InitDoneStep, SubmitRef], r2, [CancelStep(r2.caller)] + es, r');
  }

  /** The request after it was enqueued, peeked and sent once. */
  function SentOnce(high: bool, caller: nat, addr: nat, plain: bool): Req {
    var r := NewReq(high, caller, addr, plain);
    r.(st := WaitResp, sent := true, send := r.send.(submit := Gone))
  }

  const ENQUEUE: seq<Step> := [InitDoneStep, SubmitRef, SubmitEnqueue, SubmitDone]
  const SEND: seq<Step> := [PeekStep, SendDoneStep, SendEnd]
  const REQUEUE: seq<Step> := [TakeRetry, RetryChk, RetryEnqueue, RetryDone]

  lemma Four(r: Req, e1: Step, r1: Req, e2: Step, r2: Req, e3: Step, r3: Req, e4: Step, r4: Req)
    requires Can(r, e1) && r1 == After(r, e1) && Can(r1, e2) && r2 == After(r1, e2)
    requires Can(r2, e3) && r3 == After(r2, e3) && Can(r3, e4) && r4 == After(r3, e4)
    ensures Runs(r, [e1, e2, e3, e4], r4)
  {
    hide Can, After;
    RunsOne(r, e1);
    Extend(r, [e1], r1, e2, r2);
    Extend(r, [e1] + [e2], r2, e3, r3);
    Extend(r, [e1] + [e2] + [e3], r3, e4, r4);
    assert [e1] + [e2] + [e3] + [e4] == [e1, e2, e3, e4];
  }

  /** In the worker queue, nobody else at work on it. */
  function Waiting(r: Req): Req { r.(st := WaitSend, queueBit := true) }

  lemma Enqueue(r: Req)
    requires r.st.Init? && r.send.submit.Preparing?
    ensures Runs(r, ENQUEUE, Waiting(r.(send := r.send.(submit := Gone))))
  {
    var r1 := r.(st := WaitSend, send := r.send.(submit := Ready));
    var r2 := r1.(ref := r.ref + 1, send := r.send.(submit := Referenced));
    var r3 := r2.(queueBit := true, send := r.send.(submit := Enqueued));
    var r4 := r3.(ref := r.ref, send := r.send.(submit := Gone));
    Four(r, InitDoneStep, r1, SubmitRef, r2, SubmitEnqueue, r3, SubmitDone, r4);
  }

  lemma PeekAt(r: Req)
    requires r.st.WaitSend? && r.queueBit
    ensures Can(r, PeekStep) && After(r, PeekStep) ==
            r.(st := Sending, queueBit := false, ref := r.ref + 1, send := r.send.(peeked := r.send.peeked + 1))
  {
  }

  lemma SendDoneAt(r: Req)
    requires r.st.Sending? && r.send.peeked > 0
    ensures Can(r, SendDoneStep) && After(r, SendDoneStep) ==
            r.(st := WaitResp, send := r.send.(peeked := r.send.peeked - 1, sending := r.send.sending + 1))
  {
  }

  lemma SendEndAt(r: Req)
    requires r.send.sending > 0
    ensures Can(r, SendEnd) && After(r, SendEnd) ==
            var s := r.(send := r.send.(sending := r.send.sending - 1));
            if r.sent && !r.plain then s.(leaked := r.leaked + 1) else s.(sent := true, ref := r.ref - 1)
  {
  }

  /** One send: the reference is dropped, or leaked if the opcode was rewritten before. */
  lemma SendIt(r: Req)
    requires r.st.WaitSend? && r.queueBit
    ensures var r' := r.(st := WaitResp, queueBit := false);
            Runs(r, SEND,
                 if r.sent && !r.plain then r'.(ref := r.ref + 1, leaked := r.leaked + 1) else r'.(sent := true))
  {
    hide Can, After, Runs;
    SendTwo(r);
    var r2 := r.(st := WaitResp, queueBit := false, ref := r.ref + 1,
                 send := r.send.(sending := r.send.sending + 1));
    SendEndAt(r2);
    assert r2.send.(sending := r2.send.sending - 1) == r.send;
    Extend(r, [PeekStep] + [SendDoneStep], r2, SendEnd, After(r2, SendEnd));
    assert [PeekStep] + [SendDoneStep] + [SendEnd] == SEND;
  }

  lemma SendTwo(r: Req)
    requires r.st.WaitSend? && r.queueBit
    ensures Runs(r, [PeekStep] + [SendDoneStep],
                 r.(st := WaitResp, queueBit := false, ref := r.ref + 1,
                    send := r.send.(sending := r.send.sending + 1)))
  {
    hide Can, After, Runs;
    PeekAt(r);
    var r1 := After(r, PeekStep);
    SendDoneAt(r1);
    var r2 := r1.(st := WaitResp, send := r.send.(sending := r.send.sending + 1));
    RunsOne(r, PeekStep);
    Extend(r, [PeekStep], r1, SendDoneStep, r2);
  }

  lemma TakeAt(r: Req)
    requires r.onRetry.Some?
    ensures Can(r, TakeRetry)
    ensures After(r, TakeRetry) == r.(onRetry := None, retry := r.retry.(checking := r.retry.checking + 1))
  {
  }

  lemma CheckAt(r: Req)
    requires r.st.RetryReq? && r.retry.checking > 0
    ensures Can(r, RetryChk) && After(r, RetryChk) ==
            r.(st := WaitSend, retry := r.retry.(checking := r.retry.checking - 1, requeuing := r.retry.requeuing + 1))
  {
  }

  lemma RequeueAt(r: Req)
    requires r.retry.requeuing > 0
    ensures Can(r, RetryEnqueue) && After(r, RetryEnqueue) ==
            r.(queueBit := true,
               retry := r.retry.(requeuing := r.retry.requeuing - 1, requeued := r.retry.requeued + 1))
  {
  }

  lemma RetryDoneAt(r: Req)
    requires r.retry.requeued > 0
    ensures Can(r, RetryDone)
    ensures After(r, RetryDone) == r.(ref := r.ref - 1, retry := r.retry.(requeued := r.retry.requeued - 1))
  {
  }

  /** Collected by a reconnect thread and put back into the worker queue. */
  lemma Requeue(r: Req)
    requires r.st.RetryReq? && r.onRetry.Some?
    ensures Runs(r, REQUEUE, Waiting(r).(ref := r.ref - 1, onRetry := None))
  {
    hide Can, After, Runs;
    TakeAt(r);
    var r1 := After(r, TakeRetry);
    CheckAt(r1);
    var r2 := After(r1, RetryChk);
    RequeueAt(r2);
    var r3 := After(r2, RetryEnqueue);
    RetryDoneAt(r3);
    var r4 := After(r3, RetryDone);
    assert r4.retry == r.retry;
    Four(r, TakeRetry, r1, RetryChk, r2, RetryEnqueue, r3, RetryDone, r4);
  }

  lemma CollectIt(r: Req)
    requires r.st.WaitResp? && r.inPool
    ensures Can(r, Collect(0, r.addr))
    ensures After(r, Collect(0, r.addr)) == r.(st := RetryReq, ref := r.ref + 1, onRetry := Some(0))
  {
  }

  lemma SentOnceReached(high: bool, caller: nat, addr: nat, plain: bool)
    ensures Runs(NewReq(high, caller, addr, plain), ENQUEUE + SEND, SentOnce(high, caller, addr, plain))
  {
    var r := NewReq(high, caller, addr, plain);
    Enqueue(r);
    hide Runs;
    var w := Waiting(r.(send := r.send.(submit := Gone)));
    SendIt(w);
    RunsAppend(r, ENQUEUE, w, SEND, SentOnce(high, caller, addr, plain));
  }

  /** Every request can be cancelled between two sends and then stays in the pool for ever. */
  lemma StuckReached(high: bool, caller: nat, addr: nat, plain: bool)
    ensures exists es, r' :: Runs(NewReq(high, caller, addr, plain), es, r') && r'.st.CancelReq? && r'.inPool
  {
    hide Runs, Can, After;
    var r, s := NewReq(high, caller, addr, plain), SentOnce(high, caller, addr, plain);
    SentOnceReached(high, caller, addr, plain);
    CollectIt(s);
    var s1 := After(s, Collect(0, addr));
    Extend(r, ENQUEUE + SEND, s, Collect(0, addr), s1);
    MarkIt(s1);
    Extend(r, ENQUEUE + SEND + [Collect(0, addr)], s1, CancelStep(caller), After(s1, CancelStep(caller)));
  }

  lemma MarkIt(r: Req)
    requires r.st.RetryReq? && r.inPool
    ensures Can(r, CancelStep(r.caller))
    ensures After(r, CancelStep(r.caller)).st.CancelReq? && After(r, CancelStep(r.caller)).inPool
  {
  }

  /** Every request whose opcode is rewritten can be sent twice, and then never be freed. */
  lemma LeakReached(high: bool, caller: nat, addr: nat)
    ensures exists es, r' :: Runs(NewReq(high, caller, addr, false), es, r') && r'.leaked > 0 && r'.frees == 0
  {
    hide Runs, Can, After;
    var r, s := NewReq(high, caller, addr, false), SentOnce(high, caller, addr, false);
    SentOnceReached(high, caller, addr, false);
    CollectIt(s);
    var s1 := After(s, Collect(0, addr));
    Extend(r, ENQUEUE + SEND, s, Collect(0, addr), s1);
    Requeue(s1);
    var s2 := Waiting(s1).(ref := s1.ref - 1, onRetry := None);
    RunsAppend(r, ENQUEUE + SEND + [Collect(0, addr)], s1, REQUEUE, s2);
    SendIt(s2);
    var s3 := s2.(st := WaitResp, queueBit := false, ref := s2.ref + 1, leaked := 1);
    RunsAppend(r, ENQUEUE + SEND + [Collect(0, addr)] + REQUEUE, s2, SEND, s3);
  }
}
