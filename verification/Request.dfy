/** One datanode request and the threads at work on it. Each event is one critical section (or
    one atomic operation) of one thread; the counters say how many threads stand at each point
    of the submit, send, ack, retry and cancel paths. */
module Request {
  import opened Wrappers
  import opened RequestFsm

  /** Where the submitting thread stands: still initialising, allowed to enqueue, holding a
      reference, enqueued, gone. */
  datatype Submit = Preparing | Ready | Referenced | Enqueued | Gone

  /** The submitter, and senders before (`peeked`) and after (`sending`) SendDone. */
  datatype SendThreads = SendThreads(submit: Submit, peeked: nat, sending: nat)

  /** Handlers of memory acks and of the final ack, handlers about to free, and final acks that
      ended without a free. */
  datatype AckThreads = AckThreads(memory: nat, finals: nat, freeing: nat, dropped: nat)

  /** Off the retry list but RetryChkDone not yet sent; allowed to enqueue again; about to drop
      the reference of the retry list. */
  datatype RetryThreads = RetryThreads(checking: nat, requeuing: nat, requeued: nat)

  /** Holding the cancelled request; about to take it off the worker queue; about to free it. */
  datatype CancelThreads = CancelThreads(claimed: nat, unqueuing: nat, freeing: nat)

  datatype Req = Req(
    high: bool,              // priority
    caller: nat,
    addr: nat,               // datanode address and port
    plain: bool,             // payload and disk access both wanted: the opcode is sent as it is
    st: State,
    poolBit: bool,           // DNREQ_FEA_IN_REQPOOL
    queueBit: bool,          // DNREQ_FEA_IN_WORKQ
    ref: int,                // ReqRefCnt
    sent: bool,              // sent once: a non-plain opcode has been rewritten
    inPool: bool,            // linked in the request pool
    onRetry: Option<nat>,    // linked on the retry list of this reconnect thread
    send: SendThreads,
    ack: AckThreads,
    retry: RetryThreads,
    cancel: CancelThreads,
    leaked: nat,             // references nobody will drop
    ackClaims: nat,
    cancelClaims: nat,
    frees: nat)

  function NewReq(high: bool, caller: nat, addr: nat, plain: bool): Req {
    Req(high, caller, addr, plain, Init, true, false, 0, false, true, None, SendThreads(Preparing, 0, 0),
        AckThreads(0, 0, 0, 0), RetryThreads(0, 0, 0), CancelThreads(0, 0, 0), 0, 0, 0, 0)
  }

  /** How the handler of a final ack ends: free the request, drop its reference only, or
      neither. */
  datatype AckEnd = FreeIt | DropIt | LeakIt

  datatype Step =
    | InitDoneStep | SubmitRef | SubmitEnqueue | SubmitDone
    | PeekStep | SendDoneStep | SendEnd
    | MemAck | MemAckDone | FinalAck | FinalAckDone(end: AckEnd) | AckFree
    | CancelStep(callerId: nat) | CancelDeref | CancelUnqueue | CancelFree
    | Collect(thread: nat, back: nat) | TakeRetry | RetryChk | RetryEnqueue | RetryDone

  /** A thread stands where it can take the step. Lookups need the request in the pool, a peek
      needs it in the worker queue; freeing waits for the references of all others. */
  ghost predicate Can(r: Req, e: Step) {
    match e
    case InitDoneStep => r.send.submit.Preparing?
    case SubmitRef => r.send.submit.Ready?
    case SubmitEnqueue => r.send.submit.Referenced?
    case SubmitDone => r.send.submit.Enqueued?
    case PeekStep => r.queueBit
    case SendDoneStep => r.send.peeked > 0
    case SendEnd => r.send.sending > 0
    case MemAck => r.inPool
    case MemAckDone => r.ack.memory > 0
    case FinalAck => r.inPool
    case FinalAckDone(_) => r.ack.finals > 0
    case AckFree => r.ack.freeing > 0 && r.ref == 0
    case CancelStep(_) => r.inPool
    case CancelDeref => r.cancel.claimed > 0
    case CancelUnqueue => r.cancel.unqueuing > 0
    case CancelFree => r.cancel.freeing > 0 && r.ref == 0
    case Collect(_, _) => r.inPool
    case TakeRetry => r.onRetry.Some?
    case RetryChk => r.retry.checking > 0
    case RetryEnqueue => r.retry.requeuing > 0
    case RetryDone => r.retry.requeued > 0
  }

  predicate SendPath(e: Step) {
    e.InitDoneStep? || e.SubmitRef? || e.SubmitEnqueue? || e.SubmitDone? || e.PeekStep? || e.SendDoneStep? || e.SendEnd?
  }

  predicate AckPath(e: Step) {
    e.MemAck? || e.MemAckDone? || e.FinalAck? || e.FinalAckDone? || e.AckFree?
  }

  predicate CancelPath(e: Step) {
    e.CancelStep? || e.CancelDeref? || e.CancelUnqueue? || e.CancelFree?
  }

  predicate RetryPath(e: Step) {
    e.Collect? || e.TakeRetry? || e.RetryChk? || e.RetryEnqueue? || e.RetryDone?
  }

  /** Submitting, peeking and sending. */
  function SendStep(r: Req, e: Step): Req
    requires Can(r, e) && SendPath(e)
  {
    var t := r.send;
    match e
    case InitDoneStep => r.(st := Next(r.st, InitDone).0, send := t.(submit := Ready))
    case SubmitRef => r.(ref := r.ref + 1, send := t.(submit := Referenced))
    case SubmitEnqueue => r.(queueBit := true, send := t.(submit := Enqueued))
    case SubmitDone => r.(ref := r.ref - 1, send := t.(submit := Gone))
    case PeekStep => // a reference is taken, and dropped again when the state refuses
      var (st, a) := Next(r.st, PeekWorkQ);
      if a.DoSend? then r.(st := st, queueBit := false, ref := r.ref + 1, send := t.(peeked := t.peeked + 1))
      else r.(st := st, queueBit := false)
    case SendDoneStep => // the request is sent whatever the answer
      r.(st := Next(r.st, SendDone).0, send := t.(peeked := t.peeked - 1, sending := t.sending + 1))
    case SendEnd => // a rewritten opcode is neither sent nor dereferenced
      if r.sent && !r.plain then r.(leaked := r.leaked + 1, send := t.(sending := t.sending - 1))
      else r.(sent := true, ref := r.ref - 1, send := t.(sending := t.sending - 1))
  }

  /** Memory acks and the final ack. */
  function AckStep(r: Req, e: Step): Req
    requires Can(r, e) && AckPath(e)
  {
    var t := r.ack;
    match e
    case MemAck =>
      if !Next(r.st, FindReqOkMemAck).1.DoProcessResp? then r
      else r.(ref := r.ref + 1, ack := t.(memory := t.memory + 1))
    case MemAckDone => r.(ref := r.ref - 1, ack := t.(memory := t.memory - 1))
    case FinalAck =>
      var (st, a) := Next(r.st, FindReqOk);
      if !a.DoProcessResp? then r.(st := st)
      else if !r.poolBit then r.(st := st)
      else r.(st := st, ref := r.ref + 1, poolBit := false, inPool := false,
              ack := t.(finals := t.finals + 1), ackClaims := r.ackClaims + 1)
    case FinalAckDone(end) =>
      if end.FreeIt? then r.(ref := r.ref - 1, ack := t.(finals := t.finals - 1, freeing := t.freeing + 1))
      else if end.DropIt? then r.(ref := r.ref - 1, ack := t.(finals := t.finals - 1, dropped := t.dropped + 1))
      else r.(leaked := r.leaked + 1, ack := t.(finals := t.finals - 1, dropped := t.dropped + 1))
    case AckFree => r.(ack := t.(freeing := t.freeing - 1), frees := r.frees + 1)
  }

  /** Cancelling. */
  function CancelPathStep(r: Req, e: Step): Req
    requires Can(r, e) && CancelPath(e)
  {
    var t := r.cancel;
    match e
    case CancelStep(callerId) =>
      if callerId != r.caller then r
      else
        var (st, a) := Next(r.st, Cancel);
        if a.DoCancelReq?
        then r.(st := st, ref := r.ref + 1, inPool := false, cancel := t.(claimed := t.claimed + 1),
                cancelClaims := r.cancelClaims + 1)
        else r.(st := st)
    case CancelDeref => r.(ref := r.ref - 1, cancel := t.(claimed := t.claimed - 1, unqueuing := t.unqueuing + 1))
    case CancelUnqueue => r.(queueBit := false, cancel := t.(unqueuing := t.unqueuing - 1, freeing := t.freeing + 1))
    case CancelFree => r.(cancel := t.(freeing := t.freeing - 1), frees := r.frees + 1)
  }

  /** Collecting and resending after the connection is back. */
  function RetryStep(r: Req, e: Step): Req
    requires Can(r, e) && RetryPath(e)
  {
    var t := r.retry;
    match e
    case Collect(thread, back) =>
      if back != r.addr then r
      else
        var (st, a) := Next(r.st, ConnBack);
        if a.DoRetryReq? then r.(st := st, ref := r.ref + 1, onRetry := Some(thread)) else r.(st := st)
    case TakeRetry => r.(onRetry := None, retry := t.(checking := t.checking + 1))
    case RetryChk =>
      var (st, a) := Next(r.st, RetryChkDone);
      if a.DoAddWorkQ? then r.(st := st, retry := t.(checking := t.checking - 1, requeuing := t.requeuing + 1))
      else r.(st := st, retry := t.(checking := t.checking - 1, requeued := t.requeued + 1))
    case RetryEnqueue => r.(queueBit := true, retry := t.(requeuing := t.requeuing - 1, requeued := t.requeued + 1))
    case RetryDone => r.(ref := r.ref - 1, retry := t.(requeued := t.requeued - 1))
  }

  /** The request after the step. */
  function After(r: Req, e: Step): Req
    requires Can(r, e)
  {
    if SendPath(e) then SendStep(r, e)
    else if AckPath(e) then AckStep(r, e)
    else if CancelPath(e) then CancelPathStep(r, e)
    else RetryStep(r, e)
  }

  /** The paths have no step in common. */
  lemma AfterIs(r: Req, e: Step)
    requires Can(r, e)
    ensures SendPath(e) ==> After(r, e) == SendStep(r, e)
    ensures AckPath(e) ==> After(r, e) == AckStep(r, e)
    ensures CancelPath(e) ==> After(r, e) == CancelPathStep(r, e)
    ensures RetryPath(e) ==> After(r, e) == RetryStep(r, e)
  {
    hide Can, SendStep, AckStep, CancelPathStep, RetryStep;
  }

  /** What an ack handler leaves alone. */
  ghost predicate AckKeeps(r: Req, r': Req) {
    && r'.high == r.high && r'.plain == r.plain && r'.sent == r.sent && r'.send == r.send
    && r'.queueBit == r.queueBit && r'.onRetry == r.onRetry && (r'.inPool ==> r.inPool) && r'.leaked >= r.leaked
  }

  lemma AckFrame(r: Req, e: Step)
    requires Can(r, e) && AckPath(e)
    ensures AckKeeps(r, After(r, e)) && (!e.AckFree? ==> After(r, e).frees == r.frees)
  {
    AfterIs(r, e);
    hide After;
    match e {
      case FinalAck => FinalAckFrame(r);
      case FinalAckDone(end) => FinalDoneFrame(r, end);
      case _ => hide Next;
    }
  }

  /** What a cancel leaves alone. */
  ghost predicate CancelKeeps(r: Req, r': Req) {
    && r'.high == r.high && r'.plain == r.plain && r'.sent == r.sent && r'.send == r.send
    && r'.onRetry == r.onRetry && (r'.inPool ==> r.inPool) && r'.leaked == r.leaked
  }

  lemma CancelFrame(r: Req, e: Step)
    requires Can(r, e) && CancelPath(e)
    ensures var r' := After(r, e);
            && CancelKeeps(r, r') && r'.queueBit == (r.queueBit && !e.CancelUnqueue?)
            && (!e.CancelFree? ==> r'.frees == r.frees)
  {
    AfterIs(r, e);
    hide After;
    match e {
      case CancelStep(callerId) => MarkFrame(r, callerId);
      case _ => hide Next;
    }
  }

  lemma MarkFrame(r: Req, callerId: nat)
    requires r.inPool
    ensures var r' := CancelPathStep(r, CancelStep(callerId));
            CancelKeeps(r, r') && r'.queueBit == r.queueBit && r'.frees == r.frees
  {
    hide Next;
  }

  /** What a retry leaves alone. */
  ghost predicate RetryKeeps(r: Req, r': Req) {
    && r'.high == r.high && r'.plain == r.plain && r'.sent == r.sent && r'.send == r.send
    && r'.inPool == r.inPool && r'.leaked == r.leaked && r'.frees == r.frees
  }

  lemma RetryFrame(r: Req, e: Step)
    requires Can(r, e) && RetryPath(e)
    ensures RetryKeeps(r, After(r, e))
  {
    AfterIs(r, e);
    hide After;
    match e {
      case Collect(thread, back) => CollectFrame(r, thread, back);
      case RetryChk => RetryChkFrame(r);
      case _ => hide Next;
    }
  }

  lemma CollectFrame(r: Req, thread: nat, back: nat)
    requires r.inPool
    ensures RetryKeeps(r, RetryStep(r, Collect(thread, back)))
  {
    hide Next;
  }

  lemma RetryChkFrame(r: Req)
    requires r.retry.checking > 0
    ensures RetryKeeps(r, RetryStep(r, RetryChk))
  {
    hide Next;
  }

  lemma FinalAckFrame(r: Req)
    requires r.inPool
    ensures AckKeeps(r, AckStep(r, FinalAck)) && AckStep(r, FinalAck).frees == r.frees
  {
    hide Next;
  }

  lemma FinalDoneFrame(r: Req, end: AckEnd)
    requires r.ack.finals > 0
    ensures AckKeeps(r, AckStep(r, FinalAckDone(end))) && AckStep(r, FinalAckDone(end)).frees == r.frees
  {
  }

  // ---------------------------------------------------------------- invariant

  function B(b: bool): nat { if b then 1 else 0 }

  /** The submitter is allowed to link the request into the worker queue and has not yet. */
  function Submitting(t: SendThreads): nat { B(t.submit.Ready? || t.submit.Referenced?) }

  /** Threads about to link the request into the worker queue. */
  function Pending(r: Req): nat { r.retry.requeuing + Submitting(r.send) }

  /** Who is in charge of the link `entry_dnWkerQ` and of sending. */
  function Carriers(r: Req): nat {
    B(r.queueBit) + B(r.onRetry.Some?) + r.retry.checking + Pending(r) + r.send.peeked
  }

  function SendHolders(t: SendThreads): nat {
    B(t.submit.Referenced? || t.submit.Enqueued?) + t.peeked + t.sending
  }

  function AckHolders(t: AckThreads): nat { t.memory + t.finals }

  function RetryHolders(t: RetryThreads): nat { t.checking + t.requeuing + t.requeued }

  /** Threads, and the retry list, that hold a reference. */
  function Holders(r: Req): nat {
    SendHolders(r.send) + AckHolders(r.ack) + RetryHolders(r.retry) + B(r.onRetry.Some?) + r.cancel.claimed + r.leaked
  }

  function Claims(r: Req): nat { r.ackClaims + r.cancelClaims }

  /** What the state says about the link. */
  ghost predicate LinkOk(r: Req) {
    match r.st
    case Init => r.send.submit.Preparing? && Carriers(r) == 0
    case WaitSend => Carriers(r) == B(r.queueBit) + Pending(r) == 1
    case Sending => Carriers(r) == r.send.peeked == 1
    case WaitResp => Carriers(r) == 0
    case ProcessResp => Carriers(r) == 0
    case RetryReq => Carriers(r) == B(r.onRetry.Some?) + r.retry.checking == 1
    case CancelReq => Carriers(r) <= 1
  }

  ghost predicate LinkPart(r: Req) {
    LinkOk(r) && (r.send.submit.Preparing? ==> r.st.Init?)
  }

  function AckFollowers(t: AckThreads): nat { t.finals + t.freeing + t.dropped }

  function CancelFollowers(t: CancelThreads): nat { t.claimed + t.unqueuing + t.freeing }

  /** Claimed at most once; each claim is followed up by exactly one thread. */
  ghost predicate ClaimPart(r: Req) {
    && Claims(r) <= 1
    && (r.inPool <==> Claims(r) == 0)
    && (r.poolBit <==> r.ackClaims == 0)
    && (r.st.ProcessResp? <==> r.ackClaims == 1)
    && (r.cancelClaims == 1 ==> r.st.CancelReq? && r.onRetry.None? && r.retry.checking == 0)
    && AckFollowers(r.ack) + (if r.ackClaims == 1 then r.frees else 0) == r.ackClaims
    && CancelFollowers(r.cancel) + (if r.cancelClaims == 1 then r.frees else 0) == r.cancelClaims
    && (Claims(r) == 0 ==> r.frees == 0)
  }

  /** Every reference is accounted for. */
  ghost predicate RefPart(r: Req) { r.ref == Holders(r) }

  ghost predicate Inv(r: Req) { LinkPart(r) && ClaimPart(r) && RefPart(r) }

  lemma NewInv(high: bool, caller: nat, addr: nat, plain: bool)
    ensures Inv(NewReq(high, caller, addr, plain))
  {
  }

  lemma SendLink(r: Req, e: Step)
    requires LinkPart(r) && ClaimPart(r) && Can(r, e) && SendPath(e)
    ensures LinkPart(After(r, e))
  {
  }

  lemma AckLink(r: Req, e: Step)
    requires LinkPart(r) && ClaimPart(r) && Can(r, e) && AckPath(e)
    ensures LinkPart(After(r, e))
  {
  }

  lemma CancelLink(r: Req, e: Step)
    requires LinkPart(r) && ClaimPart(r) && Can(r, e) && CancelPath(e)
    ensures LinkPart(After(r, e))
  {
  }

  lemma RetryLink(r: Req, e: Step)
    requires LinkPart(r) && ClaimPart(r) && Can(r, e) && RetryPath(e)
    ensures LinkPart(After(r, e))
  {
    hide LinkPart, ClaimPart, Can, After;
    if e.Collect? {
      CollectLink(r, e);
    } else if e.TakeRetry? || e.RetryChk? {
      CheckLink(r, e);
    } else {
      RequeueLink(r, e);
    }
  }

  lemma CollectLink(r: Req, e: Step)
    requires LinkPart(r) && Can(r, e) && e.Collect?
    ensures LinkPart(After(r, e))
  {
  }

  lemma CheckLink(r: Req, e: Step)
    requires LinkPart(r) && Can(r, e) && (e.TakeRetry? || e.RetryChk?)
    ensures LinkPart(After(r, e))
  {
  }

  lemma RequeueLink(r: Req, e: Step)
    requires LinkPart(r) && Can(r, e) && (e.RetryEnqueue? || e.RetryDone?)
    ensures LinkPart(After(r, e))
  {
  }

  lemma SendClaim(r: Req, e: Step)
    requires LinkPart(r) && ClaimPart(r) && Can(r, e) && SendPath(e)
    ensures ClaimPart(After(r, e))
  {
  }

  lemma AckClaim(r: Req, e: Step)
    requires LinkPart(r) && ClaimPart(r) && Can(r, e) && AckPath(e)
    ensures ClaimPart(After(r, e))
  {
  }

  lemma CancelClaim(r: Req, e: Step)
    requires LinkPart(r) && ClaimPart(r) && Can(r, e) && CancelPath(e)
    ensures ClaimPart(After(r, e))
  {
  }

  lemma RetryClaim(r: Req, e: Step)
    requires LinkPart(r) && ClaimPart(r) && Can(r, e) && RetryPath(e)
    ensures ClaimPart(After(r, e))
  {
  }

  lemma SubmitRefs(r: Req, e: Step)
    requires RefPart(r) && Can(r, e) && (e.InitDoneStep? || e.SubmitRef? || e.SubmitEnqueue? || e.SubmitDone?)
    ensures RefPart(After(r, e))
  {
    hide AckHolders, RetryHolders, Next;
  }

  lemma PeekedRefs(r: Req, st: State)
    requires RefPart(r)
    ensures RefPart(r.(st := st, queueBit := false, ref := r.ref + 1, send := r.send.(peeked := r.send.peeked + 1)))
    ensures RefPart(r.(st := st, queueBit := false))
  {
  }

  lemma SendDoneRefs(r: Req, st: State)
    requires RefPart(r) && r.send.peeked > 0
    ensures RefPart(r.(st := st, send := r.send.(peeked := r.send.peeked - 1, sending := r.send.sending + 1)))
  {
  }

  lemma PeekRefs(r: Req, e: Step)
    requires RefPart(r) && Can(r, e) && (e.PeekStep? || e.SendDoneStep?)
    ensures RefPart(After(r, e))
  {
    hide RefPart, Next;
    if e.PeekStep? {
      PeekedRefs(r, Next(r.st, PeekWorkQ).0);
    } else {
      SendDoneRefs(r, Next(r.st, SendDone).0);
    }
  }

  lemma SendEndRefs(r: Req, e: Step)
    requires RefPart(r) && Can(r, e) && e.SendEnd?
    ensures RefPart(After(r, e))
  {
    hide AckHolders, RetryHolders;
    var r' := After(r, e);
    assert r'.send == r.send.(sending := r.send.sending - 1);
    assert SendHolders(r'.send) == SendHolders(r.send) - 1;
  }

  lemma MemAckRefs(r: Req, e: Step)
    requires RefPart(r) && Can(r, e) && (e.MemAck? || e.MemAckDone? || e.AckFree?)
    ensures RefPart(After(r, e))
  {
    hide SendHolders, RetryHolders, Next;
  }

  lemma FinalAckRefs(r: Req, e: Step)
    requires RefPart(r) && Can(r, e) && e.FinalAck?
    ensures RefPart(After(r, e))
  {
    hide SendHolders, RetryHolders, Next;
  }

  lemma HandledRefs(r: Req, t: AckThreads)
    requires RefPart(r) && t.memory == r.ack.memory && t.finals == r.ack.finals - 1
    ensures RefPart(r.(ref := r.ref - 1, ack := t))
    ensures RefPart(r.(leaked := r.leaked + 1, ack := t))
  {
  }

  lemma FinalDoneRefs(r: Req, e: Step)
    requires RefPart(r) && Can(r, e) && e.FinalAckDone?
    ensures RefPart(After(r, e))
  {
    hide RefPart;
    HandledRefs(r, After(r, e).ack);
  }

  lemma CancelRefs(r: Req, e: Step)
    requires RefPart(r) && Can(r, e) && (e.CancelStep? || e.CancelDeref?)
    ensures RefPart(After(r, e))
  {
    hide SendHolders, AckHolders, RetryHolders, Next;
  }

  lemma CancelEndRefs(r: Req, e: Step)
    requires RefPart(r) && Can(r, e) && (e.CancelUnqueue? || e.CancelFree?)
    ensures RefPart(After(r, e))
  {
    hide SendHolders, AckHolders, RetryHolders;
  }

  lemma CollectRefs(r: Req, e: Step)
    requires RefPart(r) && LinkPart(r) && Can(r, e) && e.Collect?
    ensures RefPart(After(r, e))
  {
    hide SendHolders, AckHolders, RetryHolders;
  }

  lemma RetryRefs(r: Req, e: Step)
    requires RefPart(r) && LinkPart(r) && Can(r, e) && (e.TakeRetry? || e.RetryChk?)
    ensures RefPart(After(r, e))
  {
    hide SendHolders, AckHolders, Next;
  }

  lemma RequeueRefs(r: Req, e: Step)
    requires RefPart(r) && Can(r, e) && (e.RetryEnqueue? || e.RetryDone?)
    ensures RefPart(After(r, e))
  {
    hide SendHolders, AckHolders;
  }

  lemma StepRef(r: Req, e: Step)
    requires RefPart(r) && LinkPart(r) && Can(r, e)
    ensures RefPart(After(r, e))
  {
    hide RefPart, LinkPart, Can, After;
    match e
    case InitDoneStep => SubmitRefs(r, e);
    case SubmitRef => SubmitRefs(r, e);
    case SubmitEnqueue => SubmitRefs(r, e);
    case SubmitDone => SubmitRefs(r, e);
    case PeekStep => PeekRefs(r, e);
    case SendDoneStep => PeekRefs(r, e);
    case SendEnd => SendEndRefs(r, e);
    case MemAck => MemAckRefs(r, e);
    case MemAckDone => MemAckRefs(r, e);
    case AckFree => MemAckRefs(r, e);
    case FinalAck => FinalAckRefs(r, e);
    case FinalAckDone(_) => FinalDoneRefs(r, e);
    case CancelStep(_) => CancelRefs(r, e);
    case CancelDeref => CancelRefs(r, e);
    case CancelUnqueue => CancelEndRefs(r, e);
    case CancelFree => CancelEndRefs(r, e);
    case Collect(_, _) => CollectRefs(r, e);
    case TakeRetry => RetryRefs(r, e);
    case RetryChk => RetryRefs(r, e);
    case RetryEnqueue => RequeueRefs(r, e);
    case RetryDone => RequeueRefs(r, e);
  }

  /** Every step of every thread keeps it. */
  lemma StepInv(r: Req, e: Step)
    requires Inv(r) && Can(r, e)
    ensures Inv(After(r, e))
  {
    hide LinkPart, ClaimPart, RefPart, Can, After;
    StepRef(r, e);
    if SendPath(e) {
      SendLink(r, e); SendClaim(r, e);
    } else if AckPath(e) {
      AckLink(r, e); AckClaim(r, e);
    } else if CancelPath(e) {
      CancelLink(r, e); CancelClaim(r, e);
    } else {
      RetryLink(r, e); RetryClaim(r, e);
    }
  }

  // ---------------------------------------------------------------- runs of one request

  /** Some interleaving of the threads takes the request from `r` to `r'`. */
  ghost predicate Runs(r: Req, es: seq<Step>, r': Req)
    decreases |es|
  {
    if es == [] then r' == r else Can(r, es[0]) && Runs(After(r, es[0]), es[1..], r')
  }

  /** Over every interleaving a request is claimed at most once, by its final ack or by a cancel
      but not by both, and freed at most once; it is in the pool exactly while unclaimed, and
      while it is there its pool bit is set, so the ack lookup never finds the bit clear. */
  lemma {:induction false} ClaimedOnce(r: Req, es: seq<Step>, r': Req)
    requires Inv(r) && Runs(r, es, r')
    ensures Inv(r')
    ensures r'.frees <= r'.ackClaims + r'.cancelClaims <= 1
    ensures r'.inPool <==> r'.ackClaims == 0 && r'.cancelClaims == 0
    ensures r'.inPool ==> r'.poolBit
    ensures r'.queueBit ==> (r'.st.WaitSend? || r'.st.CancelReq?) && r'.onRetry.None?
    ensures r'.ackClaims == 1 ==> !r'.queueBit && r'.onRetry.None?
    decreases |es|
  {
    if es == [] {
    } else {
      hide Inv, Can, After;
      StepInv(r, es[0]);
      ClaimedOnce(After(r, es[0]), es[1..], r');
    }
  }

  // ---------------------------------------------------------------- cancelling in time

  /** No cancel claimed the request while an enqueue was pending, and once freed nobody holds it
      or finds it on a list. */
  ghost predicate Clean(r: Req) {
    && Inv(r)
    && (r.cancelClaims == 1 ==> Pending(r) == 0)
    && (r.cancel.freeing > 0 || r.frees > 0 ==> !r.queueBit)
    && (r.frees > 0 ==> Holders(r) == 0 && Carriers(r) == 0)
  }

  /** The step does not cancel a request that a thread is about to enqueue. */
  ghost predicate Timely(r: Req, e: Step) {
    e.CancelStep? ==> Pending(r) == 0
  }

  /** Once a request is freed nobody can take a step on it any more. */
  lemma FreedIsFinal(r: Req, e: Step)
    requires Clean(r) && r.frees > 0
    ensures !Can(r, e)
  {
  }

  lemma CleanKept(r: Req, e: Step)
    requires Clean(r) && r.frees == 0 && Can(r, e) && Timely(r, e) && Inv(After(r, e))
    ensures Clean(After(r, e))
  {
    hide Clean, Can, After, Inv, Timely;
    if SendPath(e) {
      CleanSend(r, e);
    } else if AckPath(e) {
      CleanAck(r, e);
    } else if CancelPath(e) {
      CleanCancel(r, e);
    } else {
      CleanRetry(r, e);
    }
  }

  lemma CleanSend(r: Req, e: Step)
    requires Clean(r) && r.frees == 0 && Can(r, e) && Timely(r, e) && Inv(After(r, e)) && SendPath(e)
    ensures Clean(After(r, e))
  {
  }

  lemma CleanAck(r: Req, e: Step)
    requires Clean(r) && r.frees == 0 && Can(r, e) && Timely(r, e) && Inv(After(r, e)) && AckPath(e)
    ensures Clean(After(r, e))
  {
  }

  lemma CleanCancel(r: Req, e: Step)
    requires Clean(r) && r.frees == 0 && Can(r, e) && Timely(r, e) && Inv(After(r, e)) && CancelPath(e)
    ensures Clean(After(r, e))
  {
  }

  lemma CleanRetry(r: Req, e: Step)
    requires Clean(r) && r.frees == 0 && Can(r, e) && Timely(r, e) && Inv(After(r, e)) && RetryPath(e)
    ensures Clean(After(r, e))
  {
  }

  lemma CleanStep(r: Req, e: Step)
    requires Clean(r) && Can(r, e) && Timely(r, e)
    ensures Clean(After(r, e))
  {
    hide After, Can;
    StepInv(r, e);
    if r.frees > 0 {
      FreedIsFinal(r, e);
    } else {
      CleanKept(r, e);
    }
  }

  ghost predicate TimelyRuns(r: Req, es: seq<Step>, r': Req)
    decreases |es|
  {
    if es == [] then r' == r else Can(r, es[0]) && Timely(r, es[0]) && TimelyRuns(After(r, es[0]), es[1..], r')
  }

  /** When no cancel overtakes a pending enqueue, a freed request is on no list and nobody holds
      a reference to it. */
  lemma {:induction false} FreedIsGone(r: Req, es: seq<Step>, r': Req)
    requires Clean(r) && TimelyRuns(r, es, r')
    ensures Clean(r')
    ensures r'.frees > 0 ==> r'.ref == 0 && !r'.queueBit && r'.onRetry.None? && forall e :: !Can(r', e)
    decreases |es|
  {
    if es == [] {
      if r.frees > 0 {
        forall e ensures !Can(r, e) { FreedIsFinal(r, e); }
      }
    } else {
      hide Clean, Can, After;
      CleanStep(r, es[0]);
      FreedIsGone(After(r, es[0]), es[1..], r');
    }
  }

  lemma RunsCons(r: Req, e: Step, es: seq<Step>, r': Req)
    requires Can(r, e) && Runs(After(r, e), es, r')
    ensures Runs(r, [e] + es, r')
  {
    assert ([e] + es)[1..] == es;
  }

  lemma {:induction false} RunsAppend(r: Req, es: seq<Step>, r1: Req, fs: seq<Step>, r2: Req)
    requires Runs(r, es, r1) && Runs(r1, fs, r2)
    ensures Runs(r, es + fs, r2)
    decreases |es|
  {
    if es == [] {
      assert es + fs == fs;
    } else {
      RunsAppend(After(r, es[0]), es[1..], r1, fs, r2);
      RunsCons(r, es[0], es[1..] + fs, r2);
      assert [es[0]] + (es[1..] + fs) == es + fs;
    }
  }

  lemma RunsOne(r: Req, e: Step)
    requires Can(r, e)
    ensures Runs(r, [e], After(r, e))
  {
    assert Runs(After(r, e), [], After(r, e));
    RunsCons(r, e, [], After(r, e));
    assert [e] + [] == [e];
  }

  /** The request once a cancel has claimed it, dropped its reference and looked for it in the
      worker queue. */
  function Unqueued(r: Req): Req {
    r.(st := CancelReq, inPool := false, queueBit := false, cancelClaims := r.cancelClaims + 1,
       cancel := r.cancel.(freeing := r.cancel.freeing + 1))
  }

  lemma CancelPrefix(r: Req)
    requires Inv(r) && r.st.WaitSend?
    ensures Runs(r, [CancelStep(r.caller), CancelDeref, CancelUnqueue], Unqueued(r))
  {
    var r1 := After(r, CancelStep(r.caller));
    var r2 := After(r1, CancelDeref);
    var r3 := After(r2, CancelUnqueue);
    assert r1.cancel == r.cancel.(claimed := r.cancel.claimed + 1);
    assert r3 == Unqueued(r);
    RunsOne(r2, CancelUnqueue);
    RunsCons(r1, CancelDeref, [CancelUnqueue], r3);
    RunsCons(r, CancelStep(r.caller), [CancelDeref] + [CancelUnqueue], r3);
    assert [CancelStep(r.caller)] + ([CancelDeref] + [CancelUnqueue]) ==
        [CancelStep(r.caller), CancelDeref, CancelUnqueue];
  }

  /** The late enqueue: afterwards no reference is left, and the request is in the queue. */
  lemma LateEnqueue(r: Req) returns (es: seq<Step>, r': Req)
    requires Pending(r) == 1 && r.ref == r.retry.requeuing + B(r.send.submit.Referenced?)
    ensures Runs(r, es, r') && r'.ref == 0 && r'.queueBit && r'.cancel == r.cancel && r'.frees == r.frees
  {
    if r.retry.requeuing == 1 {
      var r1 := After(r, RetryEnqueue);
      r' := After(r1, RetryDone);
      RunsOne(r1, RetryDone);
      es := [RetryEnqueue] + [RetryDone];
      RunsCons(r, RetryEnqueue, [RetryDone], r');
    } else {
      var r0, pre: seq<Step> := r, [];
      if r.send.submit.Ready? {
        r0, pre := After(r, SubmitRef), [SubmitRef];
        RunsOne(r, SubmitRef);
      }
      var r1 := After(r0, SubmitEnqueue);
      r' := After(r1, SubmitDone);
      RunsOne(r1, SubmitDone);
      RunsCons(r0, SubmitEnqueue, [SubmitDone], r');
      es := pre + ([SubmitEnqueue] + [SubmitDone]);
      RunsAppend(r, pre, r0, [SubmitEnqueue] + [SubmitDone], r');
    }
  }

  lemma FreeNow(r: Req)
    requires r.cancel.freeing > 0 && r.ref == 0
    ensures Can(r, CancelFree)
    ensures var r' := After(r, CancelFree); r'.frees == r.frees + 1 && r'.queueBit == r.queueBit
  {
  }

  // ---------------------------------------------------------------- requests that are never freed

  /** A cancel that meets the request between two sends marks it cancelled without claiming it:
      from then on it stays in the pool, and no step of any thread claims or frees it. */
  lemma {:induction false} CancelledInRetryIsStuck(r: Req, es: seq<Step>, r': Req)
    requires Inv(r) && r.st.CancelReq? && r.inPool && Runs(r, es, r')
    ensures Inv(r') && r'.st.CancelReq? && r'.inPool && r'.frees == 0
    decreases |es|
  {
    if es != [] {
      StepInv(r, es[0]);
      StuckStep(r, es[0]);
      CancelledInRetryIsStuck(After(r, es[0]), es[1..], r');
    }
  }

  lemma StuckStep(r: Req, e: Step)
    requires r.st.CancelReq? && r.inPool && Can(r, e)
    ensures After(r, e).st.CancelReq? && After(r, e).inPool
  {
    hide Can, After;
    if SendPath(e) {
      StuckSend(r, e);
    } else if AckPath(e) {
      StuckAck(r, e);
    } else if CancelPath(e) {
      StuckCancel(r, e);
    } else {
      StuckRetry(r, e);
    }
  }

  lemma StuckSend(r: Req, e: Step)
    requires r.st.CancelReq? && r.inPool && Can(r, e) && SendPath(e)
    ensures After(r, e).st.CancelReq? && After(r, e).inPool
  {
    AfterIs(r, e);
    CancelReqIsFinal(InitDone);
    CancelReqIsFinal(PeekWorkQ);
    CancelReqIsFinal(SendDone);
    hide After, Next;
    match e {
      case SendEnd =>
      case _ =>
    }
  }

  lemma StuckAck(r: Req, e: Step)
    requires r.st.CancelReq? && r.inPool && Can(r, e) && AckPath(e)
    ensures After(r, e).st.CancelReq? && After(r, e).inPool
  {
    AfterIs(r, e);
    CancelReqIsFinal(FindReqOk);
    hide After, Next;
    match e {
      case FinalAckDone(end) => StuckFinalDone(r, end);
      case _ =>
    }
  }

  lemma StuckFinalDone(r: Req, end: AckEnd)
    requires r.ack.finals > 0
    ensures AckStep(r, FinalAckDone(end)).st == r.st && AckStep(r, FinalAckDone(end)).inPool == r.inPool
  {
  }

  lemma StuckCancel(r: Req, e: Step)
    requires r.st.CancelReq? && r.inPool && Can(r, e) && CancelPath(e)
    ensures After(r, e).st.CancelReq? && After(r, e).inPool
  {
    AfterIs(r, e);
    CancelReqIsFinal(Cancel);
    hide Can, After, Next;
  }

  lemma StuckRetry(r: Req, e: Step)
    requires r.st.CancelReq? && r.inPool && Can(r, e) && RetryPath(e)
    ensures After(r, e).st.CancelReq? && After(r, e).inPool
  {
    AfterIs(r, e);
    CancelReqIsFinal(ConnBack);
    CancelReqIsFinal(RetryChkDone);
    hide Can, After, Next;
  }

  lemma CancelReqIsFinal(ev: Event)
    ensures Next(CancelReq, ev) == (CancelReq, NoAction)
  {
  }

  /** A cancel leaves the request marked but unclaimed exactly when it meets it between two sends. */
  lemma CancelMarksExactly(r: Req)
    requires Inv(r) && r.inPool && !r.st.CancelReq?
    ensures var r' := After(r, CancelStep(r.caller)); r'.st.CancelReq? && r'.inPool <==> r.st.RetryReq?
  {
  }

  /** A cancel by the right caller claims the request exactly in the three states that are
      waiting for, busy with or past the send. */
  lemma CancelClaimsExactly(r: Req)
    requires Inv(r) && r.inPool
    ensures After(r, CancelStep(r.caller)).cancelClaims == 1 <==> r.st.WaitSend? || r.st.Sending? || r.st.WaitResp?
  {
  }

  /** Sending a request with a rewritten opcode a second time leaks the reference of the sender,
      and a request with a leaked reference is never freed. */
  lemma {:induction false} LeakedIsNeverFreed(r: Req, es: seq<Step>, r': Req)
    requires Inv(r) && r.leaked > 0 && r.frees == 0 && Runs(r, es, r')
    ensures Inv(r') && r'.leaked > 0 && r'.frees == 0
    decreases |es|
  {
    if es != [] {
      StepInv(r, es[0]);
      LeakHoldsRef(r);
      LeakStep(r, es[0]);
      LeakedIsNeverFreed(After(r, es[0]), es[1..], r');
    }
  }

  lemma LeakHoldsRef(r: Req)
    requires Inv(r) && r.leaked > 0
    ensures r.ref > 0
  {
  }

  lemma LeakStep(r: Req, e: Step)
    requires r.ref > 0 && r.leaked > 0 && r.frees == 0 && Can(r, e)
    ensures After(r, e).leaked > 0 && After(r, e).frees == 0
  {
    hide Can, After;
    if SendPath(e) {
      LeakSend(r, e);
    } else if AckPath(e) {
      LeakAck(r, e);
    } else {
      LeakRest(r, e);
    }
  }

  lemma FreeWaits(r: Req, e: Step)
    requires Can(r, e) && r.ref > 0
    ensures !e.AckFree? && !e.CancelFree?
  {
  }

  lemma LeakSend(r: Req, e: Step)
    requires Can(r, e) && SendPath(e)
    ensures After(r, e).leaked >= r.leaked && After(r, e).frees == r.frees
  {
    AfterIs(r, e);
    hide After;
    match e {
      case PeekStep => LeakPeek(r);
      case SendEnd => LeakEnd(r);
      case _ => hide Next;
    }
  }

  lemma LeakPeek(r: Req)
    requires r.queueBit
    ensures SendStep(r, PeekStep).leaked == r.leaked && SendStep(r, PeekStep).frees == r.frees
  {
    hide Next;
  }

  lemma LeakEnd(r: Req)
    requires r.send.sending > 0
    ensures SendStep(r, SendEnd).leaked >= r.leaked && SendStep(r, SendEnd).frees == r.frees
  {
  }

  lemma LeakAck(r: Req, e: Step)
    requires Can(r, e) && AckPath(e) && r.ref > 0
    ensures After(r, e).leaked >= r.leaked && After(r, e).frees == r.frees
  {
    FreeWaits(r, e);
    AckFrame(r, e);
    hide Can, After;
  }

  lemma LeakRest(r: Req, e: Step)
    requires Can(r, e) && (CancelPath(e) || RetryPath(e)) && r.ref > 0
    ensures After(r, e).leaked >= r.leaked && After(r, e).frees == r.frees
  {
    FreeWaits(r, e);
    if CancelPath(e) { CancelFrame(r, e); } else { RetryFrame(r, e); }
    hide Can, After;
  }

  lemma ResendLeaks(r: Req)
    requires Inv(r) && r.send.sending > 0
    ensures After(r, SendEnd).leaked > r.leaked <==> r.sent && !r.plain
  {
  }
}
