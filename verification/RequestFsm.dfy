/** The state machine of a datanode request. */
module RequestFsm {

  datatype State = Init | WaitSend | Sending | WaitResp | ProcessResp | RetryReq | CancelReq

  datatype Event =
    | InitDone | PeekWorkQ | SendDone | FindReqOkMemAck | FindReqOk | ConnBack | RetryChkDone | Cancel

  datatype Action =
    | NoAction | DoAddWorkQ | DoSend | DoWaitResp | DoProcessResp | DoRetryReq | DoCancelReq | DoRetryCancelReq

  /** The new state and what the caller may do; every other event is refused. */
  function Next(st: State, ev: Event): (State, Action) {
    match (st, ev)
    case (Init, InitDone) => (WaitSend, DoAddWorkQ)
    case (WaitSend, PeekWorkQ) => (Sending, DoSend)
    case (WaitSend, Cancel) => (CancelReq, DoCancelReq)
    case (Sending, SendDone) => (WaitResp, DoWaitResp)
    case (Sending, Cancel) => (CancelReq, DoCancelReq)
    case (WaitResp, FindReqOkMemAck) => (WaitResp, DoProcessResp)
    case (WaitResp, FindReqOk) => (ProcessResp, DoProcessResp)
    case (WaitResp, ConnBack) => (RetryReq, DoRetryReq)
    case (WaitResp, Cancel) => (CancelReq, DoCancelReq)
    case (RetryReq, RetryChkDone) => (WaitSend, DoAddWorkQ)
    case (RetryReq, Cancel) => (CancelReq, DoRetryCancelReq)
    case _ => (st, NoAction)
  }
}
