/** The connection state machine. */
module ConnFsm {
  datatype ConnState = Init | Connecting | Connected | ConnectRetry | Closing | End
  datatype ConnEvent = Connect | ConnectOk | ConnectFail | ConnectBroken | Stop | StopDone
  datatype ConnAction = NoAction | DoConnect | DoService | DoRetry | DoClose | DoFree

  function Transit(st: ConnState, ev: ConnEvent): (ConnState, ConnAction) {
    match st
    case Init => (match ev case Connect => (Connecting, DoConnect) case _ => (st, NoAction))
    case Connecting =>
      (match ev
       case ConnectOk => (Connected, DoService)
       case ConnectFail => (ConnectRetry, DoRetry)
       case Stop => (Closing, DoClose)
       case _ => (st, NoAction))
    case Connected =>
      (match ev
       case ConnectBroken => (ConnectRetry, DoRetry)
       case Stop => (Closing, DoClose)
       case _ => (st, NoAction))
    case ConnectRetry =>
      (match ev
       case ConnectOk => (Connected, DoService)
       case Stop => (Closing, DoClose)
       case _ => (st, NoAction))
    case Closing => (match ev case StopDone => (End, DoFree) case _ => (st, NoAction))
    case End => (st, NoAction)
  }

  /** The distance still to go: it never grows once a connection is stopped. */
  function Rank(st: ConnState): nat {
    match st
    case Init => 3
    case Connecting | Connected | ConnectRetry => 2
    case Closing => 1
    case End => 0
  }

  /** Each action is taken by exactly one kind of transition, refusal leaves the state alone, and
      only ConnectOk enters Connected. */
  lemma TransitFacts(st: ConnState, ev: ConnEvent)
    ensures var (st', a) := Transit(st, ev);
            && (a.NoAction? <==> st' == st)
            && (a.DoService? <==> st'.Connected? && !st.Connected?)
            && (a.DoService? <==> ev.ConnectOk? && (st.Connecting? || st.ConnectRetry?))
            && (a.DoRetry? <==> st'.ConnectRetry? && !st.ConnectRetry?)
            && (a.DoRetry? <==> (st.Connecting? && ev.ConnectFail?) || (st.Connected? && ev.ConnectBroken?))
            && (a.DoFree? <==> st'.End? && !st.End?)
            && (a.DoFree? <==> st.Closing? && ev.StopDone?)
            && (a.DoClose? <==> st'.Closing? && !st.Closing?)
            && (a.DoClose? <==> ev.Stop? && Rank(st) == 2)
            && (a.DoConnect? <==> st'.Connecting? && !st.Connecting?)
            && (a.DoConnect? <==> st.Init? && ev.Connect?)
            && Rank(st') <= Rank(st)
  {
  }
}
