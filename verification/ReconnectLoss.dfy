/** Does a broken connection always get a retry? Every step that can lose it is named; the others
    keep a retry under way. A connection that lost it stays in ConnectRetry until it is closed or a
    metadata report asks for it. */
module ReconnectLoss {
  import opened Wrappers
  import opened Seqs
  import opened ConnFsm
  import opened Net
  import opened RetryTask
  import opened Reconnect

  /** The task will still offer its wrapper to connection `c`, if it ever connects. */
  predicate StillTrying(x: Task, c: ConnId) {
    || x.handler.Trying? || x.handler.Rescheduled? || x.handler.Reached? || x.handler == Found(c)
    || (x.handler.Resting? && x.scheduled)
  }

  /** A queued task of this address. */
  predicate QueuedFor(w: World, t: TaskId, a: Addr) { t in w.queue && t in w.tasks && w.tasks[t].addr == a }

  predicate Bound(w: World, t: TaskId, c: ConnId, a: Addr) { QueuedFor(w, t, a) && StillTrying(w.tasks[t], c) }

  /** A connection in ConnectRetry has a retry under way or a thread about to ask for one. */
  ghost predicate Covered(w: World, c: ConnId)
    requires c in w.net.conns
  {
    var conn := w.net.conns[c];
    conn.st.ConnectRetry? ==> conn.wanting > 0 || exists t :: Bound(w, t, c, conn.addr)
  }

  /** The retry of `c` can be lost: no memory; the request for a task refused because the retry
      manager stops or because the queued task of the address is already past the point where it
      looked for the connection; the task cancelled; the handler or the lookup running after
      shutdown began. */
  ghost predicate Loses(w: World, e: Step, c: ConnId)
    requires c in w.net.conns
  {
    var a := w.net.conns[c].addr;
    match e
    case NoMemory(d) => d == c
    case AddTask(d, _, _) => d == c && (!w.running || exists u :: QueuedFor(w, u, a) && !StillTrying(w.tasks[u], c))
    case Cancel(t) => Bound(w, t, c, a)
    case Fire(t) => !w.running && Bound(w, t, c, a)
    case LookUp(t, _) => !w.up && Bound(w, t, c, a)
    case _ => false
  }

  // ---------------------------------------------------------------- steps on connections and sockets

  /** What a step on connections and sockets can do to connection `c`: the address is fixed,
      nobody's wish for a task disappears, and entering ConnectRetry adds one. */
  ghost predicate ConnMoves(p: Conn, q: Conn) {
    && q.addr == p.addr && q.wanting >= p.wanting
    && (q.st.ConnectRetry? && !p.st.ConnectRetry? ==> q.wanting > 0)
  }

  predicate OnConn(e: Step) {
    || e.NewConn? || e.StartConn? || e.DialOut? || e.DialOk? || e.BreakConn? || e.StopIt? || e.Closed?
    || e.Look? || e.See? || e.Report?
  }

  /** The connection a step is about. */
  function Subject(n: Net, e: Step): ConnId
    requires CanNet(n, e) && OnConn(e)
  {
    if e.DialOk? then n.socks[e.k].dialer.value else e.c
  }

  /** Steps on sockets leave connections alone and start no dialing. */
  lemma SockOnly(n: Net, e: Step)
    requires CanNet(n, e) && !OnConn(e)
    ensures AfterNet(n, e).conns == n.conns
    ensures forall k :: k in AfterNet(n, e).socks ==>
              && k in n.socks
              && (AfterNet(n, e).socks[k].dialer == n.socks[k].dialer || AfterNet(n, e).socks[k].dialer.None?)
  {
  }

  /** What a step does to the record of the connection it is about. */
  ghost predicate SubjectMoves(e: Step, p: Conn, q: Conn) {
    && q.addr == p.addr && p.wanting <= q.wanting
    && (q.wanting > p.wanting ==> Rank(p.st) == 2 || p.looking > 0 || e.Report?)
    && (q.looking > p.looking ==> p.sock.Some?)
    && (q.st.ConnectRetry? && !p.st.ConnectRetry? ==> q.wanting > 0)
    && (p.st.ConnectRetry? && p.maker.Dialled? && p.sock.None? && p.looking == 0 ==>
          q == p || e.StopIt? || e.DialOk? || e.Report?)
  }

  ghost predicate OnlySubject(n: Net, e: Step)
    requires CanNet(n, e) && OnConn(e)
  {
    var c, r := Subject(n, e), AfterNet(n, e);
    && r.conns.Keys == n.conns.Keys + {c}
    && (forall d :: d in n.conns && d != c ==> r.conns[d] == n.conns[d])
    && (e.NewConn? <==> c !in n.conns)
  }

  lemma OneConn(n: Net, e: Step)
    requires CanNet(n, e) && OnConn(e)
    ensures OnlySubject(n, e)
  {
    hide CanNet, AfterNet, OnlySubject;
    if e.DialOk? || e.BreakConn? || e.StopIt? {
      OneConnMoved(n, e);
    } else if e.Look? || e.See? || e.Report? {
      OneConnAsked(n, e);
    } else {
      OneConnPlain(n, e);
    }
  }

  lemma OneConnPlain(n: Net, e: Step)
    requires CanNet(n, e) && (e.NewConn? || e.StartConn? || e.DialOut? || e.Closed?)
    ensures OnlySubject(n, e)
  {
    hide Transit;
  }

  lemma OneConnAsked(n: Net, e: Step)
    requires CanNet(n, e) && (e.Look? || e.See? || e.Report?)
    ensures OnlySubject(n, e)
  {
  }

  lemma OneConnMoved(n: Net, e: Step)
    requires CanNet(n, e) && (e.DialOk? || e.BreakConn? || e.StopIt?)
    ensures OnlySubject(n, e)
  {
    hide Transit;
  }

  lemma SubjectStep(n: Net, e: Step)
    requires CanNet(n, e) && OnConn(e) && Subject(n, e) in n.conns
    ensures Subject(n, e) in AfterNet(n, e).conns
    ensures SubjectMoves(e, n.conns[Subject(n, e)], AfterNet(n, e).conns[Subject(n, e)])
  {
    hide CanNet, AfterNet, SubjectMoves;
    if e.BreakConn? || e.StopIt? { SubjectLeaves(n, e); } else { SubjectStays(n, e); }
  }

  lemma SubjectLeaves(n: Net, e: Step)
    requires CanNet(n, e) && (e.BreakConn? || e.StopIt?)
    ensures e.c in AfterNet(n, e).conns && SubjectMoves(e, n.conns[e.c], AfterNet(n, e).conns[e.c])
  {
  }

  lemma SubjectStays(n: Net, e: Step)
    requires CanNet(n, e) && OnConn(e) && Subject(n, e) in n.conns && !e.BreakConn? && !e.StopIt?
    ensures Subject(n, e) in AfterNet(n, e).conns
    ensures SubjectMoves(e, n.conns[Subject(n, e)], AfterNet(n, e).conns[Subject(n, e)])
  {
  }

  /** Only DialOut starts a dialing thread. */
  lemma NewDialer(n: Net, e: Step, k: SockId)
    requires CanNet(n, e) && OnConn(e) && k in AfterNet(n, e).socks && AfterNet(n, e).socks[k].dialer.Some?
    ensures e == DialOut(AfterNet(n, e).socks[k].dialer.value, k)
         || (k in n.socks && n.socks[k].dialer == AfterNet(n, e).socks[k].dialer)
  {
    hide Transit;
  }

  lemma NetConn(n: Net, e: Step, c: ConnId)
    requires CanNet(n, e) && c in n.conns
    ensures c in AfterNet(n, e).conns && ConnMoves(n.conns[c], AfterNet(n, e).conns[c])
  {
    hide CanNet, AfterNet, Subject;
    if OnConn(e) {
      OneConn(n, e);
      if Subject(n, e) == c { SubjectStep(n, e); }
    } else {
      SockOnly(n, e);
    }
  }

  lemma NetCovered(w: World, e: Step, c: ConnId)
    requires NetStep(e) && CanNet(w.net, e) && c in w.net.conns && Covered(w, c)
    ensures c in AfterNet(w.net, e).conns && Covered(w.(net := AfterNet(w.net, e)), c)
  {
    hide CanNet, AfterNet, StillTrying;
    NetConn(w.net, e, c);
    var v := w.(net := AfterNet(w.net, e));
    forall t | Bound(w, t, c, w.net.conns[c].addr) ensures Bound(v, t, c, v.net.conns[c].addr) { }
  }

  // ---------------------------------------------------------------- steps on retry tasks

  /** The conn records a task step leaves alone. */
  ghost predicate SameConns(n: Net, r: Net, c: ConnId) { c in n.conns && c in r.conns && r.conns[c] == n.conns[c] }

  lemma BoundStays(w: World, v: World, c: ConnId, t: TaskId)
    requires SameConns(w.net, v.net, c) && Covered(w, c)
    requires forall u :: Bound(w, u, c, w.net.conns[c].addr) && u != t ==> Bound(v, u, c, w.net.conns[c].addr)
    requires Bound(w, t, c, w.net.conns[c].addr) ==> Bound(v, t, c, w.net.conns[c].addr)
    ensures Covered(v, c)
  {
    hide StillTrying, QueuedFor;
    forall u | Bound(w, u, c, w.net.conns[c].addr) ensures Bound(v, u, c, w.net.conns[c].addr) { }
  }

  lemma HandlerCovered(w: World, e: Step, c: ConnId)
    requires CanTask(w, e) && (e.Fire? || e.Fail? || e.Settle? || e.Reach?) && c in w.net.conns && Covered(w, c)
    requires !Loses(w, e, c)
    requires e.Settle? ==> w.tasks[e.t].scheduled
    requires e.Fire? ==> !w.tasks[e.t].st.CrStop? && (e.t in w.queue ==> !w.tasks[e.t].st.CrCancel?)
    ensures c in AfterTask(w, e).net.conns && Covered(AfterTask(w, e), c)
  {
    hide Covered;
    BoundStays(w, AfterTask(w, e), c, e.t);
  }

  lemma LookUpCovered(w: World, t: TaskId, found: Option<ConnId>, c: ConnId)
    requires Inv(w) && CanTask(w, LookUp(t, found)) && c in w.net.conns && Covered(w, c)
    requires !Loses(w, LookUp(t, found), c)
    ensures Covered(AfterTask(w, LookUp(t, found)), c)
  {
    if w.net.conns[c].st.ConnectRetry? {
      RetryIsPooled(w, c);
      hide Inv, Covered;
      BoundStays(w, AfterTask(w, LookUp(t, found)), c, t);
    }
  }

  lemma RetryIsPooled(w: World, c: ConnId)
    requires Inv(w) && c in w.net.conns && w.net.conns[c].st.ConnectRetry?
    ensures Pooled(w.net, c, w.net.conns[c].addr)
    ensures forall d :: Pooled(w.net, d, w.net.conns[c].addr) ==> d == c
  {
    assert ConnOk(w.net, c);
    forall d | Pooled(w.net, d, w.net.conns[c].addr) ensures d == c {
      assert Pooled(w.net, c, w.net.conns[c].addr);
    }
  }

  lemma DeliverCovered(w: World, t: TaskId, c: ConnId)
    requires CanTask(w, Deliver(t)) && c in w.net.conns && Covered(w, c)
    ensures c in AfterTask(w, Deliver(t)).net.conns && Covered(AfterTask(w, Deliver(t)), c)
  {
    var v, d := AfterTask(w, Deliver(t)), w.tasks[t].handler.conn;
    if d == c {
      assert !v.net.conns[c].st.ConnectRetry?;
    } else {
      assert SameConns(w.net, v.net, c);
      hide Covered;
      BoundStays(w, v, c, t);
    }
  }

  lemma OffCovered(w: World, e: Step, c: ConnId)
    requires Inv(w) && CanTask(w, e) && (e.Unlink? || e.Cancel?) && c in w.net.conns && Covered(w, c) && !Loses(w, e, c)
    ensures Covered(AfterTask(w, e), c)
  {
    hide Covered, TaskInv, NetInv;
    WithoutMember(w.queue, e.t);
    BoundStays(w, AfterTask(w, e), c, e.t);
  }

  lemma EndCovered(w: World, e: Step, c: ConnId)
    requires CanTask(w, e) && (e.Release? || e.Sync? || e.Clear? || e.StopRetry? || e.StopConns?)
    requires c in w.net.conns && Covered(w, c)
    requires e.Sync? || e.Clear? || e.Release? ==> e.t !in w.queue
    ensures c in AfterTask(w, e).net.conns && Covered(AfterTask(w, e), c)
  {
    hide Covered;
    BoundStays(w, AfterTask(w, e), c, if e.StopRetry? || e.StopConns? then 0 else e.t);
  }

  lemma AddCovered(w: World, d: ConnId, t: TaskId, k: SockId, c: ConnId)
    requires CanTask(w, AddTask(d, t, k)) && c in w.net.conns && Covered(w, c) && !Loses(w, AddTask(d, t, k), c)
    requires t !in w.queue
    ensures c in Added(w, d, t, k).net.conns && Covered(Added(w, d, t, k), c)
  {
    var v, a := Added(w, d, t, k), w.net.conns[c].addr;
    forall u | Bound(w, u, c, a) ensures Bound(v, u, c, a) { }
    if d == c {
      if Retrying(w, a) {
        var u :| QueuedFor(w, u, a);
        assert Bound(w, u, c, a);
      } else {
        assert v.tasks[t] == NewTask(a, k) && v.queue[|w.queue|] == t;
        assert Bound(v, t, c, a);
      }
    }
  }

  lemma QueueFacts(w: World, t: TaskId)
    requires Inv(w) && t in w.tasks
    ensures var x := w.tasks[t];
            && (x.handler.Rescheduled? ==> x.scheduled)
            && (t in w.queue ==> !x.st.CrCancel? && !x.st.CrStop?)
            && (x.handler.Unlinked? || x.cancel.Claimed? || x.cancel.Synced? ==> t !in w.queue)
            && (x.handler.Resting? ==> !x.st.CrStop?)
  {
    assert TaskOk(w, t);
  }

  lemma TaskCovered(w: World, e: Step, c: ConnId)
    requires Inv(w) && CanTask(w, e) && c in w.net.conns && Covered(w, c) && !Loses(w, e, c)
    ensures c in AfterTask(w, e).net.conns && Covered(AfterTask(w, e), c)
  {
    hide Covered, Inv, Loses;
    if e.AddTask? {
      NotQueued(w, e.t);
      AddCovered(w, e.c, e.t, e.k, c);
    } else if e.NoMemory? {
      MemoryCovered(w, e.c, c);
    } else if e.Deliver? {
      DeliverCovered(w, e.t, c);
    } else if e.LookUp? {
      LookUpCovered(w, e.t, e.found, c);
    } else if e.Unlink? || e.Cancel? {
      OffCovered(w, e, c);
    } else if e.StopRetry? || e.StopConns? {
      EndCovered(w, e, c);
    } else {
      QueueFacts(w, e.t);
      if e.Release? || e.Sync? || e.Clear? { EndCovered(w, e, c); } else { HandlerCovered(w, e, c); }
    }
  }

  lemma NotQueued(w: World, t: TaskId)
    requires Inv(w) && t !in w.tasks
    ensures t !in w.queue
  {
  }

  lemma MemoryCovered(w: World, d: ConnId, c: ConnId)
    requires CanTask(w, NoMemory(d)) && c in w.net.conns && Covered(w, c) && !Loses(w, NoMemory(d), c)
    ensures c in AfterTask(w, NoMemory(d)).net.conns && Covered(AfterTask(w, NoMemory(d)), c)
  {
    var v, a := AfterTask(w, NoMemory(d)), w.net.conns[c].addr;
    forall u | Bound(w, u, c, a) ensures Bound(v, u, c, a) { }
  }

  /** Every step other than the named ones keeps a retry under way. */
  lemma KeepsCovered(w: World, e: Step, c: ConnId)
    requires Inv(w) && Can(w, e) && c in w.net.conns && Covered(w, c) && !Loses(w, e, c)
    ensures c in After(w, e).net.conns && Covered(After(w, e), c)
  {
    hide Covered, Inv, Loses, CanNet, CanTask, AfterNet, AfterTask;
    if NetStep(e) { NetCovered(w, e, c); } else { TaskCovered(w, e, c); }
  }

  /** A run in which no step loses the retry of `c`. */
  ghost predicate LossFree(w: World, es: seq<Step>, w': World, c: ConnId)
    decreases |es|
  {
    if es == [] then w' == w
    else Can(w, es[0]) && (c in w.net.conns ==> !Loses(w, es[0], c)) && LossFree(After(w, es[0]), es[1..], w', c)
  }

  lemma {:induction false} RetryUnderWay(w: World, es: seq<Step>, w': World, c: ConnId)
    requires Inv(w) && (c in w.net.conns ==> Covered(w, c)) && LossFree(w, es, w', c)
    ensures Inv(w') && (c in w'.net.conns ==> Covered(w', c))
    decreases |es|
  {
    if es != [] {
      hide Inv, Covered, Loses, Can, After;
      StepInv(w, es[0]);
      if c in w.net.conns { KeepsCovered(w, es[0], c); } else { BornCovered(w, es[0], c); }
      RetryUnderWay(After(w, es[0]), es[1..], w', c);
    }
  }

  lemma BornCovered(w: World, e: Step, c: ConnId)
    requires Can(w, e) && c !in w.net.conns
    ensures c in After(w, e).net.conns ==> Covered(After(w, e), c)
  {
    hide Covered, CanNet, CanTask, AfterNet, AfterTask;
    if NetStep(e) { BornInit(w.net, e, c); NotInRetry(After(w, e), c); } else { BornByTask(w, e, c); }
  }

  lemma BornInit(n: Net, e: Step, c: ConnId)
    requires CanNet(n, e) && c !in n.conns
    ensures c in AfterNet(n, e).conns ==> AfterNet(n, e).conns[c].st.Init?
  {
    hide Transit;
  }

  lemma NotInRetry(w: World, c: ConnId)
    ensures c in w.net.conns && w.net.conns[c].st.Init? ==> Covered(w, c)
  {
  }

  lemma BornByTask(w: World, e: Step, c: ConnId)
    requires CanTask(w, e) && c !in w.net.conns
    ensures c !in AfterTask(w, e).net.conns
  {
    hide Transit;
  }

  // ---------------------------------------------------------------- a lost retry is lost for good

  /** Nobody at work will bring connection `c` back: in ConnectRetry, no thread is about to ask for a
      task of its address, to find out that it should, or to offer it a wrapper, and no queued task
      will. */
  ghost predicate Abandoned(w: World, c: ConnId) {
    NetQuiet(w.net, c) && forall t :: !Offers(w, t, c, w.net.conns[c].addr)
  }

  ghost predicate NobodyAsks(n: Net, a: Addr) {
    forall d :: d in n.conns && n.conns[d].addr == a ==> n.conns[d].wanting == 0 && n.conns[d].looking == 0
  }

  ghost predicate NobodyDials(n: Net, c: ConnId) { forall k :: k in n.socks ==> n.socks[k].dialer != Some(c) }

  /** The task may still offer a wrapper to `c`, queued or not. */
  predicate Offers(w: World, t: TaskId, c: ConnId, a: Addr) {
    && t in w.tasks
    && (w.tasks[t].handler == Found(c) ||
        (w.tasks[t].addr == a && w.tasks[t].cancel.NoCancel? && StillTrying(w.tasks[t], c)))
  }

  /** The part of `Abandoned` that is about connections and dialing threads. */
  ghost predicate NetQuiet(n: Net, c: ConnId) {
    && c in n.conns && n.conns[c].st.ConnectRetry? && n.conns[c].maker.Dialled?
    && NobodyAsks(n, n.conns[c].addr) && NobodyDials(n, c)
  }

  lemma QuietRetry(n: Net, c: ConnId)
    requires NetQuiet(n, c)
    ensures c in n.conns && n.conns[c].st.ConnectRetry?
  {
  }

  /** Other connection records of the address belong to connections that are closing. */
  ghost predicate Alone(n: Net, c: ConnId)
    requires c in n.conns
  {
    && Pooled(n, c, n.conns[c].addr) && n.conns[c].sock.None?
    && forall d :: d in n.conns && d != c && n.conns[d].addr == n.conns[c].addr ==>
         n.conns[d].sock.None? && (n.conns[d].st.Closing? || n.conns[d].st.End?)
  }

  /** What can bring an abandoned connection back, or end it: a report on a connection of its
      address, and closing it. */
  predicate Rescues(n: Net, e: Step, c: ConnId)
    requires c in n.conns
  {
    e == StopIt(c) || (e.Report? && e.c in n.conns && n.conns[e.c].addr == n.conns[c].addr)
  }

  lemma RetryIsAlone(w: World, c: ConnId)
    requires Inv(w) && c in w.net.conns && w.net.conns[c].st.ConnectRetry?
    ensures Alone(w.net, c)
  {
    RetryIsPooled(w, c);
    assert ConnOk(w.net, c);
    forall d | d in w.net.conns && d != c && w.net.conns[d].addr == w.net.conns[c].addr
      ensures w.net.conns[d].sock.None? && (w.net.conns[d].st.Closing? || w.net.conns[d].st.End?)
    {
      assert ConnOk(w.net, d);
      assert !Pooled(w.net, d, w.net.conns[c].addr);
    }
  }

  /** Whom the steps that could disturb a quiet connection are about. */
  lemma SubjectOf(n: Net, e: Step)
    requires CanNet(n, e) && OnConn(e)
    ensures !e.DialOk? ==> Subject(n, e) == e.c
    ensures e.DialOk? ==> e.k in n.socks && n.socks[e.k].dialer == Some(Subject(n, e))
    ensures e.NewConn? ==> (forall d :: !Pooled(n, d, e.a)) && e.c in AfterNet(n, e).conns
                           && AfterNet(n, e).conns[e.c].addr == e.a
    ensures e.DialOut? ==> e.c in n.conns && n.conns[e.c].maker.Started?
  {
  }

  lemma QuietConn(n: Net, e: Step, c: ConnId)
    requires CanNet(n, e) && NetQuiet(n, c) && Alone(n, c) && !Rescues(n, e, c)
    ensures c in AfterNet(n, e).conns && AfterNet(n, e).conns[c] == n.conns[c]
  {
    hide CanNet, AfterNet;
    if OnConn(e) {
      OneConn(n, e);
      if Subject(n, e) == c {
        SubjectStep(n, e);
        SubjectOf(n, e);
      }
    } else {
      SockOnly(n, e);
    }
  }

  lemma QuietAsk(n: Net, e: Step, c: ConnId, d: ConnId)
    requires CanNet(n, e) && NetQuiet(n, c) && Alone(n, c) && !Rescues(n, e, c)
    requires d in AfterNet(n, e).conns && AfterNet(n, e).conns[d].addr == n.conns[c].addr
    ensures AfterNet(n, e).conns[d].wanting == 0 && AfterNet(n, e).conns[d].looking == 0
    ensures d in n.conns && n.conns[d].addr == n.conns[c].addr
  {
    hide CanNet, AfterNet;
    if OnConn(e) {
      OneConn(n, e);
      if Subject(n, e) == d {
        if d in n.conns {
          SubjectStep(n, e);
          QuietConn(n, e, c);
        } else {
          SubjectOf(n, e);
        }
      }
    } else {
      SockOnly(n, e);
    }
  }

  lemma QuietDial(n: Net, e: Step, c: ConnId, k: SockId)
    requires CanNet(n, e) && NetQuiet(n, c) && k in AfterNet(n, e).socks
    ensures AfterNet(n, e).socks[k].dialer != Some(c)
  {
    hide CanNet, AfterNet;
    if OnConn(e) {
      if AfterNet(n, e).socks[k].dialer.Some? {
        NewDialer(n, e, k);
        SubjectOf(n, e);
      }
    } else {
      SockOnly(n, e);
    }
  }

  /** No connection of the address of `c` is new. */
  ghost predicate SameAddr(n: Net, r: Net, c: ConnId)
    requires c in n.conns
  {
    forall d :: d in r.conns && r.conns[d].addr == n.conns[c].addr ==>
        d in n.conns && n.conns[d].addr == n.conns[c].addr
  }

  lemma QuietStep(n: Net, e: Step, c: ConnId)
    requires CanNet(n, e) && NetQuiet(n, c) && Alone(n, c) && !Rescues(n, e, c)
    ensures NetQuiet(AfterNet(n, e), c) && AfterNet(n, e).conns[c] == n.conns[c] && SameAddr(n, AfterNet(n, e), c)
  {
    hide CanNet, AfterNet, Alone;
    QuietConn(n, e, c);
    var r := AfterNet(n, e);
    forall d | d in r.conns && r.conns[d].addr == n.conns[c].addr
      ensures r.conns[d].wanting == 0 && r.conns[d].looking == 0 && d in n.conns && n.conns[d].addr == n.conns[c].addr
    {
      QuietAsk(n, e, c, d);
    }
    forall k | k in r.socks ensures r.socks[k].dialer != Some(c) { QuietDial(n, e, c, k); }
  }

  lemma TaskQuiet(w: World, e: Step, c: ConnId)
    requires CanTask(w, e) && NetQuiet(w.net, c) && (e.Deliver? ==> w.tasks[e.t].handler.conn != c)
    ensures NetQuiet(AfterTask(w, e).net, c) && AfterTask(w, e).net.conns[c] == w.net.conns[c]
    ensures SameAddr(w.net, AfterTask(w, e).net, c)
  {
    hide CanTask, AfterTask, SameAddr;
    if e.AddTask? || e.NoMemory? {
      AskQuiet(w, e, c);
    } else if e.Deliver? {
      DeliverQuiet(w, e, c);
    } else {
      OtherQuiet(w, e, c);
    }
  }

  lemma AskQuiet(w: World, e: Step, c: ConnId)
    requires CanTask(w, e) && NetQuiet(w.net, c) && (e.AddTask? || e.NoMemory?)
    ensures NetQuiet(AfterTask(w, e).net, c) && AfterTask(w, e).net.conns[c] == w.net.conns[c]
    ensures SameAddr(w.net, AfterTask(w, e).net, c)
  {
  }

  lemma DeliverQuiet(w: World, e: Step, c: ConnId)
    requires CanTask(w, e) && NetQuiet(w.net, c) && e.Deliver? && w.tasks[e.t].handler.conn != c
    ensures NetQuiet(AfterTask(w, e).net, c) && AfterTask(w, e).net.conns[c] == w.net.conns[c]
    ensures SameAddr(w.net, AfterTask(w, e).net, c)
  {
    hide Transit;
  }

  lemma OtherQuiet(w: World, e: Step, c: ConnId)
    requires CanTask(w, e) && NetQuiet(w.net, c) && !e.AddTask? && !e.NoMemory? && !e.Deliver?
    ensures NetQuiet(AfterTask(w, e).net, c) && AfterTask(w, e).net.conns[c] == w.net.conns[c]
    ensures SameAddr(w.net, AfterTask(w, e).net, c)
  {
    hide FireTask, FailTask, SettleTask, LookUpTask, UnlinkTask, ReleaseTask, ClaimTask, SyncTask, ClearTask, NetQuiet;
    var r := AfterTask(w, e).net;
    assert r.conns == w.net.conns;
    FreeKeepsQuiet(w.net, r, c);
  }

  lemma FreeKeepsQuiet(n: Net, r: Net, c: ConnId)
    requires NetQuiet(n, c) && r.conns == n.conns && r.socks.Keys == n.socks.Keys
    requires forall k :: k in r.socks ==> r.socks[k].dialer == n.socks[k].dialer || r.socks[k].dialer.None?
    ensures NetQuiet(r, c)
  {
  }

  /** A step on a task that does not offer anything to `c` does not begin to. */
  lemma NoOffer(w: World, e: Step, c: ConnId, t: TaskId)
    requires CanTask(w, e) && NetQuiet(w.net, c)
    requires t in w.tasks ==> TaskInv(w.tasks[t])
    requires !Offers(w, t, c, w.net.conns[c].addr)
    ensures !Offers(AfterTask(w, e), t, c, w.net.conns[c].addr)
  {
    hide AfterTask, Offers, NetQuiet, TaskInv;
    if e.AddTask? || e.NoMemory? || e.StopRetry? || e.StopConns? {
      NoOfferAsked(w, e, c, t);
    } else if e.Fire? || e.Fail? || e.Settle? || e.Reach? || e.LookUp? || e.Deliver? {
      NoOfferTried(w, e, c, t);
    } else {
      NoOfferEnded(w, e, c, t);
    }
  }

  lemma NoOfferAsked(w: World, e: Step, c: ConnId, t: TaskId)
    requires e.AddTask? || e.NoMemory? || e.StopRetry? || e.StopConns?
    requires CanTask(w, e) && NetQuiet(w.net, c)
    requires t in w.tasks ==> TaskInv(w.tasks[t])
    requires !Offers(w, t, c, w.net.conns[c].addr)
    ensures !Offers(AfterTask(w, e), t, c, w.net.conns[c].addr)
  {
    hide TaskInv;
  }

  lemma NoOfferTried(w: World, e: Step, c: ConnId, t: TaskId)
    requires e.Fire? || e.Fail? || e.Settle? || e.Reach? || e.LookUp? || e.Deliver?
    requires CanTask(w, e) && NetQuiet(w.net, c)
    requires t in w.tasks ==> TaskInv(w.tasks[t])
    requires !Offers(w, t, c, w.net.conns[c].addr)
    ensures !Offers(AfterTask(w, e), t, c, w.net.conns[c].addr)
  {
    hide Offer, Takes;
  }

  lemma NoOfferEnded(w: World, e: Step, c: ConnId, t: TaskId)
    requires e.Unlink? || e.Release? || e.Cancel? || e.Sync? || e.Clear?
    requires CanTask(w, e) && NetQuiet(w.net, c)
    requires t in w.tasks ==> TaskInv(w.tasks[t])
    requires !Offers(w, t, c, w.net.conns[c].addr)
    ensures !Offers(AfterTask(w, e), t, c, w.net.conns[c].addr)
  {
    hide Without, FreeNow;
  }

  lemma AbandonedStep(w: World, e: Step, c: ConnId)
    requires Inv(w) && Abandoned(w, c) && Can(w, e) && !Rescues(w.net, e, c)
    ensures Abandoned(After(w, e), c) && After(w, e).net.conns[c] == w.net.conns[c]
    ensures SameAddr(w.net, After(w, e).net, c)
  {
    hide Inv, CanNet, CanTask, AfterNet, AfterTask, Offers, NetQuiet, SameAddr;
    QuietRetry(w.net, c);
    RetryIsAlone(w, c);
    var a := w.net.conns[c].addr;
    if NetStep(e) {
      QuietStep(w.net, e, c);
      SameOffers(w, AfterNet(w.net, e), c, a);
    } else {
      NotDelivering(w, e, c);
      TaskQuiet(w, e, c);
      forall t ensures !Offers(AfterTask(w, e), t, c, a) {
        if t in w.tasks { TaskAt(w, t); }
        NoOffer(w, e, c, t);
      }
    }
  }

  lemma SameOffers(w: World, r: Net, c: ConnId, a: Addr)
    ensures forall t :: Offers(w.(net := r), t, c, a) <==> Offers(w, t, c, a)
  {
  }

  lemma NotDelivering(w: World, e: Step, c: ConnId)
    requires CanTask(w, e) && Abandoned(w, c)
    ensures e.Deliver? ==> w.tasks[e.t].handler.conn != c
  {
    if e.Deliver? { assert !Offers(w, e.t, c, w.net.conns[c].addr); }
  }

  lemma AbandonedHere(w: World, c: ConnId)
    requires Abandoned(w, c)
    ensures c in w.net.conns
  {
  }

  /** However the threads interleave, an abandoned connection stays in ConnectRetry until somebody
      closes it or a metadata report asks for its address; no sender will, because senders ask only
      after seeing a socket. */
  lemma {:induction false} StuckUntilClosed(w: World, es: seq<Step>, w': World, c: ConnId)
    requires Inv(w) && Abandoned(w, c) && Runs(w, es, w') && c in w.net.conns
    requires forall e :: e in es ==> !Rescues(w.net, e, c)
    ensures Abandoned(w', c) && w'.net.conns[c] == w.net.conns[c]
    decreases |es|
  {
    if es != [] {
      hide Inv, Abandoned, Can, After;
      assert es[0] in es;
      StepInv(w, es[0]);
      AbandonedStep(w, es[0], c);
      AbandonedHere(After(w, es[0]), c);
      forall e | e in es[1..] ensures !Rescues(After(w, es[0]).net, e, c) { assert e in es; }
      StuckUntilClosed(After(w, es[0]), es[1..], w', c);
    }
  }

  /** The one thread about to ask for a task of the address of `c` is asking for `c`. */
  ghost predicate AsksAlone(n: Net, c: ConnId) {
    && c in n.conns && n.conns[c].st.ConnectRetry? && n.conns[c].maker.Dialled? && NobodyDials(n, c)
    && n.conns[c].wanting == 1 && n.conns[c].looking == 0
    && forall d :: d in n.conns && d != c && n.conns[d].addr == n.conns[c].addr ==>
         n.conns[d].wanting == 0 && n.conns[d].looking == 0
  }

  /** A task that may offer a wrapper to `c` is the queued task of its address. */
  lemma OffererIsQueued(w: World, t: TaskId, c: ConnId)
    requires Inv(w) && c in w.net.conns
    ensures Offers(w, t, c, w.net.conns[c].addr) <==> Bound(w, t, c, w.net.conns[c].addr)
    ensures forall u :: QueuedFor(w, u, w.net.conns[c].addr) && QueuedFor(w, t, w.net.conns[c].addr) ==> u == t
  {
    hide NetInv;
    if t in w.tasks { assert TaskOk(w, t); }
  }

  /** Asking for a task abandons the connection exactly when no other thread asks for its address, may
      find that it has to, dials for it or will offer anything to it, and the queued task of its
      address is past its lookup, or there is none and the manager is stopping. */
  lemma LostExactly(w: World, c: ConnId, t: TaskId, k: SockId)
    requires Inv(w) && CanTask(w, AddTask(c, t, k))
    ensures var a := w.net.conns[c].addr;
            Abandoned(Added(w, c, t, k), c) <==>
              && AsksAlone(w.net, c)
              && ((exists u :: QueuedFor(w, u, a) && !StillTrying(w.tasks[u], c)) || (!w.running && !Retrying(w, a)))
  {
    hide Inv, StillTrying;
    var a, v := w.net.conns[c].addr, Added(w, c, t, k);
    forall u ensures Offers(w, u, c, a) <==> Bound(w, u, c, a)
             ensures forall s :: QueuedFor(w, s, a) && QueuedFor(w, u, a) ==> s == u { OffererIsQueued(w, u, c); }
    if w.running && !Retrying(w, a) {
      assert Offers(v, t, c, a) by { NewOffers(a, k, c); }
      NotRetrying(w, a);
    } else {
      assert v == w.(net := Asked(w.net, c));
      SameOffers(w, v.net, c, a);
      AskedQuiet(w.net, c);
      if Retrying(w, a) {
        var u :| u in w.queue && u in w.tasks && w.tasks[u].addr == a;
        assert QueuedFor(w, u, a);
        assert Bound(w, u, c, a) <==> StillTrying(w.tasks[u], c);
      } else {
        NotRetrying(w, a);
      }
    }
  }

  lemma NotRetrying(w: World, a: Addr)
    requires !Retrying(w, a)
    ensures forall u :: !QueuedFor(w, u, a)
  {
  }

  lemma AskedQuiet(n: Net, c: ConnId)
    requires c in n.conns && n.conns[c].wanting > 0
    ensures NetQuiet(Asked(n, c), c) <==> AsksAlone(n, c)
  {
    var r := Asked(n, c);
    assert r.conns[c].addr == n.conns[c].addr && r.socks == n.socks;
    if NetQuiet(r, c) {
      forall d | d in n.conns && d != c && n.conns[d].addr == n.conns[c].addr
        ensures n.conns[d].wanting == 0 && n.conns[d].looking == 0
      {
        assert r.conns[d] == n.conns[d];
      }
    }
  }

  lemma NewOffers(a: Addr, k: SockId, c: ConnId)
    ensures StillTrying(NewTask(a, k), c)
  {
  }

  /** The window: a retry task connects and delivers its wrapper, the new connection breaks before
      the task is off the queue, and the request for the next task is refused. For every such
      task and connection the result is abandonment. */
  lemma BrokenBeforeUnlink(w: World, t: TaskId, c: ConnId, u: TaskId, k: SockId)
    requires Inv(w) && t in w.tasks && w.tasks[t].handler == Found(c) && NetQuiet(w.net, c)
    requires u !in w.tasks && k !in w.net.socks
    ensures exists w' :: Runs(w, [Deliver(t), BreakConn(c, ConnectBroken), AddTask(c, u, k)], w') && Abandoned(w', c)
  {
    hide Inv, NetQuiet;
    QuietRetry(w.net, c);
    FoundIsQueued(w, t, c);
    var w1, w2 := DeliverBreak(w, t, c);
    var w3 := Added(w2, c, u, k);
    LostExactly(w2, c, u, k);
    RunsThree(w, Deliver(t), w1, BreakConn(c, ConnectBroken), w2, AddTask(c, u, k), w3);
  }

  lemma FoundIsQueued(w: World, t: TaskId, c: ConnId)
    requires Inv(w) && t in w.tasks && w.tasks[t].handler == Found(c)
    ensures CanTask(w, Deliver(t)) && t in w.queue && c in w.net.conns && w.tasks[t].addr == w.net.conns[c].addr
    ensures w.tasks[t].sock in w.net.socks && w.net.socks[w.tasks[t].sock].at == OfTask(t)
  {
    assert TaskOk(w, t);
  }

  /** Delivering to a connection in ConnectRetry installs the wrapper; Broken puts it back with one
      thread about to ask and the task still queued. */
  lemma DeliverBreak(w: World, t: TaskId, c: ConnId) returns (w1: World, w2: World)
    requires Inv(w) && t in w.queue && CanTask(w, Deliver(t)) && w.tasks[t].handler == Found(c)
    requires NetQuiet(w.net, c) && w.tasks[t].addr == w.net.conns[c].addr
    ensures w1 == After(w, Deliver(t)) && Inv(w1) && Can(w1, BreakConn(c, ConnectBroken))
    ensures w2 == After(w1, BreakConn(c, ConnectBroken)) && Inv(w2) && AsksAlone(w2.net, c)
    ensures QueuedFor(w2, t, w2.net.conns[c].addr) && !StillTrying(w2.tasks[t], c)
    ensures w2.tasks.Keys == w.tasks.Keys && w2.net.socks.Keys == w.net.socks.Keys
  {
    hide Inv, Takes, NobodyAsks, NobodyDials;
    w1 := Delivered(w, t);
    StepInv(w, Deliver(t));
    DeliverTakes(w, t, c);
    w2 := w1.(net := Break(w1.net, c, ConnectBroken));
    StepInv(w1, BreakConn(c, ConnectBroken));
    BreakAgain(w1.net, c, w.tasks[t].sock);
  }

  lemma DeliverTakes(w: World, t: TaskId, c: ConnId)
    requires CanTask(w, Deliver(t)) && w.tasks[t].handler == Found(c) && NetQuiet(w.net, c)
    ensures var k, w1 := w.tasks[t].sock, Delivered(w, t);
            && w1.net.conns == w.net.conns[c := w.net.conns[c].(st := Connected, sock := Some(k))]
            && w1.net.socks.Keys == w.net.socks.Keys && w1.queue == w.queue && NobodyDials(w1.net, c)
            && NobodyAsks(w1.net, w.net.conns[c].addr)
            && w1.tasks == w.tasks[t := DeliverTask(w.tasks[t], true)]
  {
  }

  lemma BreakAgain(n: Net, c: ConnId, k: SockId)
    requires c in n.conns && n.conns[c].st.Connected? && n.conns[c].sock == Some(k) && k in n.socks
    requires n.conns[c].maker.Dialled? && NobodyDials(n, c) && NobodyAsks(n, n.conns[c].addr)
    ensures AsksAlone(Break(n, c, ConnectBroken), c) && Break(n, c, ConnectBroken).socks.Keys == n.socks.Keys
    ensures Break(n, c, ConnectBroken).conns[c].addr == n.conns[c].addr
  {
  }

  lemma RunsThree(w: World, e1: Step, w1: World, e2: Step, w2: World, e3: Step, w3: World)
    requires Can(w, e1) && w1 == After(w, e1) && Can(w1, e2) && w2 == After(w1, e2) && Can(w2, e3)
    requires w3 == After(w2, e3)
    ensures Runs(w, [e1, e2, e3], w3)
  {
    hide Can, After;
    assert [e1, e2, e3][1..] == [e2, e3] && [e2, e3][1..] == [e3] && [e3][1..] == [];
    assert Runs(w2, [e3], w3);
    assert Runs(w1, [e2, e3], w3);
  }
}
