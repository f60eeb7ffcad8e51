/** Connections, sockets, the release queue and the retry tasks together, over every
    interleaving of their threads. */
module Reconnect {
  import opened Wrappers
  import opened Seqs
  import opened ConnFsm
  import opened Net
  import opened RetryTask

  datatype World = World(
    net: Net,
    tasks: map<TaskId, Task>,
    queue: seq<TaskId>,       // connRetry_queue
    cnt: int,                 // cnt_cr_tasks
    running: bool,            // the retry manager runs
    up: bool)                 // the connection manager runs

  datatype Step =
    | NewConn(c: ConnId, a: Addr) | StartConn(c: ConnId) | DialOut(c: ConnId, k: SockId) | DialFailed(k: SockId)
    | DialOk(k: SockId) | BreakConn(c: ConnId, ev: ConnEvent) | StopIt(c: ConnId) | Closed(c: ConnId)
    | Look(c: ConnId) | See(c: ConnId) | Report(c: ConnId)
    | Get(c: ConnId) | Put(k: SockId) | Link(k: SockId) | Count | Dequeue | SeeIdle(k: SockId) | FreeIt(k: SockId)
    | AddTask(c: ConnId, t: TaskId, k: SockId) | NoMemory(c: ConnId)
    | Fire(t: TaskId) | Fail(t: TaskId) | Settle(t: TaskId) | Reach(t: TaskId)
    | LookUp(t: TaskId, found: Option<ConnId>) | Deliver(t: TaskId) | Unlink(t: TaskId) | Release(t: TaskId)
    | Cancel(t: TaskId) | Sync(t: TaskId) | Clear(t: TaskId) | StopRetry | StopConns

  predicate NetStep(e: Step) {
    || e.NewConn? || e.StartConn? || e.DialOut? || e.DialFailed? || e.DialOk? || e.BreakConn? || e.StopIt? || e.Closed?
    || e.Look? || e.See? || e.Report?
    || e.Get? || e.Put? || e.Link? || e.Count? || e.Dequeue? || e.SeeIdle? || e.FreeIt?
  }

  /** A thread stands where it can take this step on connections and sockets. */
  ghost predicate CanNet(n: Net, e: Step) {
    match e
    case NewConn(c, a) => c !in n.conns && forall d :: !Pooled(n, d, a)
    case StartConn(c) => c in n.conns && n.conns[c].maker.Made?
    case DialOut(c, k) => c in n.conns && n.conns[c].maker.Started? && k !in n.socks
    case DialFailed(k) => k in n.socks && n.socks[k].dialer.Some?
    case DialOk(k) => k in n.socks && n.socks[k].dialer.Some? && n.socks[k].dialer.value in n.conns
    case BreakConn(c, ev) => c in n.conns && (ev.ConnectFail? || ev.ConnectBroken?)
    case StopIt(c) => c in n.conns && n.conns[c].inPool
    case Closed(c) => c in n.conns
    case Look(c) => c in n.conns && n.conns[c].inPool && n.conns[c].sock.Some?
    case See(c) => c in n.conns && n.conns[c].looking > 0
    case Report(c) => c in n.conns && !n.conns[c].st.Connected?
    case Get(c) => c in n.conns
    case Put(k) => k in n.socks && n.socks[k].holders > 0
    case Link(k) => k in n.socks && n.socks[k].handed > 0
    case Count => n.incs > 0
    case Dequeue => true
    case SeeIdle(k) => k in n.socks && n.socks[k].draining > 0 && n.socks[k].refs <= 0
    case FreeIt(k) => k in n.socks && n.socks[k].quiet > 0
    case _ => false
  }

  function AfterNet(n: Net, e: Step): Net
    requires CanNet(n, e)
  {
    match e
    case NewConn(c, a) => AddConn(n, c, a)
    case StartConn(c) => StartConnect(n, c)
    case DialOut(c, k) => Dial(n, c, k)
    case DialFailed(k) => FreeNow(n, k)
    case DialOk(k) => DialDone(n, k)
    case BreakConn(c, ev) => Break(n, c, ev)
    case StopIt(c) => StopConn(n, c)
    case Closed(c) => CloseDone(n, c)
    case Look(c) => LookAt(n, c)
    case See(c) => SeeState(n, c)
    case Report(c) => ReportOn(n, c)
    case Get(c) => GetSock(n, c).0
    case Put(k) => Deref(n, k)
    case Link(k) => EnqLink(n, k)
    case Count => EnqCount(n)
    case Dequeue => DeqSock(n)
    case SeeIdle(k) => SeenIdle(n, k)
    case FreeIt(k) => FreeQuiet(n, k)
  }

  /** `_find_cr_task_lockless` has an answer. */
  ghost predicate Retrying(w: World, a: Addr) {
    exists t :: t in w.queue && t in w.tasks && w.tasks[t].addr == a
  }

  ghost predicate CanTask(w: World, e: Step) {
    match e
    case AddTask(c, t, k) => c in w.net.conns && w.net.conns[c].wanting > 0 && t !in w.tasks && k !in w.net.socks
    case NoMemory(c) => c in w.net.conns && w.net.conns[c].wanting > 0
    case Fire(t) => t in w.tasks && w.tasks[t].scheduled && w.tasks[t].handler.Resting?
    case Fail(t) => t in w.tasks && w.tasks[t].handler.Trying?
    case Settle(t) => t in w.tasks && w.tasks[t].handler.Rescheduled?
    case Reach(t) => t in w.tasks && w.tasks[t].handler.Trying?
    case LookUp(t, found) =>
      && t in w.tasks && w.tasks[t].handler.Reached?
      && if found.Some? then w.up && Pooled(w.net, found.value, w.tasks[t].addr)
         else w.up ==> forall c :: !Pooled(w.net, c, w.tasks[t].addr)
    case Deliver(t) =>
      && t in w.tasks && w.tasks[t].handler.Found? && w.tasks[t].handler.conn in w.net.conns
      && w.tasks[t].sock in w.net.socks
    case Unlink(t) => t in w.tasks && w.tasks[t].handler.Offered?
    case Release(t) => t in w.tasks && w.tasks[t].handler.Unlinked? && w.tasks[t].sock in w.net.socks
    case Cancel(t) => t in w.queue && t in w.tasks && w.tasks[t].st.CrWaiting?
    case Sync(t) => t in w.tasks && w.tasks[t].cancel.Claimed? && w.tasks[t].handler.Resting?
    case Clear(t) => t in w.tasks && w.tasks[t].cancel.Synced? && w.tasks[t].sock in w.net.socks
    case StopRetry => true
    case StopConns => true
    case _ => false
  }

  function WithTask(w: World, t: TaskId, x: Task): World { w.(tasks := w.tasks[t := x]) }

  function Asked(n: Net, c: ConnId): Net
    requires c in n.conns && n.conns[c].wanting > 0
  {
    n.(conns := n.conns[c := n.conns[c].(wanting := n.conns[c].wanting - 1)])
  }

  /** `add_conn_retry_task`: refused when stopping or when the address has a task already. */
  ghost function Added(w: World, c: ConnId, t: TaskId, k: SockId): World
    requires CanTask(w, AddTask(c, t, k))
  {
    var a, n := w.net.conns[c].addr, Asked(w.net, c);
    if !w.running || Retrying(w, a) then w.(net := n)
    else w.(net := PutSock(n, k, NewSock(None, OfTask(t))), tasks := w.tasks[t := NewTask(a, k)],
            queue := w.queue + [t], cnt := w.cnt + 1)
  }

  /** `sockImpl_connDONE_fn` called for a retry task. */
  function Delivered(w: World, t: TaskId): World
    requires CanTask(w, Deliver(t))
  {
    var x := w.tasks[t];
    var taken := Takes(w.net, x.handler.conn);
    WithTask(w, t, DeliverTask(x, taken)).(net := Offer(w.net, x.handler.conn, x.sock))
  }

  function Off(w: World, t: TaskId): World { w.(queue := Without(w.queue, t), cnt := w.cnt - 1) }

  ghost function AfterTask(w: World, e: Step): World
    requires CanTask(w, e)
  {
    match e
    case AddTask(c, t, k) => Added(w, c, t, k)
    case NoMemory(c) => w.(net := Asked(w.net, c))
    case Fire(t) => WithTask(w, t, FireTask(w.tasks[t], w.running))
    case Fail(t) => WithTask(w, t, FailTask(w.tasks[t]))
    case Settle(t) => WithTask(w, t, SettleTask(w.tasks[t]))
    case Reach(t) => WithTask(w, t, w.tasks[t].(handler := Reached))
    case LookUp(t, found) => WithTask(w, t, LookUpTask(w.tasks[t], found))
    case Deliver(t) => Delivered(w, t)
    case Unlink(t) => WithTask(Off(w, t), t, UnlinkTask(w.tasks[t]))
    case Release(t) =>
      var x := w.tasks[t];
      var w1 := WithTask(w, t, ReleaseTask(x));
      if x.handler.taken then w1 else w1.(net := FreeNow(w.net, x.sock))
    case Cancel(t) => WithTask(Off(w, t), t, ClaimTask(w.tasks[t]))
    case Sync(t) => WithTask(w, t, SyncTask(w.tasks[t]))
    case Clear(t) => WithTask(w, t, ClearTask(w.tasks[t])).(net := FreeNow(w.net, w.tasks[t].sock))
    case StopRetry => w.(running := false)
    case StopConns => w.(up := false)
  }

  ghost predicate Can(w: World, e: Step) { if NetStep(e) then CanNet(w.net, e) else CanTask(w, e) }

  ghost function After(w: World, e: Step): World
    requires Can(w, e)
  {
    if NetStep(e) then w.(net := AfterNet(w.net, e)) else AfterTask(w, e)
  }

  // ---------------------------------------------------------------- invariant

  /** A connection found by lookup has the address of the task. */
  ghost predicate FoundOk(n: Net, x: Task) {
    x.handler.Found? ==> x.handler.conn in n.conns && n.conns[x.handler.conn].addr == x.addr
  }

  ghost predicate TaskOk(w: World, t: TaskId)
    requires t in w.tasks
  {
    var x := w.tasks[t];
    && TaskInv(x)
    && (t in w.queue <==> Linked(x))
    && (HoldsSock(x) ==> OwnedBy(w.net, x.sock, t))
    && x.sock in w.net.socks
    && (x.given > 0 ==> Age(w.net.socks[x.sock].at) > 0)
    && (x.sockFrees > 0 ==> w.net.socks[x.sock].at == Freed(false))
    && FoundOk(w.net, x)
  }

  ghost predicate TasksOk(w: World) { forall t :: t in w.tasks ==> TaskOk(w, t) }

  ghost predicate OwnersOk(w: World) {
    forall k, t :: OwnedBy(w.net, k, t) ==> t in w.tasks && w.tasks[t].sock == k && HoldsSock(w.tasks[t])
  }

  ghost predicate RetryQueueOk(w: World) {
    && NoDup(w.queue) && w.cnt == |w.queue|
    && (forall t :: t in w.queue ==> t in w.tasks)
    && (forall t, u :: t in w.queue && u in w.queue && w.tasks[t].addr == w.tasks[u].addr ==> t == u)
  }

  ghost predicate Inv(w: World) { NetInv(w.net) && TasksOk(w) && OwnersOk(w) && RetryQueueOk(w) }

  const START := World(EMPTY, map[], [], 0, true, true)

  lemma StartInv()
    ensures Inv(START)
  {
    hide NetInv, TaskInv, Linked;
    EmptyNet();
  }

  // ---------------------------------------------------------------- steps on connections and sockets

  lemma FreshDial(n: Net, c: ConnId, k: SockId)
    requires NetInv(n) && c in n.conns && k !in n.socks
    ensures NetInv(Dial(n, c, k)) && Kept(n, Dial(n, c, k))
  {
    hide NetInv;
    MarkInv(n, c, n.conns[c].wanting, Dialled, n.conns[c].looking);
    SockStep(SetMaker(n, c, Dialled), k, NewSock(Some(c), Dialed));
  }

  lemma CountInv(n: Net)
    requires NetInv(n) && n.incs > 0
    ensures NetInv(EnqCount(n)) && Kept(n, EnqCount(n))
  {
    var r := EnqCount(n);
    hide Tracked;
    PoolFrame(n, r);
    forall c | c in r.conns ensures ConnOk(r, c) { assert ConnOk(n, c); }
    forall j | j in r.socks ensures SockOk(r, j) { assert SockOk(n, j); }
  }

  lemma DialFreed(n: Net, k: SockId)
    requires NetInv(n) && k in n.socks && n.socks[k].dialer.Some?
    ensures NetInv(FreeNow(n, k)) && Kept(n, FreeNow(n, k))
  {
    hide NetInv, FreeNow;
    DialerOk(n, k);
    FreeNowInv(n, k);
  }

  lemma NetStepInv(n: Net, e: Step)
    requires NetInv(n) && CanNet(n, e)
    ensures NetInv(AfterNet(n, e)) && Kept(n, AfterNet(n, e))
  {
    hide NetInv, Kept, Break, StopConn, StartConnect, CloseDone, DialDone, FreeNow, GetSock, EnqLink, DeqSock, AddConn;
    hide LookAt, SeeState, ReportOn;
    match e {
      case NewConn(c, a) => AddConnInv(n, c, a);
      case StartConn(c) => StartConnectInv(n, c);
      case DialOut(c, k) => FreshDial(n, c, k);
      case DialFailed(k) => DialFreed(n, k);
      case DialOk(k) => DialDoneInv(n, k);
      case BreakConn(c, ev) => BreakInv(n, c, ev);
      case StopIt(c) => StopConnInv(n, c);
      case Closed(c) => CloseDoneInv(n, c);
      case Look(c) => AskersInv(n, c);
      case See(c) => AskersInv(n, c);
      case Report(c) => AskersInv(n, c);
      case Get(c) => GetSockInv(n, c);
      case Put(k) => DerefInv(n, k);
      case Link(k) => EnqLinkInv(n, k);
      case Count => CountInv(n);
      case Dequeue => DeqSockInv(n);
      case SeeIdle(k) => SeenIdleInv(n, k);
      case FreeIt(k) => FreeQuietInv(n, k);
    }
  }

  // ---------------------------------------------------------------- steps on retry tasks

  lemma TaskAt(w: World, t: TaskId)
    requires Inv(w) && t in w.tasks
    ensures NetInv(w.net) && TaskOk(w, t)
  {
    hide NetInv, TaskInv, Linked, HoldsSock;
  }

  lemma NetFrame(w: World, r: Net)
    requires Inv(w) && NetInv(r) && Kept(w.net, r)
    ensures Inv(w.(net := r))
  {
    hide NetInv, TaskInv;
    var v := w.(net := r);
    forall t | t in v.tasks ensures TaskOk(v, t) { assert TaskOk(w, t); }
    forall k, t | OwnedBy(r, k, t) ensures t in v.tasks && v.tasks[t].sock == k && HoldsSock(v.tasks[t]) {
      assert OwnedBy(w.net, k, t);
    }
  }

  /** The record of one task changes, not its place on the queue nor its hold on the wrapper. */
  lemma TaskFrame(w: World, t: TaskId, x: Task)
    requires Inv(w) && t in w.tasks && SamePart(w.tasks[t], x)
    requires FoundOk(w.net, x)
    ensures Inv(WithTask(w, t, x))
  {
    hide NetInv, TaskInv, Linked, HoldsSock;
    var v := WithTask(w, t, x);
    forall u | u in v.tasks ensures TaskOk(v, u) { assert TaskOk(w, u); }
  }

  /** The wrapper leaves the task, by being installed or by being freed. */
  lemma DisownFrame(w: World, t: TaskId, x: Task, r: Net)
    requires Inv(w) && t in w.tasks && TaskInv(x) && NetInv(r) && KeptBut(w.net, r, x.sock)
    requires x.addr == w.tasks[t].addr && x.sock == w.tasks[t].sock
    requires Linked(x) == Linked(w.tasks[t]) && HoldsSock(w.tasks[t]) && !HoldsSock(x) && !x.handler.Found?
    requires x.given > 0 ==> Age(r.socks[x.sock].at) > 0
    requires x.sockFrees > 0 ==> r.socks[x.sock].at == Freed(false)
    ensures Inv(WithTask(w, t, x).(net := r))
  {
    hide NetInv, TaskInv, Linked, HoldsSock;
    var v := WithTask(w, t, x).(net := r);
    assert TaskOk(w, t);
    forall u | u in v.tasks ensures TaskOk(v, u) {
      assert TaskOk(w, u);
      if HoldsSock(w.tasks[u]) && w.tasks[u].sock == x.sock {
        assert OwnedBy(w.net, x.sock, u) && OwnedBy(w.net, x.sock, t);
      }
    }
    forall k, u | OwnedBy(r, k, u) ensures u in v.tasks && v.tasks[u].sock == k && HoldsSock(v.tasks[u]) {
      assert OwnedBy(w.net, k, u);
    }
  }

  /** The task leaves the queue and keeps its hold on the wrapper. */
  lemma OffFrame(w: World, t: TaskId, x: Task)
    requires Inv(w) && t in w.queue && t in w.tasks && TaskInv(x)
    requires x.addr == w.tasks[t].addr && x.sock == w.tasks[t].sock
    requires !Linked(x) && HoldsSock(x) == HoldsSock(w.tasks[t]) && !x.handler.Found?
    requires x.given == w.tasks[t].given && x.sockFrees == w.tasks[t].sockFrees
    ensures Inv(WithTask(Off(w, t), t, x))
  {
    hide NetInv, TaskInv, Linked, HoldsSock;
    var v := WithTask(Off(w, t), t, x);
    WithoutMember(w.queue, t);
    forall u | u in v.tasks ensures TaskOk(v, u) { assert TaskOk(w, u); }
  }

  lemma AskedInv(w: World, c: ConnId)
    requires Inv(w) && c in w.net.conns && w.net.conns[c].wanting > 0
    ensures Inv(w.(net := Asked(w.net, c)))
    ensures w.net.socks == Asked(w.net, c).socks
  {
    hide NetInv, TaskInv;
    MarkInv(w.net, c, w.net.conns[c].wanting - 1, w.net.conns[c].maker, w.net.conns[c].looking);
    NetFrame(w, Asked(w.net, c));
  }

  lemma NewTaskFrame(w: World, t: TaskId, k: SockId, a: Addr)
    requires Inv(w) && t !in w.tasks && k !in w.net.socks && !Retrying(w, a)
    ensures Inv(w.(net := PutSock(w.net, k, NewSock(None, OfTask(t))), tasks := w.tasks[t := NewTask(a, k)],
                   queue := w.queue + [t], cnt := w.cnt + 1))
  {
    hide NetInv, TaskInv;
    var s := NewSock(None, OfTask(t));
    FreshTaskSock(w.net, k, t);
    var v := w.(net := PutSock(w.net, k, s), tasks := w.tasks[t := NewTask(a, k)],
                queue := w.queue + [t], cnt := w.cnt + 1);
    NewTaskOk(a, k);
    forall u | u in v.tasks ensures TaskOk(v, u) { if u != t { assert TaskOk(w, u); } }
    forall j, u | OwnedBy(v.net, j, u) ensures u in v.tasks && v.tasks[u].sock == j && HoldsSock(v.tasks[u]) {
      if j != k { assert OwnedBy(w.net, j, u); }
    }
  }

  lemma FreshTaskSock(n: Net, k: SockId, t: TaskId)
    requires NetInv(n) && k !in n.socks
    ensures NetInv(PutSock(n, k, NewSock(None, OfTask(t))))
  {
    SockStep(n, k, NewSock(None, OfTask(t)));
  }

  lemma NewTaskOk(a: Addr, k: SockId)
    ensures TaskInv(NewTask(a, k)) && Linked(NewTask(a, k)) && HoldsSock(NewTask(a, k))
  {
  }

  lemma AddedInv(w: World, c: ConnId, t: TaskId, k: SockId)
    requires Inv(w) && CanTask(w, AddTask(c, t, k))
    ensures Inv(Added(w, c, t, k))
  {
    hide Inv, Asked;
    AskedInv(w, c);
    var v, a := w.(net := Asked(w.net, c)), w.net.conns[c].addr;
    if w.running && !Retrying(w, a) {
      assert !Retrying(v, a);
      NewTaskFrame(v, t, k, a);
    }
  }

  lemma HandlerInv(w: World, e: Step)
    requires Inv(w) && CanTask(w, e) && (e.Fire? || e.Fail? || e.Settle? || e.Reach? || e.LookUp?)
    ensures Inv(AfterTask(w, e))
  {
    hide Inv, NetInv, TaskInv, Linked, HoldsSock, SamePart;
    TaskAt(w, e.t);
    var x := w.tasks[e.t];
    match e {
      case Fire(t) => FireKeeps(x, w.running);
      case Fail(t) => TryingKeeps(x);
      case Reach(t) => TryingKeeps(x);
      case Settle(t) => SettleKeeps(x);
      case LookUp(t, found) => LookUpKeeps(x, found);
    }
    TaskFrame(w, e.t, AfterTask(w, e).tasks[e.t]);
  }

  lemma InstalledAt(n: Net, c: ConnId, k: SockId)
    requires c in n.conns && k in n.socks && Takes(n, c)
    ensures k in Offer(n, c, k).socks && Offer(n, c, k).socks[k].at == Installed(c)
  {
  }

  lemma FreedAt(n: Net, k: SockId)
    requires k in n.socks
    ensures k in FreeNow(n, k).socks && FreeNow(n, k).socks[k].at == Freed(false)
  {
  }

  lemma DeliveredInv(w: World, t: TaskId)
    requires Inv(w) && CanTask(w, Deliver(t))
    ensures Inv(Delivered(w, t))
  {
    hide Inv, NetInv, TaskInv, Linked, HoldsSock, SamePart, Offer, FreeNow;
    TaskAt(w, t);
    var x, c := w.tasks[t], w.tasks[t].handler.conn;
    DeliverKeeps(x);
    if Takes(w.net, c) {
      InstallInv(w.net, c, x.sock);
      InstalledAt(w.net, c, x.sock);
      DisownFrame(w, t, DeliverTask(x, true), Offer(w.net, c, x.sock));
    } else {
      OfferRefused(w.net, c, x.sock);
      TaskFrame(w, t, DeliverTask(x, false));
    }
  }

  lemma LeaveQueueInv(w: World, e: Step)
    requires Inv(w) && CanTask(w, e) && (e.Unlink? || e.Cancel?)
    ensures Inv(AfterTask(w, e))
  {
    hide Inv, NetInv, TaskInv, Linked, HoldsSock, SamePart, Offer, FreeNow;
    TaskAt(w, e.t);
    LeaveKeeps(w.tasks[e.t]);
    OffFrame(w, e.t, AfterTask(w, e).tasks[e.t]);
  }

  lemma ReleaseInv(w: World, t: TaskId)
    requires Inv(w) && CanTask(w, Release(t))
    ensures Inv(AfterTask(w, Release(t)))
  {
    hide Inv, NetInv, TaskInv, Linked, HoldsSock, SamePart, Offer, FreeNow;
    TaskAt(w, t);
    var x := w.tasks[t];
    ReleaseKeeps(x);
    if x.handler.taken {
      TaskFrame(w, t, ReleaseTask(x));
    } else {
      FreeNowInv(w.net, x.sock);
      FreedAt(w.net, x.sock);
      DisownFrame(w, t, ReleaseTask(x), FreeNow(w.net, x.sock));
    }
  }

  lemma ClearInv(w: World, t: TaskId)
    requires Inv(w) && CanTask(w, Clear(t))
    ensures Inv(AfterTask(w, Clear(t)))
  {
    hide Inv, NetInv, TaskInv, Linked, HoldsSock, SamePart, Offer, FreeNow;
    TaskAt(w, t);
    var x := w.tasks[t];
    CancelKeeps(x);
    FreeNowInv(w.net, x.sock);
    FreedAt(w.net, x.sock);
    DisownFrame(w, t, ClearTask(x), FreeNow(w.net, x.sock));
  }

  lemma SyncInv(w: World, t: TaskId)
    requires Inv(w) && CanTask(w, Sync(t))
    ensures Inv(AfterTask(w, Sync(t)))
  {
    hide Inv, NetInv, TaskInv, Linked, HoldsSock, SamePart, Offer, FreeNow;
    TaskAt(w, t);
    CancelKeeps(w.tasks[t]);
    TaskFrame(w, t, SyncTask(w.tasks[t]));
  }

  lemma SwitchInv(w: World, running: bool, up: bool)
    requires Inv(w)
    ensures Inv(w.(running := running, up := up))
  {
    hide NetInv, TaskInv;
    var v := w.(running := running, up := up);
    forall u | u in v.tasks ensures TaskOk(v, u) { assert TaskOk(w, u); }
  }

  /** Every step of every thread keeps the invariant. */
  lemma StepInv(w: World, e: Step)
    requires Inv(w) && Can(w, e)
    ensures Inv(After(w, e))
  {
    hide CanNet, CanTask, AfterNet, NetInv, TasksOk, OwnersOk, RetryQueueOk;
    if NetStep(e) {
      NetStepInv(w.net, e);
      NetFrame(w, AfterNet(w.net, e));
    } else {
      TaskStepInv(w, e);
    }
  }

  lemma TaskStepInv(w: World, e: Step)
    requires Inv(w) && CanTask(w, e)
    ensures Inv(AfterTask(w, e))
  {
    hide Inv, Added, Delivered;
    match e {
      case AddTask(c, t, k) => AddedInv(w, c, t, k);
      case NoMemory(c) => AskedInv(w, c);
      case Deliver(t) => DeliveredInv(w, t);
      case Unlink(t) => LeaveQueueInv(w, e);
      case Cancel(t) => LeaveQueueInv(w, e);
      case Release(t) => ReleaseInv(w, t);
      case Sync(t) => SyncInv(w, t);
      case Clear(t) => ClearInv(w, t);
      case StopRetry => SwitchInv(w, false, w.up);
      case StopConns => SwitchInv(w, w.running, false);
      case _ => HandlerInv(w, e);
    }
  }

  // ---------------------------------------------------------------- runs

  ghost predicate Runs(w: World, es: seq<Step>, w': World)
    decreases |es|
  {
    if es == [] then w' == w else Can(w, es[0]) && Runs(After(w, es[0]), es[1..], w')
  }

  lemma {:induction false} RunInv(w: World, es: seq<Step>, w': World)
    requires Inv(w) && Runs(w, es, w')
    ensures Inv(w')
    decreases |es|
  {
    if es != [] {
      hide Inv, Can, After;
      StepInv(w, es[0]);
      RunInv(After(w, es[0]), es[1..], w');
    }
  }

  /** No connection points to the wrapper and no thread or queue will ever reach it. */
  ghost predicate Forgotten(n: Net, k: SockId)
    requires k in n.socks
  {
    && (forall c :: c in n.conns ==> n.conns[c].sock != Some(k))
    && k !in n.relQ && n.socks[k].handed == 0 && n.socks[k].draining == 0 && n.socks[k].quiet == 0
    && n.socks[k].dialer.None? && n.socks[k].refs == 0 && n.socks[k].holders == 0
  }

  /** What the sockets promise. */
  ghost predicate SocketSafe(n: Net, k: SockId)
    requires k in n.socks
  {
    var s := n.socks[k];
    && s.handOuts <= 1 && s.enqs <= 1 && s.frees <= 1
    && s.refs == s.holders
    && (s.handOuts == 1 ==> forall c :: c in n.conns ==> n.conns[c].sock != Some(k))
    && (s.frees == 1 ==> Forgotten(n, k))
  }

  /** What the retry tasks promise. */
  ghost predicate TaskSafe(w: World, t: TaskId)
    requires t in w.tasks
  {
    var x := w.tasks[t];
    && x.releases <= 1 && x.given + x.sockFrees <= 1
    && (x.releases == 1 ==> x.given + x.sockFrees == 1 && t !in w.queue && !x.scheduled)
    && (x.sockFrees == 1 ==>
          x.sock in w.net.socks && w.net.socks[x.sock].frees == 1 && w.net.socks[x.sock].handOuts == 0)
  }

  ghost predicate Safe(w: World) {
    && (forall c :: c in w.net.conns ==> (w.net.conns[c].sock.Some? <==> w.net.conns[c].st.Connected?))
    && (forall k :: k in w.net.socks ==> SocketSafe(w.net, k))
    && w.net.num + w.net.incs == |w.net.relQ|
    && (forall t :: t in w.tasks ==> TaskSafe(w, t))
    && w.cnt == |w.queue|
    && (forall t :: t in w.queue ==> t in w.tasks)
    && (forall t, u :: t in w.queue && u in w.queue && w.tasks[t].addr == w.tasks[u].addr ==> t == u)
  }

  lemma SockAt(n: Net, k: SockId)
    requires NetInv(n) && k in n.socks
    ensures SocketSafe(n, k)
  {
    assert SockOk(n, k);
    forall c | c in n.conns && n.conns[c].sock == Some(k)
      ensures n.socks[k].at == Installed(c)
    {
      assert ConnOk(n, c);
    }
  }

  lemma TaskSafety(w: World, t: TaskId)
    requires Inv(w) && t in w.tasks
    ensures TaskSafe(w, t)
  {
    hide Inv, NetInv, TaskInv, Tracked;
    TaskAt(w, t);
    ReleasedOnce(w.tasks[t]);
    FreedByTask(w.net, w.tasks[t].sock);
  }

  lemma FreedByTask(n: Net, k: SockId)
    requires NetInv(n) && k in n.socks
    ensures n.socks[k].at == Freed(false) ==> n.socks[k].frees == 1 && n.socks[k].handOuts == 0
  {
    assert SockOk(n, k);
  }

  lemma InvSafe(w: World)
    requires Inv(w)
    ensures Safe(w)
  {
    hide Tracked, TaskInv, Linked, HoldsSock, TaskOk, SockOk, SocketSafe, TaskSafe;
    forall c | c in w.net.conns ensures w.net.conns[c].sock.Some? <==> w.net.conns[c].st.Connected? {
      assert ConnOk(w.net, c);
    }
    forall k | k in w.net.socks ensures SocketSafe(w.net, k) { SockAt(w.net, k); }
    forall t | t in w.tasks ensures TaskSafe(w, t) { TaskSafety(w, t); }
  }

  /** Over every interleaving from the start: `current_sock` is set exactly while Connected; a
      wrapper is handed out, queued and freed at most once each, out of reach of every connection
      after the hand-out and of everybody when freed; queued retry tasks have distinct addresses
      and are counted; a task is freed once and its wrapper accepted or freed, never both. */
  lemma ConnectionSafety(es: seq<Step>, w: World)
    requires Runs(START, es, w)
    ensures Safe(w)
  {
    hide Inv, Safe, Runs;
    StartInv();
    RunInv(START, es, w);
    InvSafe(w);
  }

  // ---------------------------------------------------------------- wrappers only move on

  lemma StepOnward(w: World, e: Step)
    requires Inv(w) && Can(w, e)
    ensures Grown(w.net, After(w, e).net)
  {
    hide CanNet, AfterNet, NetInv, TasksOk, OwnersOk, RetryQueueOk, Onward;
    if NetStep(e) {
      NetStepInv(w.net, e);
    } else {
      TaskOnward(w, e);
    }
  }

  lemma TaskOnward(w: World, e: Step)
    requires Inv(w) && CanTask(w, e)
    ensures Grown(w.net, AfterTask(w, e).net)
  {
    hide Inv, NetInv, TaskInv, Offer, FreeNow, TaskOk;
    if e.Deliver? {
      TaskAt(w, e.t);
      GrownOffer(w, e.t);
    } else if e.Release? || e.Clear? {
      TaskAt(w, e.t);
      GrownFree(w, e);
    }
  }

  lemma GrownOffer(w: World, t: TaskId)
    requires NetInv(w.net) && t in w.tasks && TaskOk(w, t) && CanTask(w, Deliver(t))
    ensures Grown(w.net, Offer(w.net, w.tasks[t].handler.conn, w.tasks[t].sock))
  {
    hide NetInv, TaskInv, Offer;
    DeliverKeeps(w.tasks[t]);
    var c, k := w.tasks[t].handler.conn, w.tasks[t].sock;
    if Takes(w.net, c) { InstallInv(w.net, c, k); } else { OfferRefused(w.net, c, k); }
  }

  lemma GrownFree(w: World, e: Step)
    requires NetInv(w.net) && CanTask(w, e) && (e.Release? || e.Clear?) && TaskOk(w, e.t)
    ensures HoldsSock(w.tasks[e.t]) ==> Grown(w.net, FreeNow(w.net, w.tasks[e.t].sock))
    ensures e.Clear? || (e.Release? && !w.tasks[e.t].handler.taken) ==> HoldsSock(w.tasks[e.t])
  {
    hide NetInv, FreeNow;
    if HoldsSock(w.tasks[e.t]) { FreeNowInv(w.net, w.tasks[e.t].sock); }
  }

  lemma OnwardChain(p: Place, q: Place, r: Place)
    requires Onward(p, q) && Onward(q, r)
    ensures Onward(p, r)
  {
  }

  /** A wrapper that has been handed out stays handed out: it is never installed again, over
      every further run. */
  lemma {:induction false} NeverReinstalled(w: World, es: seq<Step>, w': World, k: SockId)
    requires Inv(w) && Runs(w, es, w') && k in w.net.socks
    ensures k in w'.net.socks && Onward(w.net.socks[k].at, w'.net.socks[k].at)
    ensures w.net.socks[k].handOuts == 1 ==>
            w'.net.socks[k].handOuts == 1 && forall c :: c in w'.net.conns ==> w'.net.conns[c].sock != Some(k)
    decreases |es|
  {
    if es != [] {
      hide Inv, Can, After, Onward;
      StepInv(w, es[0]);
      StepOnward(w, es[0]);
      var v := After(w, es[0]);
      NeverReinstalled(v, es[1..], w', k);
      OnwardChain(w.net.socks[k].at, v.net.socks[k].at, w'.net.socks[k].at);
    }
    HandedFor(w, k);
    RunInv(w, es, w');
    HandedFor(w', k);
  }

  /** A forgotten wrapper is never freed, over every further run. */
  lemma LostForGood(w: World, es: seq<Step>, w': World, k: SockId)
    requires Inv(w) && Runs(w, es, w') && k in w.net.socks && w.net.socks[k].at.Lost?
    ensures k in w'.net.socks && w'.net.socks[k].at.Lost? && w'.net.socks[k].frees == 0
  {
    hide Runs, Inv;
    NeverReinstalled(w, es, w', k);
    RunInv(w, es, w');
    LostUnfreed(w', k);
  }

  lemma LostUnfreed(w: World, k: SockId)
    requires Inv(w) && k in w.net.socks && w.net.socks[k].at.Lost?
    ensures w.net.socks[k].frees == 0
  {
    assert SockOk(w.net, k);
  }

  lemma HandedFor(w: World, k: SockId)
    requires Inv(w) && k in w.net.socks
    ensures w.net.socks[k].handOuts == One(Age(w.net.socks[k].at) >= 2)
    ensures SocketSafe(w.net, k)
  {
    assert SockOk(w.net, k);
    SockAt(w.net, k);
  }

  lemma UnpinnedGet(w: World, k: SockId)
    requires Inv(w) && k in w.net.socks && w.net.socks[k].handOuts == 1
    ensures forall c :: c in w.net.conns ==> w.net.conns[c].sock != Some(k)
  {
    SockAt(w.net, k);
  }

  lemma NetUsers(n: Net, e: Step, k: SockId)
    requires CanNet(n, e) && k in n.socks && forall c :: c in n.conns ==> n.conns[c].sock != Some(k)
    ensures k in AfterNet(n, e).socks && AfterNet(n, e).socks[k].holders <= n.socks[k].holders
  {
    if e.DialOk? || e.BreakConn? || e.StopIt? || e.StartConn? || e.Closed? {
      UsersMoved(n, e, k);
      hide CanNet, AfterNet;
    } else {
      hide Transit;
    }
  }

  lemma UsersMoved(n: Net, e: Step, k: SockId)
    requires e.DialOk? || e.BreakConn? || e.StopIt? || e.StartConn? || e.Closed?
    requires CanNet(n, e) && k in n.socks && forall c :: c in n.conns ==> n.conns[c].sock != Some(k)
    ensures k in AfterNet(n, e).socks && AfterNet(n, e).socks[k].holders <= n.socks[k].holders
  {
    hide Transit;
  }

  lemma TaskUsers(w: World, e: Step, k: SockId)
    requires CanTask(w, e) && k in w.net.socks
    ensures k in AfterTask(w, e).net.socks && AfterTask(w, e).net.socks[k].holders == w.net.socks[k].holders
  {
    hide Transit, FireTask, FailTask, SettleTask, LookUpTask, UnlinkTask, ClaimTask, SyncTask;
  }

  /** Once a wrapper is handed out the number of its users only falls. */
  lemma NoNewUsers(w: World, e: Step, k: SockId)
    requires Inv(w) && Can(w, e) && k in w.net.socks && w.net.socks[k].handOuts == 1
    ensures k in After(w, e).net.socks && After(w, e).net.socks[k].holders <= w.net.socks[k].holders
  {
    hide Inv, CanTask, AfterTask, CanNet, AfterNet;
    if NetStep(e) {
      UnpinnedGet(w, k);
      NetUsers(w.net, e, k);
    } else {
      TaskUsers(w, e, k);
    }
  }
}
