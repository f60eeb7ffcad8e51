/** The connection manager, the release manager and the retry manager as objects updated in
    place; every method is proved against the step it takes in the model. */
module ConnMgr {
  import opened Wrappers
  import opened Seqs
  import opened ConnFsm
  import opened Net
  import opened RetryTask
  import opened Reconnect

  class Fsm {
    var st: ConnState

    constructor ()
      ensures st == Init
    {
      st := Init;
    }

    /** `update_conn_state`: one switch per state. */
    method UpdateConnState(ev: ConnEvent) returns (action: ConnAction)
      modifies this
      ensures (st, action) == Transit(old(st), ev)
      ensures action.NoAction? <==> st == old(st)
      ensures action.DoService? <==> st.Connected? && !old(st).Connected?
      ensures action.DoService? <==> ev.ConnectOk? && (old(st).Connecting? || old(st).ConnectRetry?)
      ensures action.DoRetry? <==> st.ConnectRetry? && !old(st).ConnectRetry?
      ensures action.DoRetry? <==> (old(st).Connecting? && ev.ConnectFail?) || (old(st).Connected? && ev.ConnectBroken?)
      ensures action.DoConnect? <==> old(st).Init? && ev.Connect?
      ensures action.DoFree? <==> old(st).Closing? && ev.StopDone?
      ensures action.DoClose? <==> ev.Stop? && Rank(old(st)) == 2
      ensures Rank(st) <= Rank(old(st))
    {
      action := NoAction;
      match st {
        case Init =>
          if ev.Connect? { st, action := Connecting, DoConnect; }
        case Connecting =>
          if ev.ConnectOk? { st, action := Connected, DoService; }
          else if ev.ConnectFail? { st, action := ConnectRetry, DoRetry; }
          else if ev.Stop? { st, action := Closing, DoClose; }
        case Connected =>
          if ev.ConnectBroken? { st, action := ConnectRetry, DoRetry; }
          else if ev.Stop? { st, action := Closing, DoClose; }
        case ConnectRetry =>
          if ev.ConnectOk? { st, action := Connected, DoService; }
          else if ev.Stop? { st, action := Closing, DoClose; }
        case Closing =>
          if ev.StopDone? { st, action := End, DoFree; }
        case End =>
      }
    }
  }

  /** The head of the release queue is taken off and freed, once its users have dropped their
      references. */
  function FreeFirst(n: Net): Net
    requires n.relQ != [] && n.relQ[0] in n.socks
  {
    var s := n.socks[n.relQ[0]];
    PutSock(n, n.relQ[0], s.(refs := s.refs - s.holders, holders := 0, frees := s.frees + 1, at := Freed(true)))
    .(relQ := n.relQ[1..], num := n.num - 1)
  }

  /** All references to a wrapper are dropped. */
  function Settle(n: Net, k: SockId): Net
    requires k in n.socks
  {
    var s := n.socks[k];
    PutSock(n, k, s.(refs := s.refs - s.holders, holders := 0))
  }

  /** Draining the release queue. */
  ghost function Drain(n: Net): Net
    requires forall k :: k in n.relQ ==> k in n.socks
    decreases |n.relQ|
  {
    if n.relQ == [] then n
    else
      var r := FreeFirst(n);
      assert forall k :: k in r.relQ ==> k in n.relQ;
      Drain(r)
  }

  /** The users of a wrapper drop their references one by one. */
  lemma {:induction false} SettleInv(n: Net, k: SockId)
    requires NetInv(n) && k in n.socks
    ensures NetInv(Settle(n, k)) && Settle(n, k).socks[k].refs == 0
    decreases n.socks[k].holders
  {
    hide NetInv;
    Balanced(n, k);
    if n.socks[k].holders == 0 {
      assert PutSock(n, k, n.socks[k]) == n;
    } else {
      DerefInv(n, k);
      SettleInv(Deref(n, k), k);
      assert Settle(Deref(n, k), k).socks == Settle(n, k).socks;
    }
  }

  lemma Balanced(n: Net, k: SockId)
    requires NetInv(n) && k in n.socks
    ensures n.socks[k].refs == n.socks[k].holders
  {
    assert SockOk(n, k);
  }

  lemma FreeFirstInv(n: Net)
    requires NetInv(n) && n.relQ != []
    ensures n.relQ[0] in n.socks && NetInv(FreeFirst(n))
    ensures var k := n.relQ[0]; var d := Settle(DeqSock(n), k);
            && k in d.socks && d.socks[k].draining > 0 && d.socks[k].refs <= 0
            && FreeFirst(n) == FreeQuiet(SeenIdle(d, k), k)
  {
    hide NetInv;
    Dequeued(n);
    var k := n.relQ[0];
    DeqSockInv(n);
    SettleInv(DeqSock(n), k);
    var d := Settle(DeqSock(n), k);
    SeenIdleInv(d, k);
    FreeQuietInv(SeenIdle(d, k), k);
    assert FreeFirst(n).socks == FreeQuiet(SeenIdle(d, k), k).socks;
  }

  lemma QueuedKnown(n: Net)
    requires NetInv(n)
    ensures forall k :: k in n.relQ ==> k in n.socks
  {
  }

  lemma DrainNext(n: Net)
    requires NetInv(n) && n.relQ != [] && forall k :: k in n.relQ ==> k in n.socks
    ensures NetInv(FreeFirst(n)) && |FreeFirst(n).relQ| < |n.relQ|
    ensures forall k :: k in FreeFirst(n).relQ ==> k in FreeFirst(n).socks
    ensures Drain(n) == Drain(FreeFirst(n))
  {
    hide NetInv;
    FreeFirstInv(n);
    assert forall k :: k in n.relQ[1..] ==> k in n.relQ;
  }

  lemma Drained(n: Net)
    requires n.relQ == []
    ensures Drain(n) == n
  {
  }

  /** Draining frees exactly the queued wrappers, once each, with no reference left. */
  lemma {:induction false} DrainExact(n: Net)
    requires NetInv(n) && forall k :: k in n.relQ ==> k in n.socks
    ensures var r := Drain(n);
            && NetInv(r) && r.relQ == [] && r.conns == n.conns && r.incs == n.incs && r.num + r.incs == 0
            && r.socks.Keys == n.socks.Keys
            && forall k :: k in n.socks ==>
                 if k in n.relQ then n.socks[k].frees == 0 && r.socks[k].frees == 1 && r.socks[k].refs == 0
                 else r.socks[k] == n.socks[k]
    decreases |n.relQ|
  {
    hide NetInv;
    if n.relQ == [] {
      EmptyQueue(n);
    } else {
      Dequeued(n);
      FreeFirstInv(n);
      Balanced(n, n.relQ[0]);
      assert forall k :: k in n.relQ <==> k == n.relQ[0] || k in n.relQ[1..];
      DrainExact(FreeFirst(n));
    }
  }

  class Connections {
    var conns: map<ConnId, Conn>
    var socks: map<SockId, Sock>
    var relQ: seq<SockId>
    var num: int
    var incs: nat

    function View(): Net
      reads this
    {
      EMPTY.(conns := conns, socks := socks, relQ := relQ, num := num, incs := incs)
    }

    constructor ()
      ensures View() == EMPTY
    {
      conns, socks, relQ, num, incs := map[], map[], [], 0, 0;
    }

    /** `update_conn_state_and_sock`: a wrapper comes back exactly when the event takes the connection
        out of Connected, and it is the one installed there and never handed out before. */
    method UpdateConn(c: ConnId, ev: ConnEvent, sock: Option<SockId>) returns (prev: Option<SockId>, action: ConnAction)
      requires c in conns
      modifies this
      ensures (View(), action, prev) == Update(old(View()), c, ev, sock)
      ensures forall d :: d in old(conns) && d != c ==> d in conns && conns[d] == old(conns)[d]
      ensures old(NetInv(View())) ==>
                && (prev.Some? <==> old(conns)[c].st.Connected? && !conns[c].st.Connected?)
                && (prev.Some? ==>
                      prev.value in socks && socks[prev.value].at == Installed(c) && socks[prev.value].handOuts == 0)
    {
      ghost var n := View();
      if NetInv(n) { InstalledThere(n, c); }
      TransitFacts(conns[c].st, ev);
      hide NetInv, Transit;
      prev := None;
      var next := Transit(conns[c].st, ev);
      action := next.1;
      if !action.NoAction? {
        prev := conns[c].sock;
        conns := conns[c := conns[c].(st := next.0, sock := sock)];
      }
    }

    method KeepOld(prev: Option<SockId>)
      modifies this
      ensures View() == HandOut(old(View()), prev)
    {
      if prev.Some? && prev.value in socks {
        var s := socks[prev.value];
        socks := socks[prev.value := s.(handed := s.handed + 1, handOuts := s.handOuts + 1, at := HandedOut)];
      }
    }

    /** `_retry_discoC_conn` up to the request for a retry task: true when this caller won. */
    method RetryConn(c: ConnId, ev: ConnEvent) returns (won: bool)
      requires NetInv(View()) && c in conns && (ev.ConnectFail? || ev.ConnectBroken?)
      modifies this
      ensures View() == Break(old(View()), c, ev) && NetInv(View())
      ensures won <==> conns[c].st.ConnectRetry? && !old(conns)[c].st.ConnectRetry?
      ensures won <==> conns[c].wanting == old(conns)[c].wanting + 1
    {
      BreakInv(View(), c, ev);
      hide NetInv;
      var prev, action := UpdateConn(c, ev, None);
      won := action.DoRetry?;
      if won {
        conns := conns[c := Want(conns[c])];
        KeepOld(prev);
      }
    }

    /** `get_sock_wrapper`: a wrapper only while Connected, and never one that was handed out. */
    method GetWrapper(c: ConnId) returns (k: Option<SockId>)
      requires NetInv(View()) && c in conns
      modifies this`socks
      ensures (View(), k) == GetSock(old(View()), c) && NetInv(View())
      ensures k.Some? <==> conns[c].st.Connected?
      ensures k.Some? ==> k == conns[c].sock && socks[k.value].refs == old(socks)[k.value].refs + 1
      ensures k.Some? ==> k.value in old(socks) && old(socks)[k.value].handOuts == 0 && old(socks)[k.value].frees == 0
    {
      GetSockInv(View(), c);
      ConnectedSock(View(), c);
      hide NetInv;
      k := None;
      if conns[c].st.Connected? && conns[c].sock.Some? && conns[c].sock.value in socks {
        k := conns[c].sock;
        var s := socks[k.value];
        socks := socks[k.value := s.(refs := s.refs + 1, holders := s.holders + 1)];
      }
    }

    /** `enq_release_sock`: a wrapper handed out is queued once, and the count is exact again. */
    method EnqRelease(k: SockId)
      requires k in socks && socks[k].handed > 0
      modifies this
      ensures View() == EnqCount(EnqLink(old(View()), k))
      ensures old(NetInv(View())) ==>
                NetInv(View()) && k !in old(relQ) && relQ == old(relQ) + [k] && num + incs == |relQ|
    {
      ghost var n := View();
      if NetInv(n) { Enqueued(n, k); }
      hide NetInv;
      var s := socks[k];
      socks := socks[k := s.(handed := s.handed - 1, enqs := s.enqs + 1, at := Queued)];
      relQ := relQ + [k];
      num := num + 1;
    }

    /** `deq_release_sock`. */
    method DeqRelease() returns (k: Option<SockId>)
      requires NetInv(View())
      modifies this
      ensures View() == DeqSock(old(View())) && NetInv(View())
      ensures k == if old(relQ) == [] then None else Some(old(relQ)[0])
    {
      DeqSockInv(View());
      QueueHead(View());
      hide NetInv;
      k := None;
      if relQ != [] {
        k := Some(relQ[0]);
        var s := socks[relQ[0]];
        socks := socks[relQ[0] := s.(draining := s.draining + 1, at := Draining)];
        relQ := relQ[1..];
        num := num - 1;
      }
    }

    /** `_free_all_socket` at shutdown. */
    method FreeAll()
      requires NetInv(View())
      modifies this
      ensures old(forall k :: k in relQ ==> k in socks) && View() == Drain(old(View())) && NetInv(View())
    {
      QueuedKnown(View());
      hide NetInv, FreeFirst, Drain;
      ghost var n0 := View();
      DrainExact(n0);
      while relQ != []
        invariant NetInv(View()) && (forall k :: k in relQ ==> k in socks) && Drain(n0) == Drain(View())
        decreases |relQ|
      {
        DrainNext(View());
        FreeHead();
      }
      Drained(View());
    }

    /** One turn: taken off the queue, waited for, freed. While the worker waits, the users of the
        wrapper drop their references. */
    method FreeHead()
      requires relQ != [] && relQ[0] in socks
      modifies this
      ensures View() == FreeFirst(old(View()))
    {
      var k := relQ[0];
      var s := socks[k];
      relQ, num := relQ[1..], num - 1;
      while s.holders > 0
        invariant s == old(socks)[k].(refs := s.refs, holders := s.holders)
        invariant s.refs - s.holders == old(socks)[k].refs - old(socks)[k].holders
        decreases s.holders
      {
        s := s.(refs := s.refs - 1, holders := s.holders - 1);
      }
      socks := socks[k := s.(frees := s.frees + 1, at := Freed(true))];
    }
  }

  lemma ConnectedSock(n: Net, c: ConnId)
    requires NetInv(n) && c in n.conns
    ensures n.conns[c].st.Connected? <==> n.conns[c].sock.Some?
    ensures n.conns[c].sock.Some? ==> var k := n.conns[c].sock.value;
              k in n.socks && n.socks[k].handOuts == 0 && n.socks[k].frees == 0
  {
    assert ConnOk(n, c);
    if n.conns[c].sock.Some? { assert SockOk(n, n.conns[c].sock.value); }
  }

  lemma InstalledThere(n: Net, c: ConnId)
    requires NetInv(n) && c in n.conns
    ensures n.conns[c].st.Connected? <==> n.conns[c].sock.Some?
    ensures n.conns[c].sock.Some? ==> var k := n.conns[c].sock.value;
              k in n.socks && n.socks[k].at == Installed(c) && n.socks[k].handOuts == 0
  {
    assert ConnOk(n, c);
    if n.conns[c].sock.Some? { assert SockOk(n, n.conns[c].sock.value); }
  }

  lemma Enqueued(n: Net, k: SockId)
    requires NetInv(n) && k in n.socks && n.socks[k].handed > 0
    ensures NetInv(EnqCount(EnqLink(n, k))) && k !in n.relQ && n.num + n.incs == |n.relQ|
  {
    assert SockOk(n, k);
    EnqLinkInv(n, k);
    hide NetInv;
    CountInv(EnqLink(n, k));
  }

  lemma QueueHead(n: Net)
    requires NetInv(n)
    ensures n.relQ != [] ==> n.relQ[0] in n.socks && n.relQ[0] !in n.relQ[1..]
  {
  }

  lemma EmptyQueue(n: Net)
    requires NetInv(n) && n.relQ == []
    ensures n.num + n.incs == 0
  {
  }

  /** What the worker holds after taking the head of the queue. */
  lemma Dequeued(n: Net)
    requires NetInv(n) && n.relQ != []
    ensures n.relQ[0] in n.socks && n.relQ[0] !in n.relQ[1..]
    ensures var r := DeqSock(n);
            && r.relQ == n.relQ[1..] && r.conns == n.conns && r.incs == n.incs
            && r.socks == n.socks[n.relQ[0] := n.socks[n.relQ[0]].(draining := 1, at := Draining)]
            && n.socks[n.relQ[0]].draining == 0 && n.socks[n.relQ[0]].quiet == 0 && n.socks[n.relQ[0]].frees == 0
  {
    assert SockOk(n, n.relQ[0]);
  }

  /** What one attempt of `cancel_conn_retry_task` decides. */
  datatype CancelAction = KeepRetry | DoNothing | FreeTask(task: TaskId)

  class RetryTasks {
    var tasks: map<TaskId, Task>
    var queue: seq<TaskId>
    var cnt: int
    var running: bool

    ghost predicate Shows(w: World)
      reads this
    {
      w.tasks == tasks && w.queue == queue && w.cnt == cnt && w.running == running
    }

    /** `_find_cr_task_lockless`: walks the list, and finds a task iff the address has one. */
    method FindTask(a: Addr) returns (r: Option<TaskId>)
      requires forall t :: t in queue ==> t in tasks
      ensures r.Some? ==> r.value in queue && tasks[r.value].addr == a
      ensures r.None? ==> forall t :: t in queue ==> tasks[t].addr != a
    {
      r := None;
      var i := 0;
      while i < |queue|
        invariant 0 <= i <= |queue|
        invariant forall j :: 0 <= j < i ==> tasks[queue[j]].addr != a
      {
        if tasks[queue[i]].addr == a {
          return Some(queue[i]);
        }
        i := i + 1;
      }
    }

    /** `add_conn_retry_task` for connection `c`: exactly the model's step, so refused exactly when
        the manager stops or the address has a task. */
    method AddRetryTask(ghost c: ConnId, a: Addr, t: TaskId, k: SockId, ghost w: World) returns (added: bool)
      requires Shows(w) && Inv(w) && CanTask(w, AddTask(c, t, k)) && a == w.net.conns[c].addr
      modifies this
      ensures Shows(Added(w, c, t, k)) && Inv(Added(w, c, t, k))
      ensures added <==> w.running && !Retrying(w, w.net.conns[c].addr)
      ensures added <==> t in queue
    {
      hide Inv, CanTask, Added;
      AddedInv(w, c, t, k);
      AddedShows(w, c, t, k);
      NoStray(w, t);
      added := false;
      if !running { return; }
      var found := FindTask(a);
      if found.Some? { return; }
      tasks := tasks[t := NewTask(a, k)];
      queue := queue + [t];
      cnt := cnt + 1;
      added := true;
    }

    method RemoveTask(t: TaskId)
      modifies this`queue, this`cnt
      ensures queue == Without(old(queue), t) && cnt == old(cnt) - 1
    {
      queue := Without(queue, t);
      cnt := cnt - 1;
    }

    /** One attempt of `cancel_conn_retry_task`: it claims the task iff the address has one that
        waits, it has to try again iff that task is connecting, and a claim is the model's step. */
    method CancelAttempt(a: Addr, ghost w: World) returns (action: CancelAction)
      requires Shows(w) && Inv(w)
      modifies this
      ensures action.FreeTask? <==> exists t :: t in w.queue && w.tasks[t].addr == a && w.tasks[t].st.CrWaiting?
      ensures action.KeepRetry? <==> exists t :: t in w.queue && w.tasks[t].addr == a && w.tasks[t].st.CrConnecting?
      ensures action.FreeTask? ==> CanTask(w, Cancel(action.task)) && w.tasks[action.task].addr == a
                                   && Shows(AfterTask(w, Cancel(action.task))) && Inv(AfterTask(w, Cancel(action.task)))
      ensures !action.FreeTask? ==> Shows(w)
    {
      hide Inv;
      NoStray(w, 0);
      OnePerAddr(w, a);
      var found := FindTask(a);
      action := DoNothing;
      if found.None? { return; }
      var t := found.value;
      if tasks[t].st.CrWaiting? {
        CancelStep(w, t);
        tasks := tasks[t := ClaimTask(tasks[t])];
        RemoveTask(t);
        action := FreeTask(t);
      } else if tasks[t].st.CrConnecting? {
        action := KeepRetry;
      }
    }
  }

  lemma CancelStep(w: World, t: TaskId)
    requires Inv(w) && t in w.queue && t in w.tasks && w.tasks[t].st.CrWaiting?
    ensures CanTask(w, Cancel(t)) && Inv(AfterTask(w, Cancel(t)))
    ensures AfterTask(w, Cancel(t)) ==
            w.(queue := Without(w.queue, t), cnt := w.cnt - 1, tasks := w.tasks[t := ClaimTask(w.tasks[t])])
  {
    hide Inv;
    TaskStepInv(w, Cancel(t));
  }

  lemma OnePerAddr(w: World, a: Addr)
    requires Inv(w)
    ensures forall t, u :: t in w.queue && u in w.queue && w.tasks[t].addr == w.tasks[u].addr ==> t == u
  {
  }

  /** What the retry manager sees of a request for a retry task. */
  lemma AddedShows(w: World, c: ConnId, t: TaskId, k: SockId)
    requires CanTask(w, AddTask(c, t, k))
    ensures var r := Added(w, c, t, k); var a := w.net.conns[c].addr;
            && r.running == w.running && t !in w.tasks
            && (if !w.running || Retrying(w, a) then r.tasks == w.tasks && r.queue == w.queue && r.cnt == w.cnt
                else r.tasks == w.tasks[t := NewTask(a, k)] && r.queue == w.queue + [t] && r.cnt == w.cnt + 1)
  {
    hide Retrying;
  }

  lemma NoStray(w: World, t: TaskId)
    requires Inv(w)
    ensures forall u :: u in w.queue ==> u in w.tasks
    ensures t !in w.tasks ==> t !in w.queue
  {
  }
}
