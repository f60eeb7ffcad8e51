/** Connections, their socket wrappers and the release queue. A step is one critical section of
    one thread; what a thread keeps in local variables between two sections is counted in the
    record of the wrapper concerned. */
module Net {
  import opened Wrappers
  import opened Seqs
  import opened ConnFsm

  type SockId = nat
  type ConnId = nat
  type TaskId = nat
  datatype Addr = Addr(ip: nat, port: nat)

  /** The creating thread: about to send CONN_E_Connect, about to dial, past dialing. */
  datatype Maker = Made | Started | Dialled

  datatype Conn = Conn(
    addr: Addr,
    st: ConnState,
    sock: Option<SockId>,     // current_sock
    inPool: bool,
    wanting: nat,             // threads about to ask for a retry task
    maker: Maker,
    looking: nat)             // senders that saw a socket and have not yet read the state

  /** Bookkeeping only, no step looks at it: where a wrapper is in its life. */
  datatype Place =
    | Dialed                  // in the hands of the thread that connects
    | OfTask(task: TaskId)    // held by a retry task
    | Installed(conn: ConnId)
    | HandedOut               // returned as the old socket, not yet on the release queue
    | Queued
    | Draining                // off the queue, waiting for the reference count to fall to zero
    | Quiet                   // the count was seen to be zero
    | Freed(queued: bool)
    | Lost                    // connected, refused by the state machine and forgotten

  datatype Sock = Sock(
    dialer: Option<ConnId>,   // local variable of a connecting thread
    handed: nat,              // local variables holding it as the old socket
    draining: nat,
    quiet: nat,
    frees: nat,               // calls of free_sock_wrapper
    refs: int,                // sock_ref_cnt
    holders: nat,             // threads between get_sock_wrapper and deRef_conn_sock
    handOuts: nat,            // times it was returned as the old socket
    enqs: nat,                // times it was put on the release queue
    at: Place)

  datatype Net = Net(conns: map<ConnId, Conn>, socks: map<SockId, Sock>, relQ: seq<SockId>, num: int, incs: nat)

  const EMPTY := Net(map[], map[], [], 0, 0)

  function NewSock(dialer: Option<ConnId>, at: Place): Sock {
    Sock(dialer, 0, 0, 0, 0, 0, 0, 0, 0, at)
  }

  function PutSock(n: Net, k: SockId, s: Sock): Net { n.(socks := n.socks[k := s]) }

  // ---------------------------------------------------------------- critical sections

  /** `update_conn_state_and_sock`: the socket is exchanged exactly when the event is accepted. */
  function Update(n: Net, c: ConnId, ev: ConnEvent, sock: Option<SockId>): (Net, ConnAction, Option<SockId>)
    requires c in n.conns
  {
    var conn := n.conns[c];
    var (st, a) := Transit(conn.st, ev);
    if a.NoAction? then (n, a, None)
    else (n.(conns := n.conns[c := conn.(st := st, sock := sock)]), a, conn.sock)
  }

  /** The connection a lookup by address finds in the pool. */
  predicate Pooled(n: Net, c: ConnId, a: Addr) { c in n.conns && n.conns[c].inPool && n.conns[c].addr == a }

  function AddConn(n: Net, c: ConnId, a: Addr): Net { n.(conns := n.conns[c := Conn(a, Init, None, true, 0, Made, 0)]) }

  /** An old socket that came back from `Update` is kept in a local variable. */
  function HandOut(n: Net, prev: Option<SockId>): Net {
    if prev.Some? && prev.value in n.socks
    then var s := n.socks[prev.value];
         PutSock(n, prev.value, s.(handed := s.handed + 1, handOuts := s.handOuts + 1, at := HandedOut))
    else n
  }

  function SetMaker(n: Net, c: ConnId, m: Maker): Net
    requires c in n.conns
  {
    n.(conns := n.conns[c := n.conns[c].(maker := m)])
  }

  /** CONN_E_Connect; the returned socket is ignored. */
  function StartConnect(n: Net, c: ConnId): Net
    requires c in n.conns
  {
    Update(SetMaker(n, c, Started), c, Connect, None).0
  }

  /** `connect_target` allocates a wrapper, whatever became of CONN_E_Connect. */
  function Dial(n: Net, c: ConnId, k: SockId): Net
    requires c in n.conns
  {
    PutSock(SetMaker(n, c, Dialled), k, NewSock(Some(c), Dialed))
  }

  /** `sockImpl_connDONE_fn`: is the socket taken? The returned socket is ignored. */
  predicate Takes(n: Net, c: ConnId)
    requires c in n.conns
  {
    Transit(n.conns[c].st, ConnectOk).1.DoService?
  }

  /** Offering a connected wrapper to a connection: installed if taken, else left to its owner. */
  function Offer(n: Net, c: ConnId, k: SockId): Net
    requires c in n.conns && k in n.socks
  {
    var n1 := Update(n, c, ConnectOk, Some(k)).0;
    if Takes(n, c) then PutSock(n1, k, n.socks[k].(dialer := None, at := Installed(c))) else n1
  }

  /** The connecting thread only logs a refusal. */
  function DialDone(n: Net, k: SockId): Net
    requires k in n.socks && n.socks[k].dialer.Some? && n.socks[k].dialer.value in n.conns
  {
    var c := n.socks[k].dialer.value;
    if Takes(n, c) then Offer(n, c, k)
    else PutSock(Offer(n, c, k), k, n.socks[k].(dialer := None, at := Lost))
  }

  /** `free_sock_wrapper` on a wrapper that never was on the release queue. */
  function FreeNow(n: Net, k: SockId): Net
    requires k in n.socks
  {
    var s := n.socks[k];
    PutSock(n, k, s.(dialer := None, frees := s.frees + 1, at := Freed(false)))
  }

  function Want(conn: Conn): Conn { conn.(wanting := conn.wanting + 1) }

  function WithConn(n: Net, c: ConnId, conn: Conn): Net { n.(conns := n.conns[c := conn]) }

  /** A sender reads `current_sock`, without a lock. */
  function LookAt(n: Net, c: ConnId): Net
    requires c in n.conns
  {
    WithConn(n, c, n.conns[c].(looking := n.conns[c].looking + 1))
  }

  /** The sender reads the state: it will ask for a retry task unless Connected. */
  function SeeState(n: Net, c: ConnId): Net
    requires c in n.conns && n.conns[c].looking > 0
  {
    var conn := n.conns[c].(looking := n.conns[c].looking - 1);
    WithConn(n, c, if conn.st.Connected? then conn else Want(conn))
  }

  /** A metadata report meets a connection that is not Connected: it will ask, too. */
  function ReportOn(n: Net, c: ConnId): Net
    requires c in n.conns
  {
    WithConn(n, c, Want(n.conns[c]))
  }

  /** CONN_E_Connect_FAIL and CONN_E_Connect_Broken in `_retry_discoC_conn`. */
  function Break(n: Net, c: ConnId, ev: ConnEvent): Net
    requires c in n.conns
  {
    var (n1, a, prev) := Update(n, c, ev, None);
    if a.DoRetry? then HandOut(n1.(conns := n1.conns[c := Want(n1.conns[c])]), prev) else n1
  }

  /** CONN_E_STOP in `close_discoC_conn`: off the pool when accepted. */
  function StopConn(n: Net, c: ConnId): Net
    requires c in n.conns
  {
    var (n1, a, prev) := Update(n, c, Stop, None);
    if a.DoClose? then HandOut(n1.(conns := n1.conns[c := n1.conns[c].(inPool := false)]), prev) else n1
  }

  function CloseDone(n: Net, c: ConnId): Net
    requires c in n.conns
  {
    Update(n, c, StopDone, None).0
  }

  /** `get_sock_wrapper`. */
  function GetSock(n: Net, c: ConnId): (Net, Option<SockId>)
    requires c in n.conns
  {
    var conn := n.conns[c];
    if conn.st.Connected? && conn.sock.Some? && conn.sock.value in n.socks
    then var s := n.socks[conn.sock.value];
         (PutSock(n, conn.sock.value, s.(refs := s.refs + 1, holders := s.holders + 1)), conn.sock)
    else (n, None)
  }

  function Deref(n: Net, k: SockId): Net
    requires k in n.socks && n.socks[k].holders > 0
  {
    var s := n.socks[k];
    PutSock(n, k, s.(refs := s.refs - 1, holders := s.holders - 1))
  }

  /** `enq_release_sock` under the lock; the counter follows later. */
  function EnqLink(n: Net, k: SockId): Net
    requires k in n.socks && n.socks[k].handed > 0
  {
    var s := n.socks[k];
    PutSock(n, k, s.(handed := s.handed - 1, enqs := s.enqs + 1, at := Queued))
    .(relQ := n.relQ + [k], incs := n.incs + 1)
  }

  function EnqCount(n: Net): Net
    requires n.incs > 0
  {
    n.(num := n.num + 1, incs := n.incs - 1)
  }

  /** `deq_release_sock`; the queue may be empty when a woken worker looks. */
  function DeqSock(n: Net): Net {
    if n.relQ == [] || n.relQ[0] !in n.socks then n
    else
      var s := n.socks[n.relQ[0]];
      PutSock(n, n.relQ[0], s.(draining := s.draining + 1, at := Draining)).(relQ := n.relQ[1..], num := n.num - 1)
  }

  /** `_check_sock_ref` leaves its loop. */
  function SeenIdle(n: Net, k: SockId): Net
    requires k in n.socks && n.socks[k].draining > 0 && n.socks[k].refs <= 0
  {
    var s := n.socks[k];
    PutSock(n, k, s.(draining := s.draining - 1, quiet := s.quiet + 1, at := Quiet))
  }

  function FreeQuiet(n: Net, k: SockId): Net
    requires k in n.socks && n.socks[k].quiet > 0
  {
    var s := n.socks[k];
    PutSock(n, k, s.(quiet := s.quiet - 1, frees := s.frees + 1, at := Freed(true)))
  }

  // ---------------------------------------------------------------- invariant

  function One(b: bool): nat { if b then 1 else 0 }

  predicate Released(p: Place) { p.Queued? || p.Draining? || p.Quiet? || p == Freed(true) }

  predicate Unreachable(p: Place) { p.Dialed? || p.OfTask? || p.Quiet? || p.Freed? || p.Lost? }

  /** Every counter of a wrapper follows from where it is in its life. */
  ghost predicate Tracked(s: Sock) {
    && (s.dialer.Some? <==> s.at.Dialed?)
    && s.handed == One(s.at.HandedOut?)
    && s.draining == One(s.at.Draining?)
    && s.quiet == One(s.at.Quiet?)
    && s.frees == One(s.at.Freed?)
    && s.handOuts == One(s.at.HandedOut? || Released(s.at))
    && s.enqs == One(Released(s.at))
    && s.refs == s.holders
    && (Unreachable(s.at) ==> s.holders == 0)
  }

  ghost predicate ConnOk(n: Net, c: ConnId)
    requires c in n.conns
  {
    var conn := n.conns[c];
    && (conn.st.Connected? <==> conn.sock.Some?)
    && (conn.sock.Some? ==> conn.sock.value in n.socks && n.socks[conn.sock.value].at == Installed(c))
    && (conn.inPool <==> Rank(conn.st) >= 2)
  }

  ghost predicate SockOk(n: Net, k: SockId)
    requires k in n.socks
  {
    var s := n.socks[k];
    && Tracked(s)
    && (s.at.Installed? ==> s.at.conn in n.conns && n.conns[s.at.conn].sock == Some(k))
    && (s.at.Queued? <==> k in n.relQ)
    && (s.dialer.Some? ==> s.dialer.value in n.conns)
  }

  ghost predicate QueueOk(n: Net) {
    && NoDup(n.relQ)
    && (forall k :: k in n.relQ ==> k in n.socks)
    && n.num + n.incs == |n.relQ|
  }

  ghost predicate ConnsOk(n: Net) { forall c :: c in n.conns ==> ConnOk(n, c) }

  ghost predicate SocksOk(n: Net) { forall k :: k in n.socks ==> SockOk(n, k) }

  /** At most one pooled connection per address. */
  ghost predicate PoolOk(n: Net) {
    forall c, d, a :: Pooled(n, c, a) && Pooled(n, d, a) ==> c == d
  }

  ghost predicate NetInv(n: Net) { ConnsOk(n) && SocksOk(n) && QueueOk(n) && PoolOk(n) }

  lemma EmptyNet()
    ensures NetInv(EMPTY)
  {
  }

  lemma PoolFrame(n: Net, r: Net)
    requires PoolOk(n) && forall c, a :: Pooled(r, c, a) ==> Pooled(n, c, a)
    ensures PoolOk(r)
  {
    forall c, d, a | Pooled(r, c, a) && Pooled(r, d, a) ensures c == d {
      assert Pooled(n, c, a) && Pooled(n, d, a);
    }
  }

  predicate OwnedBy(n: Net, k: SockId, t: TaskId) { k in n.socks && n.socks[k].at == OfTask(t) }

  /** How far a wrapper that was installed has come since. */
  function Age(p: Place): nat {
    match p
    case Installed(_) => 1
    case HandedOut => 2
    case Queued => 3
    case Draining => 4
    case Quiet => 5
    case Freed(queued) => if queued then 6 else 0
    case _ => 0
  }

  /** A wrapper not yet installed may end up anywhere; an installed one only moves on; one that
      was freed or forgotten without being installed stays so. */
  predicate Onward(p: Place, q: Place) {
    p == q || ((p.Dialed? || p.OfTask?) && !q.Dialed? && !q.OfTask?) || 0 < Age(p) < Age(q)
  }

  /** No record disappears and every wrapper moves on. */
  ghost predicate Grown(n: Net, r: Net) {
    && n.conns.Keys <= r.conns.Keys && n.socks.Keys <= r.socks.Keys
    && (forall c :: c in n.conns ==> r.conns[c].addr == n.conns[c].addr)
    && forall k :: k in n.socks ==> Onward(n.socks[k].at, r.socks[k].at)
  }

  /** No record disappears, and the retry tasks keep their wrappers. */
  ghost predicate Kept(n: Net, r: Net) {
    Grown(n, r) && forall k, t :: OwnedBy(r, k, t) <==> OwnedBy(n, k, t)
  }

  /** As `Kept`, but wrapper `j` is no task's any more. */
  ghost predicate KeptBut(n: Net, r: Net, j: SockId) {
    Grown(n, r) && forall k, t :: OwnedBy(r, k, t) <==> OwnedBy(n, k, t) && k != j
  }

  // ---------------------------------------------------------------- one wrapper changes

  /** A wrapper record changes and no pointer to it has to. */
  lemma SockStep(n: Net, k: SockId, s: Sock)
    requires NetInv(n) && Tracked(s) && (s.dialer.Some? ==> s.dialer.value in n.conns)
    requires if k in n.socks then s.at == n.socks[k].at || !(n.socks[k].at.Installed? || n.socks[k].at.Queued?)
             else !s.at.Installed?
    requires k !in n.socks || s.at != n.socks[k].at ==> !s.at.Installed? && !s.at.Queued?
    ensures NetInv(PutSock(n, k, s))
    ensures && (if k in n.socks then s.at == n.socks[k].at || !(s.at.OfTask? || n.socks[k].at.OfTask?)
                else !s.at.OfTask?)
            && (k in n.socks ==> Onward(n.socks[k].at, s.at)) ==>
              Kept(n, PutSock(n, k, s))
  {
    hide Tracked;
    var r := PutSock(n, k, s);
    forall c | c in r.conns ensures ConnOk(r, c) { assert ConnOk(n, c); }
    PoolFrame(n, r);
    forall j | j in r.socks ensures SockOk(r, j) {
      if j in n.socks { assert SockOk(n, j); }
    }
  }

  /** Changing the state of a connection that has no wrapper, before and after. */
  lemma ConnStep(n: Net, c: ConnId, conn: Conn)
    requires NetInv(n) && c in n.conns && conn.addr == n.conns[c].addr && conn.sock == n.conns[c].sock == None
    requires !conn.st.Connected? && (conn.inPool <==> Rank(conn.st) >= 2) && (conn.inPool ==> n.conns[c].inPool)
    ensures NetInv(n.(conns := n.conns[c := conn]))
    ensures Kept(n, n.(conns := n.conns[c := conn]))
  {
    hide Tracked, Transit;
    var r := n.(conns := n.conns[c := conn]);
    assert ConnOk(n, c);
    forall d | d in r.conns ensures ConnOk(r, d) { assert ConnOk(n, d); }
    PoolFrame(n, r);
    forall j | j in r.socks ensures SockOk(r, j) { assert SockOk(n, j); }
  }

  /** The threads at work on a connection are counted apart from its state. */
  lemma MarkInv(n: Net, c: ConnId, wanting: nat, m: Maker, looking: nat)
    requires NetInv(n) && c in n.conns
    ensures var r := WithConn(n, c, n.conns[c].(wanting := wanting, maker := m, looking := looking));
            NetInv(r) && Kept(n, r)
  {
    hide Tracked, Transit;
    var r := WithConn(n, c, n.conns[c].(wanting := wanting, maker := m, looking := looking));
    PoolFrame(n, r);
    forall d | d in r.conns ensures ConnOk(r, d) { assert ConnOk(n, d); }
    forall j | j in r.socks ensures SockOk(r, j) { assert SockOk(n, j); }
  }

  lemma AddConnInv(n: Net, c: ConnId, a: Addr)
    requires NetInv(n) && c !in n.conns && (forall d :: !Pooled(n, d, a))
    ensures NetInv(AddConn(n, c, a))
    ensures Kept(n, AddConn(n, c, a))
  {
    hide Tracked;
    var r := AddConn(n, c, a);
    forall d | d in r.conns ensures ConnOk(r, d) { if d != c { assert ConnOk(n, d); } }
    forall j | j in r.socks ensures SockOk(r, j) { assert SockOk(n, j); }
    forall d, e, b | Pooled(r, d, b) && Pooled(r, e, b) ensures d == e {
      assert !Pooled(n, d, a) && !Pooled(n, e, a);
      assert d != c ==> Pooled(n, d, b);
      assert e != c ==> Pooled(n, e, b);
    }
  }

  lemma StartConnectInv(n: Net, c: ConnId)
    requires NetInv(n) && c in n.conns
    ensures NetInv(StartConnect(n, c))
    ensures Kept(n, StartConnect(n, c))
  {
    MarkInv(n, c, n.conns[c].wanting, Started, n.conns[c].looking);
    var m := SetMaker(n, c, Started);
    assert ConnOk(m, c);
    var conn := m.conns[c];
    if conn.st.Init? { ConnStep(m, c, conn.(st := Connecting)); }
  }

  /** Looking, seeing and reporting only count threads. */
  lemma AskersInv(n: Net, c: ConnId)
    requires NetInv(n) && c in n.conns
    ensures NetInv(LookAt(n, c)) && Kept(n, LookAt(n, c))
    ensures NetInv(ReportOn(n, c)) && Kept(n, ReportOn(n, c))
    ensures n.conns[c].looking > 0 ==> NetInv(SeeState(n, c)) && Kept(n, SeeState(n, c))
  {
    hide NetInv, Kept;
    var conn := n.conns[c];
    MarkInv(n, c, conn.wanting, conn.maker, conn.looking + 1);
    MarkInv(n, c, conn.wanting + 1, conn.maker, conn.looking);
    if conn.looking > 0 {
      MarkInv(n, c, conn.wanting, conn.maker, conn.looking - 1);
      MarkInv(n, c, conn.wanting + 1, conn.maker, conn.looking - 1);
    }
  }

  lemma CloseDoneInv(n: Net, c: ConnId)
    requires NetInv(n) && c in n.conns
    ensures NetInv(CloseDone(n, c))
    ensures Kept(n, CloseDone(n, c))
  {
    assert ConnOk(n, c);
    var conn := n.conns[c];
    if conn.st.Closing? { ConnStep(n, c, conn.(st := End)); }
  }

  /** Installing: the connection had no socket, so nothing is overwritten. */
  lemma InstallInv(n: Net, c: ConnId, k: SockId)
    requires NetInv(n) && c in n.conns && k in n.socks && (n.socks[k].at.Dialed? || n.socks[k].at.OfTask?)
    requires Takes(n, c)
    ensures n.conns[c].sock.None?
    ensures NetInv(Offer(n, c, k))
    ensures KeptBut(n, Offer(n, c, k), k)
    ensures n.socks[k].at.Dialed? ==> Kept(n, Offer(n, c, k))
  {
    assert ConnOk(n, c) && SockOk(n, k);
    var r := Offer(n, c, k);
    assert r == PutSock(n.(conns := n.conns[c := n.conns[c].(st := Connected, sock := Some(k))]), k,
                        n.socks[k].(dialer := None, at := Installed(c)));
    assert Tracked(r.socks[k]);
    hide Tracked;
    forall d | d in r.conns ensures ConnOk(r, d) { assert ConnOk(n, d); }
    PoolFrame(n, r);
    forall j | j in r.socks ensures SockOk(r, j) { assert SockOk(n, j); }
  }

  /** Leaving Connected hands the installed wrapper out; otherwise there is none to hand out. */
  lemma LeaveInv(n: Net, c: ConnId, conn: Conn)
    requires NetInv(n) && c in n.conns && conn.addr == n.conns[c].addr && conn.sock.None?
    requires !conn.st.Connected? && (conn.inPool <==> Rank(conn.st) >= 2) && (conn.inPool ==> n.conns[c].inPool)
    ensures NetInv(HandOut(n.(conns := n.conns[c := conn]), n.conns[c].sock))
    ensures Kept(n, HandOut(n.(conns := n.conns[c := conn]), n.conns[c].sock))
  {
    assert ConnOk(n, c);
    var prev := n.conns[c].sock;
    if prev.None? {
      ConnStep(n, c, conn);
    } else {
      assert SockOk(n, prev.value);
      var r := HandOut(n.(conns := n.conns[c := conn]), prev);
      assert Tracked(r.socks[prev.value]);
      hide Tracked;
      forall d | d in r.conns ensures ConnOk(r, d) { assert ConnOk(n, d); }
      PoolFrame(n, r);
      forall j | j in r.socks ensures SockOk(r, j) { assert SockOk(n, j); }
    }
  }

  lemma KeptSelf(n: Net)
    ensures Kept(n, n)
  {
  }

  lemma BreakInv(n: Net, c: ConnId, ev: ConnEvent)
    requires NetInv(n) && c in n.conns && (ev.ConnectFail? || ev.ConnectBroken?)
    ensures NetInv(Break(n, c, ev))
    ensures Kept(n, Break(n, c, ev))
  {
    assert ConnOk(n, c);
    var conn := n.conns[c];
    KeptSelf(n);
    hide NetInv, ConnOk, Kept, HandOut;
    if Transit(conn.st, ev).1.DoRetry? {
      LeaveInv(n, c, Want(conn.(st := ConnectRetry, sock := None)));
      assert n.conns[c := conn.(st := ConnectRetry, sock := None)][c := Want(conn.(st := ConnectRetry, sock := None))]
          == n.conns[c := Want(conn.(st := ConnectRetry, sock := None))];
    }
  }

  lemma StopConnInv(n: Net, c: ConnId)
    requires NetInv(n) && c in n.conns
    ensures NetInv(StopConn(n, c))
    ensures Kept(n, StopConn(n, c))
  {
    assert ConnOk(n, c);
    var conn := n.conns[c];
    if Transit(conn.st, Stop).1.DoClose? {
      LeaveInv(n, c, conn.(st := Closing, sock := None, inPool := false));
      assert n.conns[c := conn.(st := Closing, sock := None)][c := conn.(st := Closing, sock := None, inPool := false)]
          == n.conns[c := conn.(st := Closing, sock := None, inPool := false)];
    }
  }

  lemma DialerOk(n: Net, k: SockId)
    requires NetInv(n) && k in n.socks && n.socks[k].dialer.Some?
    ensures n.socks[k].dialer.value in n.conns && n.socks[k].at.Dialed?
    ensures Tracked(n.socks[k].(dialer := None, at := Lost)) && n.socks[k].frees == 0
  {
    assert SockOk(n, k);
  }

  lemma OfferRefused(n: Net, c: ConnId, k: SockId)
    requires c in n.conns && k in n.socks && !Takes(n, c)
    ensures Offer(n, c, k) == n
  {
  }

  /** The wrapper of a connecting thread is forgotten, connected and unfreed, exactly when its
      connection is neither connecting nor retrying any more. */
  lemma DialLostExactly(n: Net, k: SockId)
    requires NetInv(n) && k in n.socks && n.socks[k].dialer.Some?
    ensures n.socks[k].dialer.value in n.conns
    ensures var st, r := n.conns[n.socks[k].dialer.value].st, DialDone(n, k).socks[k];
            r.at.Lost? && r.frees == 0 <==> !st.Connecting? && !st.ConnectRetry?
  {
    hide NetInv;
    DialerOk(n, k);
  }

  lemma DialDoneInv(n: Net, k: SockId)
    requires NetInv(n) && k in n.socks && n.socks[k].dialer.Some?
    ensures n.socks[k].dialer.value in n.conns && NetInv(DialDone(n, k))
    ensures Kept(n, DialDone(n, k))
  {
    hide NetInv, Tracked, Transit;
    DialerOk(n, k);
    var c := n.socks[k].dialer.value;
    if Takes(n, c) {
      InstallInv(n, c, k);
    } else {
      OfferRefused(n, c, k);
      SockStep(n, k, n.socks[k].(dialer := None, at := Lost));
    }
  }

  /** Freeing outside the queue is for wrappers that were never installed. */
  lemma FreeNowInv(n: Net, k: SockId)
    requires NetInv(n) && k in n.socks && (n.socks[k].at.Dialed? || n.socks[k].at.OfTask?)
    ensures NetInv(FreeNow(n, k))
    ensures KeptBut(n, FreeNow(n, k), k)
    ensures n.socks[k].at.Dialed? ==> Kept(n, FreeNow(n, k))
  {
    assert SockOk(n, k);
    SockStep(n, k, FreeNow(n, k).socks[k]);
  }

  lemma GetSockInv(n: Net, c: ConnId)
    requires NetInv(n) && c in n.conns
    ensures NetInv(GetSock(n, c).0)
    ensures Kept(n, GetSock(n, c).0)
  {
    assert ConnOk(n, c);
    var conn := n.conns[c];
    if conn.sock.Some? {
      assert SockOk(n, conn.sock.value);
      SockStep(n, conn.sock.value, GetSock(n, c).0.socks[conn.sock.value]);
    }
  }

  lemma DerefInv(n: Net, k: SockId)
    requires NetInv(n) && k in n.socks && n.socks[k].holders > 0
    ensures NetInv(Deref(n, k))
    ensures Kept(n, Deref(n, k))
  {
    assert SockOk(n, k);
    SockStep(n, k, Deref(n, k).socks[k]);
  }

  lemma SeenIdleInv(n: Net, k: SockId)
    requires NetInv(n) && k in n.socks && n.socks[k].draining > 0 && n.socks[k].refs <= 0
    ensures NetInv(SeenIdle(n, k))
    ensures Kept(n, SeenIdle(n, k))
  {
    assert SockOk(n, k);
    SockStep(n, k, SeenIdle(n, k).socks[k]);
  }

  lemma FreeQuietInv(n: Net, k: SockId)
    requires NetInv(n) && k in n.socks && n.socks[k].quiet > 0
    ensures NetInv(FreeQuiet(n, k))
    ensures Kept(n, FreeQuiet(n, k))
  {
    assert SockOk(n, k);
    SockStep(n, k, FreeQuiet(n, k).socks[k]);
  }

  lemma EnqLinkInv(n: Net, k: SockId)
    requires NetInv(n) && k in n.socks && n.socks[k].handed > 0
    ensures NetInv(EnqLink(n, k))
    ensures Kept(n, EnqLink(n, k))
  {
    assert SockOk(n, k);
    var r := EnqLink(n, k);
    assert Tracked(r.socks[k]);
    hide Tracked;
    forall c | c in r.conns ensures ConnOk(r, c) { assert ConnOk(n, c); }
    PoolFrame(n, r);
    forall j | j in r.socks ensures SockOk(r, j) { assert SockOk(n, j); }
  }

  lemma DeqSockInv(n: Net)
    requires NetInv(n)
    ensures NetInv(DeqSock(n))
    ensures Kept(n, DeqSock(n))
  {
    if n.relQ != [] {
      var k := n.relQ[0];
      assert SockOk(n, k);
      var r := DeqSock(n);
      assert Tracked(r.socks[k]);
      hide Tracked;
      assert forall j :: j in n.relQ <==> j == k || j in r.relQ;
      forall c | c in r.conns ensures ConnOk(r, c) { assert ConnOk(n, c); }
      PoolFrame(n, r);
      forall j | j in r.socks ensures SockOk(r, j) { assert SockOk(n, j); }
    }
  }
}
