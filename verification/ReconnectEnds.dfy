/** Which steps lose a retry, how connections end, and what a sender gets from one. */
module ReconnectEnds {
  import opened Wrappers
  import opened Seqs
  import opened ConnFsm
  import opened Net
  import opened RetryTask
  import opened Reconnect
  import opened ReconnectLoss
  import opened ReconnectReach

  // ---------------------------------------------------------------- losing a retry

  /** A queued task is still bound to connect this address for `c`. */
  ghost predicate Helped(w: World, c: ConnId)
    requires c in w.net.conns
  {
    exists u :: Bound(w, u, c, w.net.conns[c].addr)
  }

  /** The steps that end the last hope of `c`: its only asker runs out of memory, finds the manager
      stopping or is told that a task is queued which is past its lookup; or, with nobody asking, its
      task is cancelled, fires after the stop, or looks up after the connection manager went down. */
  ghost predicate Drops(w: World, e: Step, c: ConnId)
    requires c in w.net.conns
  {
    var conn := w.net.conns[c];
    match e
    case NoMemory(d) => d == c && conn.wanting == 1 && !Helped(w, c)
    case AddTask(d, _, _) => d == c && conn.wanting == 1 && !Helped(w, c) && (!w.running || Retrying(w, conn.addr))
    case Cancel(t) => conn.wanting == 0 && Bound(w, t, c, conn.addr)
    case Fire(t) => conn.wanting == 0 && !w.running && Bound(w, t, c, conn.addr)
    case LookUp(t, _) => conn.wanting == 0 && !w.up && Bound(w, t, c, conn.addr)
    case _ => false
  }

  lemma DropsLose(w: World, e: Step, c: ConnId)
    requires c in w.net.conns && Drops(w, e, c)
    ensures Loses(w, e, c)
  {
    var a := w.net.conns[c].addr;
    if e.AddTask? && w.running {
      var u :| u in w.queue && u in w.tasks && w.tasks[u].addr == a;
      assert QueuedFor(w, u, a) && !Bound(w, u, c, a);
    }
  }

  /** The asker goes and nothing else changes. */
  lemma AskerGone(w: World, e: Step, c: ConnId)
    requires CanTask(w, e) && (e.AddTask? || e.NoMemory?) && c in w.net.conns && Loses(w, e, c)
    requires w.net.conns[c].st.ConnectRetry?
    ensures c in AfterTask(w, e).net.conns && (Covered(AfterTask(w, e), c) <==> !Drops(w, e, c))
  {
    var v, a := AfterTask(w, e), w.net.conns[c].addr;
    assert e.c == c && v == w.(net := Asked(w.net, c)) by {
      if e.AddTask? && w.running {
        var u :| QueuedFor(w, u, a) && !StillTrying(w.tasks[u], c);
        assert Retrying(w, a);
      }
    }
    if e.AddTask? && w.running && !Helped(w, c) {
      var u :| QueuedFor(w, u, a) && !StillTrying(w.tasks[u], c);
      assert Retrying(w, a);
    }
    hide StillTrying, Retrying;
    forall u ensures Bound(v, u, c, a) <==> Bound(w, u, c, a) { }
    assert v.net.conns[c] == w.net.conns[c].(wanting := w.net.conns[c].wanting - 1);
  }

  /** The task of the address gives up. */
  lemma TaskGone(w: World, e: Step, c: ConnId)
    requires Inv(w) && CanTask(w, e) && (e.Cancel? || e.Fire? || e.LookUp?) && c in w.net.conns && Loses(w, e, c)
    requires w.net.conns[c].st.ConnectRetry?
    ensures c in AfterTask(w, e).net.conns && (Covered(AfterTask(w, e), c) <==> !Drops(w, e, c))
  {
    var v, a := AfterTask(w, e), w.net.conns[c].addr;
    assert v.net == w.net;
    forall u ensures !Bound(v, u, c, a) {
      if u == e.t { GivesUp(w, e, c); } else if QueuedFor(v, u, a) { OtherTask(w, e, c, u); }
    }
    hide AfterTask, Inv, Bound;
  }

  lemma GivesUp(w: World, e: Step, c: ConnId)
    requires Inv(w) && CanTask(w, e) && (e.Cancel? || e.Fire? || e.LookUp?) && c in w.net.conns && Loses(w, e, c)
    ensures !Bound(AfterTask(w, e), e.t, c, w.net.conns[c].addr)
  {
    if e.Cancel? { QueueNoDup(w); WithoutMember(w.queue, e.t); }
    hide Inv;
  }

  lemma OtherTask(w: World, e: Step, c: ConnId, u: TaskId)
    requires Inv(w) && CanTask(w, e) && (e.Cancel? || e.Fire? || e.LookUp?) && c in w.net.conns && Loses(w, e, c)
    requires u != e.t
    ensures !QueuedFor(AfterTask(w, e), u, w.net.conns[c].addr)
  {
    OffererIsQueued(w, e.t, c);
    if e.Cancel? { QueueNoDup(w); WithoutMember(w.queue, e.t); }
    hide Inv, StillTrying;
    assert QueuedFor(w, e.t, w.net.conns[c].addr);
    assert !QueuedFor(w, u, w.net.conns[c].addr);
  }

  lemma QueueNoDup(w: World)
    requires Inv(w)
    ensures NoDup(w.queue)
  {
  }

  /** A connection waiting for its retry loses the last thread bound to bring it back exactly by these
      steps, in these states. */
  lemma DropsExactly(w: World, e: Step, c: ConnId)
    requires Inv(w) && Can(w, e) && c in w.net.conns && w.net.conns[c].st.ConnectRetry? && Covered(w, c)
    ensures c in After(w, e).net.conns && (Covered(After(w, e), c) <==> !Drops(w, e, c))
  {
    if Loses(w, e, c) {
      hide Inv, Covered, Drops, CanTask, AfterTask;
      if e.AddTask? || e.NoMemory? { AskerGone(w, e, c); } else { TaskGone(w, e, c); }
    } else {
      hide Inv, Covered, Loses, Drops, Can, After;
      KeepsCovered(w, e, c);
      if Drops(w, e, c) { DropsLose(w, e, c); }
    }
  }

  // ---------------------------------------------------------------- the end of a connection

  /** The phases of a connection: not started, open, closing, gone. */
  lemma RankStep(w: World, e: Step, c: ConnId)
    requires Can(w, e) && c in w.net.conns
    ensures c in After(w, e).net.conns && Rank(After(w, e).net.conns[c].st) <= Rank(w.net.conns[c].st)
  {
    if NetStep(e) { RankNet(w.net, e, c); } else { RankTask(w, e, c); }
  }

  lemma RankNet(n: Net, e: Step, c: ConnId)
    requires CanNet(n, e) && c in n.conns
    ensures c in AfterNet(n, e).conns && Rank(AfterNet(n, e).conns[c].st) <= Rank(n.conns[c].st)
  {
    if OnConn(e) {
      OneConn(n, e);
      if Subject(n, e) == c { RankSubject(n, e); }
    } else {
      SockOnly(n, e);
    }
  }

  lemma RankSubject(n: Net, e: Step)
    requires CanNet(n, e) && OnConn(e) && Subject(n, e) in n.conns
    ensures var c := Subject(n, e);
            c in AfterNet(n, e).conns && Rank(AfterNet(n, e).conns[c].st) <= Rank(n.conns[c].st)
  {
    var c := Subject(n, e);
    TransitFacts(n.conns[c].st, if e.BreakConn? then e.ev else Stop);
    TransitFacts(n.conns[c].st, ConnectOk);
    TransitFacts(n.conns[c].st, Connect);
    TransitFacts(n.conns[c].st, StopDone);
    hide Transit, Rank;
  }

  lemma RankTask(w: World, e: Step, c: ConnId)
    requires CanTask(w, e) && c in w.net.conns
    ensures c in AfterTask(w, e).net.conns && Rank(AfterTask(w, e).net.conns[c].st) <= Rank(w.net.conns[c].st)
  {
    TransitFacts(w.net.conns[c].st, ConnectOk);
    hide Transit, Rank, Retrying;
  }

  /** Over every run a connection only moves forward through its phases; one that is gone stays so. */
  lemma {:induction false} Forward(w: World, es: seq<Step>, w': World, c: ConnId)
    requires Runs(w, es, w') && c in w.net.conns
    ensures c in w'.net.conns && Rank(w'.net.conns[c].st) <= Rank(w.net.conns[c].st)
    ensures w.net.conns[c].st.End? ==> w'.net.conns[c].st.End?
    decreases |es|
  {
    if es != [] {
      RankStep(w, es[0], c);
      Forward(After(w, es[0]), es[1..], w', c);
    }
    hide Runs, After;
  }

  /** Every open connection can be closed for good: it leaves the pool, its wrapper, if it has one, is
      handed out for release, and it is gone. */
  lemma StopEnds(w: World, c: ConnId)
    requires Inv(w) && c in w.net.conns && Rank(w.net.conns[c].st) == 2
    ensures exists w' :: && Runs(w, [StopIt(c), Closed(c)], w') && c in w'.net.conns
                         && w'.net.conns[c].st.End? && !w'.net.conns[c].inPool && w'.net.conns[c].sock.None?
                         && (forall k :: w.net.conns[c].sock == Some(k) ==>
                               k in w'.net.socks && w'.net.socks[k].at.HandedOut? && w'.net.socks[k].handed == 1)
  {
    OpenConn(w, c);
    hide Inv;
    StopStep(w.net, c);
    var w1 := After(w, StopIt(c));
    var w2 := After(w1, Closed(c));
    hide StopConn;
    RunsTwo(w, StopIt(c), w1, Closed(c), w2);
  }

  lemma OpenConn(w: World, c: ConnId)
    requires Inv(w) && c in w.net.conns && Rank(w.net.conns[c].st) == 2
    ensures w.net.conns[c].inPool
    ensures forall k :: w.net.conns[c].sock == Some(k) ==> k in w.net.socks && w.net.socks[k].handed == 0
  {
    assert ConnOk(w.net, c);
    if w.net.conns[c].sock.Some? { assert SockOk(w.net, w.net.conns[c].sock.value); }
  }

  lemma StopStep(n: Net, c: ConnId)
    requires c in n.conns && Rank(n.conns[c].st) == 2
    ensures var r := StopConn(n, c);
            && c in r.conns && r.conns[c].st.Closing? && !r.conns[c].inPool && r.conns[c].sock.None?
            && forall k :: n.conns[c].sock == Some(k) && k in n.socks ==>
                 k in r.socks && r.socks[k].at.HandedOut? && r.socks[k].handed == n.socks[k].handed + 1
  {
  }

  // ---------------------------------------------------------------- what a sender gets

  /** A sender that has seen a socket either gets it, with one more user, or asks for a retry: the first
      exactly if the connection is still up when it reads the state. */
  lemma SendsOrAsks(w: World, c: ConnId)
    requires Inv(w) && Can(w, See(c))
    ensures var v := After(w, See(c)); var k := w.net.conns[c].sock;
            && c in v.net.conns && v.net.conns[c].looking == w.net.conns[c].looking - 1
            && (w.net.conns[c].st.Connected? <==> v.net.conns[c].wanting == w.net.conns[c].wanting)
            && (!w.net.conns[c].st.Connected? <==> v.net.conns[c].wanting == w.net.conns[c].wanting + 1)
            && GetSock(v.net, c).1 == k
            && (k.Some? <==> w.net.conns[c].st.Connected?)
            && (k.Some? ==> && k.value in v.net.socks
                            && GetSock(v.net, c).0.socks[k.value].refs == v.net.socks[k.value].refs + 1)
  {
    assert ConnOk(w.net, c);
  }
}
