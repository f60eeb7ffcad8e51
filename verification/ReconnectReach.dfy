/** Runs from the start of the connection manager into the two states from which a connection or a
    socket does not come back. */
module ReconnectReach {
  import opened Wrappers
  import opened Seqs
  import opened ConnFsm
  import opened Net
  import opened RetryTask
  import opened Reconnect
  import opened ReconnectLoss

  lemma {:induction false} RunsAppend(w: World, es: seq<Step>, v: World, fs: seq<Step>, u: World)
    requires Runs(w, es, v) && Runs(v, fs, u)
    ensures Runs(w, es + fs, u)
    decreases |es|
  {
    hide Can, After;
    if es == [] {
      assert es + fs == fs;
    } else {
      RunsAppend(After(w, es[0]), es[1..], v, fs, u);
      assert (es + fs)[1..] == es[1..] + fs;
    }
  }

  /** A world with one connection. */
  function Single(conn: Conn, socks: map<SockId, Sock>, tasks: map<TaskId, Task>, queue: seq<TaskId>): World {
    START.(net := EMPTY.(conns := map[0 := conn], socks := socks), tasks := tasks, queue := queue, cnt := |queue|)
  }

  function DialledSocks(): map<SockId, Sock> { map[0 := NewSock(Some(0), Dialed)] }

  function InstalledSocks(): map<SockId, Sock> { map[0 := NewSock(None, Installed(0))] }

  lemma CreateSteps(a: Addr)
    ensures var w1 := Single(Conn(a, Init, None, true, 0, Made, 0), map[], map[], []);
            Can(START, NewConn(0, a)) && After(START, NewConn(0, a)) == w1
    ensures var w1, w2 := Single(Conn(a, Init, None, true, 0, Made, 0), map[], map[], []),
                          Single(Conn(a, Connecting, None, true, 0, Started, 0), map[], map[], []);
            Can(w1, StartConn(0)) && After(w1, StartConn(0)) == w2
  {
    var w1 := Single(Conn(a, Init, None, true, 0, Made, 0), map[], map[], []);
    assert START.net.conns[0 := w1.net.conns[0]] == w1.net.conns;
    var c1, c2 := Conn(a, Init, None, true, 0, Started, 0), Conn(a, Connecting, None, true, 0, Started, 0);
    assert w1.net.conns[0 := c1][0 := c2] == map[0 := c2];
  }

  lemma DialStep(a: Addr)
    ensures var w2, w3 := Single(Conn(a, Connecting, None, true, 0, Started, 0), map[], map[], []),
                          Single(Conn(a, Connecting, None, true, 0, Dialled, 0), DialledSocks(), map[], []);
            Can(w2, DialOut(0, 0)) && After(w2, DialOut(0, 0)) == w3
  {
    var c2, c3 := Conn(a, Connecting, None, true, 0, Started, 0), Conn(a, Connecting, None, true, 0, Dialled, 0);
    assert map[0 := c2][0 := c3] == map[0 := c3];
    assert (map[])[0 := NewSock(Some(0), Dialed)] == map[0 := NewSock(Some(0), Dialed)];
  }

  /** Created and dialled: the connecting thread holds a wrapper. */
  lemma Dialling(a: Addr)
    ensures Runs(START, [NewConn(0, a), StartConn(0), DialOut(0, 0)],
                 Single(Conn(a, Connecting, None, true, 0, Dialled, 0), DialledSocks(), map[], []))
  {
    hide Can, After;
    CreateSteps(a);
    DialStep(a);
    RunsThree(START, NewConn(0, a), Single(Conn(a, Init, None, true, 0, Made, 0), map[], map[], []),
              StartConn(0), Single(Conn(a, Connecting, None, true, 0, Started, 0), map[], map[], []),
              DialOut(0, 0), Single(Conn(a, Connecting, None, true, 0, Dialled, 0), DialledSocks(), map[], []));
  }

  lemma RunsTwo(w: World, e1: Step, w1: World, e2: Step, w2: World)
    requires Can(w, e1) && w1 == After(w, e1) && Can(w1, e2) && w2 == After(w1, e2)
    ensures Runs(w, [e1, e2], w2)
  {
    hide Can, After;
    assert [e1, e2][1..] == [e2] && [e2][1..] == [];
    assert Runs(w1, [e2], w2);
  }

  /** The wrapper of a connection that is closed while it connects. */
  lemma LostSocketReached(a: Addr)
    ensures exists es, w :: Runs(START, es, w) && 0 in w.net.socks && w.net.socks[0].at.Lost?
              && w.net.socks[0].frees == 0
  {
    var c, s := Conn(a, Connecting, None, true, 0, Dialled, 0), NewSock(Some(0), Dialed);
    var w3 := Single(c, map[0 := s], map[], []);
    var w4 := Single(c.(st := Closing, inPool := false), map[0 := s], map[], []);
    var w5 := Single(c.(st := Closing, inPool := false), map[0 := s.(dialer := None, at := Lost)], map[], []);
    assert map[0 := c][0 := c.(st := Closing)][0 := c.(st := Closing, inPool := false)] ==
        map[0 := c.(st := Closing, inPool := false)];
    assert Can(w3, StopIt(0)) && After(w3, StopIt(0)) == w4;
    assert map[0 := s][0 := s.(dialer := None, at := Lost)] == map[0 := s.(dialer := None, at := Lost)];
    assert Can(w4, DialOk(0)) && After(w4, DialOk(0)) == w5;
    hide Can, After, Runs;
    Dialling(a);
    RunsTwo(w3, StopIt(0), w4, DialOk(0), w5);
    RunsAppend(START, [NewConn(0, a), StartConn(0), DialOut(0, 0)], w3, [StopIt(0), DialOk(0)], w5);
  }

  /** The first wrapper, installed and handed out. */
  function Released1(): Sock { NewSock(None, HandedOut).(handed := 1, handOuts := 1) }

  lemma BreakSteps(a: Addr)
    ensures var w3 := Single(Conn(a, Connecting, None, true, 0, Dialled, 0), DialledSocks(), map[], []);
            var w4 := Single(Conn(a, Connected, Some(0), true, 0, Dialled, 0), InstalledSocks(), map[], []);
            var w5 := Single(Conn(a, ConnectRetry, None, true, 1, Dialled, 0), map[0 := Released1()], map[], []);
            && Can(w3, DialOk(0)) && After(w3, DialOk(0)) == w4
            && Can(w4, BreakConn(0, ConnectBroken)) && After(w4, BreakConn(0, ConnectBroken)) == w5
  {
    var c3, c4, c5 := Conn(a, Connecting, None, true, 0, Dialled, 0), Conn(a, Connected, Some(0), true, 0, Dialled, 0),
                      Conn(a, ConnectRetry, None, true, 1, Dialled, 0);
    assert map[0 := c3][0 := c4] == map[0 := c4];
    assert map[0 := c4][0 := c5.(wanting := 0)][0 := c5] == map[0 := c5];
    assert map[0 := NewSock(Some(0), Dialed)][0 := NewSock(None, Installed(0))] ==
        map[0 := NewSock(None, Installed(0))];
    assert map[0 := NewSock(None, Installed(0))][0 := Released1()] == map[0 := Released1()];
  }

  function Socks2(): map<SockId, Sock> { map[0 := Released1(), 1 := NewSock(None, OfTask(0))] }

  lemma TaskSteps(a: Addr)
    ensures var c5, c6 := Conn(a, ConnectRetry, None, true, 1, Dialled, 0),
              Conn(a, ConnectRetry, None, true, 0, Dialled, 0);
            var w5, w6 := Single(c5, map[0 := Released1()], map[], []),
                Single(c6, Socks2(), map[0 := NewTask(a, 1)], [0]);
            var w7 := Single(c6, Socks2(), map[0 := FireTask(NewTask(a, 1), true)], [0]);
            && Can(w5, AddTask(0, 0, 1)) && After(w5, AddTask(0, 0, 1)) == w6
            && Can(w6, Fire(0)) && After(w6, Fire(0)) == w7
  {
    var c5, c6 := Conn(a, ConnectRetry, None, true, 1, Dialled, 0), Conn(a, ConnectRetry, None, true, 0, Dialled, 0);
    assert map[0 := c5][0 := c6] == map[0 := c6];
    assert map[0 := Released1()][1 := NewSock(None, OfTask(0))] == Socks2();
    assert (map[])[0 := NewTask(a, 1)] == map[0 := NewTask(a, 1)] && [] + [0] == [0];
    assert map[0 := NewTask(a, 1)][0 := FireTask(NewTask(a, 1), true)] == map[0 := FireTask(NewTask(a, 1), true)];
    assert !Retrying(Single(c5, map[0 := Released1()], map[], []), a);
  }

  lemma FoundSteps(a: Addr)
    ensures var c6, x := Conn(a, ConnectRetry, None, true, 0, Dialled, 0), FireTask(NewTask(a, 1), true);
            var w7, w8 := Single(c6, Socks2(), map[0 := x], [0]),
                Single(c6, Socks2(), map[0 := x.(handler := Reached)], [0]);
            var w9 := Single(c6, Socks2(), map[0 := x.(handler := Found(0))], [0]);
            && Can(w7, Reach(0)) && After(w7, Reach(0)) == w8
            && Can(w8, LookUp(0, Some(0))) && After(w8, LookUp(0, Some(0))) == w9
            && NetQuiet(w9.net, 0)
  {
    var x := FireTask(NewTask(a, 1), true);
    assert map[0 := x][0 := x.(handler := Reached)] == map[0 := x.(handler := Reached)];
    assert map[0 := x.(handler := Reached)][0 := x.(handler := Found(0))] == map[0 := x.(handler := Found(0))];
  }

  /** From the start, for every address: the first connection breaks, its retry task connects, and the
      second breaks before the task leaves the queue. The connection is abandoned. */
  lemma AbandonedReached(a: Addr)
    ensures exists es, w :: Runs(START, es, w) && Inv(w) && Abandoned(w, 0)
  {
    hide Can, After, Runs, Inv, NetQuiet, Abandoned;
    var c5, c6 := Conn(a, ConnectRetry, None, true, 1, Dialled, 0), Conn(a, ConnectRetry, None, true, 0, Dialled, 0);
    var x := FireTask(NewTask(a, 1), true);
    var w3 := Single(Conn(a, Connecting, None, true, 0, Dialled, 0), DialledSocks(), map[], []);
    var w4 := Single(Conn(a, Connected, Some(0), true, 0, Dialled, 0), InstalledSocks(), map[], []);
    var w5, w6 := Single(c5, map[0 := Released1()], map[], []), Single(c6, Socks2(), map[0 := NewTask(a, 1)], [0]);
    var w7, w8 := Single(c6, Socks2(), map[0 := x], [0]), Single(c6, Socks2(), map[0 := x.(handler := Reached)], [0]);
    var w9 := Single(c6, Socks2(), map[0 := x.(handler := Found(0))], [0]);
    Dialling(a);
    BreakSteps(a);
    TaskSteps(a);
    FoundSteps(a);
    RunsTwo(w3, DialOk(0), w4, BreakConn(0, ConnectBroken), w5);
    RunsTwo(w5, AddTask(0, 0, 1), w6, Fire(0), w7);
    RunsTwo(w7, Reach(0), w8, LookUp(0, Some(0)), w9);
    var e3 := [NewConn(0, a), StartConn(0), DialOut(0, 0)];
    var e5, e7, e9 := [DialOk(0), BreakConn(0, ConnectBroken)], [AddTask(0, 0, 1), Fire(0)],
        [Reach(0), LookUp(0, Some(0))];
    RunsAppend(START, e3, w3, e5, w5);
    RunsAppend(START, e3 + e5, w5, e7, w7);
    RunsAppend(START, e3 + e5 + e7, w7, e9, w9);
    StartInv();
    RunInv(START, e3 + e5 + e7 + e9, w9);
    BrokenBeforeUnlink(w9, 0, 0, 1, 2);
    var last := [Deliver(0), BreakConn(0, ConnectBroken), AddTask(0, 1, 2)];
    var w :| Runs(w9, last, w) && Abandoned(w, 0);
    RunsAppend(START, e3 + e5 + e7 + e9, w9, last, w);
    RunInv(START, e3 + e5 + e7 + e9 + last, w);
  }

  // ---------------------------------------------------------------- back again

  lemma BackAdd(w: World, c: ConnId, t: TaskId, k: SockId)
    requires CanTask(w, AddTask(c, t, k)) && w.running && !Retrying(w, w.net.conns[c].addr)
    ensures var a, r := w.net.conns[c].addr, Added(w, c, t, k);
            && t in r.tasks && r.tasks[t] == NewTask(a, k) && r.running && r.up == w.up
            && r.net.conns == Asked(w.net, c).conns && k in r.net.socks
  {
    hide Retrying;
  }

  lemma BackTask(w: World, c: ConnId, t: TaskId, x: Task)
    requires t in w.tasks && x == NewTask(x.addr, x.sock) && w.tasks[t] == x && w.running && w.up
    requires Pooled(w.net, c, x.addr)
    requires x.sock in w.net.socks && w.net.conns[c].st.ConnectRetry?
    ensures var y := FireTask(x, true); var w2, w3 := WithTask(w, t, y), WithTask(w, t, y.(handler := Reached));
            var w4 := WithTask(w, t, y.(handler := Found(c)));
            && Can(w, Fire(t)) && After(w, Fire(t)) == w2 && Can(w2, Reach(t)) && After(w2, Reach(t)) == w3
            && Can(w3, LookUp(t, Some(c))) && After(w3, LookUp(t, Some(c))) == w4 && Can(w4, Deliver(t))
  {
    var y := FireTask(x, true);
    BackFire(w, t, x);
    BackReach(w, t, y);
    BackFound(w, c, t, y);
    hide Can, After;
  }

  lemma BackFire(w: World, t: TaskId, x: Task)
    requires t in w.tasks && w.tasks[t] == x && x.scheduled && x.handler.Resting? && w.running
    ensures Can(w, Fire(t)) && After(w, Fire(t)) == WithTask(w, t, FireTask(x, true))
  {
    hide FireTask;
  }

  lemma BackReach(w: World, t: TaskId, y: Task)
    requires t in w.tasks && y.handler.Trying?
    ensures var v := WithTask(w, t, y); Can(v, Reach(t)) && After(v, Reach(t)) == WithTask(w, t, y.(handler := Reached))
  {
    assert w.tasks[t := y][t := y.(handler := Reached)] == w.tasks[t := y.(handler := Reached)];
  }

  lemma BackFound(w: World, c: ConnId, t: TaskId, y: Task)
    requires t in w.tasks && w.up && Pooled(w.net, c, y.addr) && y.sock in w.net.socks
    ensures var v, u := WithTask(w, t, y.(handler := Reached)), WithTask(w, t, y.(handler := Found(c)));
            Can(v, LookUp(t, Some(c))) && After(v, LookUp(t, Some(c))) == u && Can(u, Deliver(t))
  {
    assert w.tasks[t := y.(handler := Reached)][t := y.(handler := Found(c))] == w.tasks[t := y.(handler := Found(c))];
  }

  lemma BackDeliver(w: World, c: ConnId, t: TaskId)
    requires CanTask(w, Deliver(t)) && w.tasks[t].handler == Found(c) && w.net.conns[c].st.ConnectRetry?
    ensures Can(w, Deliver(t)) && c in After(w, Deliver(t)).net.conns && After(w, Deliver(t)).net.conns[c].st.Connected?
  {
  }

  /** The worlds of a task that is added, fires, connects and finds `c`. */
  lemma BackSteps(w: World, c: ConnId, t: TaskId, k: SockId)
    requires c in w.net.conns && w.net.conns[c].wanting > 0 && w.running && w.up && t !in w.tasks && k !in w.net.socks
    requires !Retrying(w, w.net.conns[c].addr) && w.net.conns[c].st.ConnectRetry?
    requires Pooled(w.net, c, w.net.conns[c].addr)
    ensures var x := FireTask(NewTask(w.net.conns[c].addr, k), true); var w1 := Added(w, c, t, k);
            var w2, w3 := WithTask(w1, t, x), WithTask(w1, t, x.(handler := Reached));
            var w4 := WithTask(w1, t, x.(handler := Found(c)));
            && Can(w, AddTask(c, t, k)) && After(w, AddTask(c, t, k)) == w1
            && Can(w1, Fire(t)) && After(w1, Fire(t)) == w2 && Can(w2, Reach(t)) && After(w2, Reach(t)) == w3
            && Can(w3, LookUp(t, Some(c))) && After(w3, LookUp(t, Some(c))) == w4
            && Can(w4, Deliver(t)) && c in After(w4, Deliver(t)).net.conns
            && After(w4, Deliver(t)).net.conns[c].st.Connected?
  {
    BackAdd(w, c, t, k);
    var w1 := Added(w, c, t, k);
    hide Added, Retrying;
    BackTask(w1, c, t, NewTask(w.net.conns[c].addr, k));
    BackDeliver(WithTask(w1, t, FireTask(w1.tasks[t], true).(handler := Found(c))), c, t);
    hide FireTask, Delivered;
  }

  function BACK(c: ConnId, t: TaskId, k: SockId): seq<Step> {
    [AddTask(c, t, k), Fire(t), Reach(t)] + [LookUp(t, Some(c)), Deliver(t)]
  }

  /** Whoever asks while both managers run and the address has no task can bring the connection back. */
  lemma AskerBringsBack(w: World, c: ConnId, t: TaskId, k: SockId) returns (w': World)
    requires Inv(w) && c in w.net.conns && w.net.conns[c].st.ConnectRetry? && w.net.conns[c].wanting > 0
    requires w.running && w.up && !Retrying(w, w.net.conns[c].addr) && t !in w.tasks && k !in w.net.socks
    ensures Runs(w, BACK(c, t, k), w') && c in w'.net.conns && w'.net.conns[c].st.Connected?
  {
    RetryIsPooled(w, c);
    BackSteps(w, c, t, k);
    hide Inv, Can, After, Runs;
    var x, w1 := FireTask(NewTask(w.net.conns[c].addr, k), true), Added(w, c, t, k);
    var w2, w3 := WithTask(w1, t, x), WithTask(w1, t, x.(handler := Reached));
    var w4 := WithTask(w1, t, x.(handler := Found(c)));
    w' := After(w4, Deliver(t));
    RunsThree(w, AddTask(c, t, k), w1, Fire(t), w2, Reach(t), w3);
    RunsTwo(w3, LookUp(t, Some(c)), w4, Deliver(t), w');
    RunsAppend(w, [AddTask(c, t, k), Fire(t), Reach(t)], w3, [LookUp(t, Some(c)), Deliver(t)], w');
  }

  /** So one report, or one sender that saw a socket before the connection broke, is enough. */
  lemma ReportBringsBack(w: World, e: Step, c: ConnId, t: TaskId, k: SockId)
    requires Inv(w) && c in w.net.conns && w.net.conns[c].st.ConnectRetry? && (e == Report(c) || e == See(c))
    requires Can(w, e)
    requires w.running && w.up && !Retrying(w, w.net.conns[c].addr) && t !in w.tasks && k !in w.net.socks
    ensures exists w' :: Runs(w, [e] + BACK(c, t, k), w') && c in w'.net.conns && w'.net.conns[c].st.Connected?
  {
    var v := After(w, e);
    assert v.net.conns[c].wanting > 0 && v.net.conns[c].st.ConnectRetry? && v.net.socks == w.net.socks;
    assert v.net.conns[c].addr == w.net.conns[c].addr && !Retrying(v, v.net.conns[c].addr);
    StepInv(w, e);
    var w' := AskerBringsBack(v, c, t, k);
    hide Inv, Can, After, BACK;
    assert ([e] + BACK(c, t, k))[1..] == BACK(c, t, k);
    assert Runs(w, [e] + BACK(c, t, k), w');
  }

  // ---------------------------------------------------------------- a failed first dial

  lemma FailSteps(a: Addr)
    ensures var c := Conn(a, Connecting, None, true, 0, Dialled, 0);
            var freed := map[0 := NewSock(None, Freed(false)).(frees := 1)];
            var w3, w4 := Single(c, DialledSocks(), map[], []), Single(c, freed, map[], []);
            var w5 := Single(c.(st := ConnectRetry, wanting := 1), freed, map[], []);
            && Can(w3, DialFailed(0)) && After(w3, DialFailed(0)) == w4
            && Can(w4, BreakConn(0, ConnectFail)) && After(w4, BreakConn(0, ConnectFail)) == w5
  {
    var c := Conn(a, Connecting, None, true, 0, Dialled, 0);
    var r := c.(st := ConnectRetry);
    var k := NewSock(None, Freed(false)).(frees := 1);
    assert DialledSocks()[0 := k] == map[0 := k];
    assert map[0 := c][0 := r][0 := r.(wanting := 1)] == map[0 := r.(wanting := 1)];
  }

  /** From the start, for every address: the first dial fails and the connection asks for a retry. */
  lemma FailedDial(a: Addr) returns (w: World)
    ensures Runs(START, [NewConn(0, a), StartConn(0), DialOut(0, 0)] + [DialFailed(0), BreakConn(0, ConnectFail)], w)
    ensures w.net.conns.Keys == {0} && w.net.conns[0].addr == a && w.net.socks.Keys == {0} && w.tasks == map[]
    ensures w.net.conns[0].st.ConnectRetry? && w.net.conns[0].wanting == 1 && w.running && w.up
  {
    hide Can, After, Runs;
    var c := Conn(a, Connecting, None, true, 0, Dialled, 0);
    var freed := map[0 := NewSock(None, Freed(false)).(frees := 1)];
    var w3, w4 := Single(c, DialledSocks(), map[], []), Single(c, freed, map[], []);
    w := Single(c.(st := ConnectRetry, wanting := 1), freed, map[], []);
    Dialling(a);
    FailSteps(a);
    RunsTwo(w3, DialFailed(0), w4, BreakConn(0, ConnectFail), w);
    var e3 := [NewConn(0, a), StartConn(0), DialOut(0, 0)];
    RunsAppend(START, e3, w3, [DialFailed(0), BreakConn(0, ConnectFail)], w);
  }

  /** And from there the retry task connects it. */
  lemma FailedDialRetried(a: Addr)
    ensures exists es, w, fs, w' :: && Runs(START, es, w) && w.net.conns.Keys == {0} && w.net.conns[0].addr == a
                                    && w.net.conns[0].st.ConnectRetry? && w.net.conns[0].wanting == 1
                                    && Runs(w, fs, w') && 0 in w'.net.conns && w'.net.conns[0].st.Connected?
  {
    hide Can, After, Runs, Inv;
    var w := FailedDial(a);
    var es := [NewConn(0, a), StartConn(0), DialOut(0, 0)] + [DialFailed(0), BreakConn(0, ConnectFail)];
    StartInv();
    RunInv(START, es, w);
    var w' := AskerBringsBack(w, 0, 0, 1);
    assert Runs(START, es, w) && Runs(w, BACK(0, 0, 1), w');
  }
}
