/** When everything in the connection server that leads to a connection leads to an open one: its queues,
    the index by user and the timer. Every handler keeps that, but for a closing that leaves an index entry
    behind. */
module ConnTidy {
  import opened Protocol
  import opened Sequences
  import opened TimerSpec
  import opened PacketPool
  import opened ConnRegistry
  import opened ConnHandlers
  import opened ConnSafety
  import opened ConnLosses

  ghost predicate HeadLive(r: Registry, h: Head) {
    (h.Recv? || h.Send?) && h.who.Client? ==> Live(r, h.who.id)
  }

  /** No queue of a closed connection holds anything. */
  ghost predicate QueuesLive(s: State) {
    forall h: Head, b: Block :: On(s.pool, h, b) ==> HeadLive(s.reg, h)
  }

  ghost predicate Tidy(s: State) {
    QueuesLive(s) && TidyReg(s.reg)
  }

  ghost predicate SameLive(r: Registry, q: Registry) {
    forall c :: Live(q, c) <==> Live(r, c)
  }

  /** Only open connections' queues gain blocks, and no connection is opened or closed. */
  lemma QueuesStayLive(s: State, r: State)
    requires QueuesLive(s) && SameLive(s.reg, r.reg)
    requires forall h: Head, b: Block :: On(r.pool, h, b) ==> On(s.pool, h, b) || HeadLive(r.reg, h)
    ensures QueuesLive(r)
  {
    hide Live, On;
    forall h: Head, b: Block | On(r.pool, h, b) ensures HeadLive(r.reg, h) {
      assert On(s.pool, h, b) ==> HeadLive(s.reg, h);
    }
  }

  lemma PoolTidy(s: State, r: State)
    requires Tidy(s) && r.reg == s.reg
    requires forall h: Head, b: Block :: On(r.pool, h, b) ==> On(s.pool, h, b) || HeadLive(r.reg, h)
    ensures Tidy(r)
  {
    hide Live, On, TidyReg;
    QueuesStayLive(s, r);
  }

  // ---------------------------------------------------------------- single steps

  lemma PopTidy(s: State, h: Head)
    requires Tidy(s) && List(s.pool, h) != []
    ensures Tidy(PopFrom(s, h))
  {
    hide Tidy, Live;
    PoolTidy(s, PopFrom(s, h));
  }

  lemma FreeTidy(s: State, b: Block)
    requires Tidy(s) && b in s.pool.mem
    ensures Tidy(AllocatorFree(s, b))
  {
    hide Tidy, Live;
    PoolTidy(s, AllocatorFree(s, b));
  }

  lemma PushTidy(s: State, h: Head, b: Block)
    requires Tidy(s) && HeadLive(s.reg, h)
    ensures Tidy(s.(pool := Push(s.pool, h, b)))
  {
    hide Tidy, Live;
    PoolTidy(s, s.(pool := Push(s.pool, h, b)));
  }

  lemma ForwardTidy(s: State, c: ConnId, side: Side, b: Block)
    requires Tidy(s) && b in s.pool.mem
    ensures Tidy(Forward(s, c, side, b))
  {
    hide Tidy, Live;
    PoolTidy(s, Forward(s, c, side, b));
  }

  lemma SendOfflineTidy(s: State, uin: nat)
    requires Tidy(s) && Owned(s.pool)
    ensures Tidy(SendOffline(s, uin)) && SendOffline(s, uin).reg == s.reg
  {
    EnqueueOwned(s.pool, Send(Backend(Status)), OfflinePacket(uin));
    hide Tidy, Live, Enqueue, On, Owned, Loose;
    PoolTidy(s, SendOffline(s, uin));
  }

  /** Closing an open connection. */
  lemma CloseTidy(s: State, c: ConnId)
    requires Tidy(s) && Owned(s.pool) && Placed(s.reg) && Live(s.reg, c)
    ensures Tidy(CloseConnection(s, c)) <==> !LeavesEntry(s.reg, c)
  {
    hide Live, LeavesEntry, ReleaseAll, Dropped, Placed, TidyReg;
    DropTidy(s.reg, c);
    ListsReleased(s.pool, c);
    var r := CloseConnection(s, c);
    hide Owned, Loose;
    forall h: Head, b: Block | On(r.pool, h, b) ensures HeadLive(r.reg, h) {
      assert h != Free ==> On(s.pool, h, b) && HeadLive(s.reg, h);
    }
  }

  // ---------------------------------------------------------------- packets

  lemma CmdLoginTidy(s: State, c: ConnId, b: Block)
    requires Tidy(s) && b in s.pool.mem && Live(s.reg, c)
    ensures Tidy(CmdLogin(s, c, b))
  {
    var uin := s.pool.mem[b].uin;
    LoginTidy(s.reg, c, uin);
    var r := Logged(s.(reg := LoggedIn(s.reg, c, uin)), LoginAsked(c, uin));
    hide TidyReg, Live;
    QueuesStayLive(s, r);
    ForwardTidy(r, c, User, b);
  }

  lemma CmdLogoutTidy(s: State, c: ConnId, b: Block)
    requires Tidy(s) && Safe(s) && Loose(s.pool, b) && Live(s.reg, c)
    ensures Tidy(CmdLogout(s, c, b)) <==> !LeavesEntry(s.reg, c)
  {
    FreeTidy(s, b);
    FreeSafe(s, b);
    var freed := AllocatorFree(s, b);
    var uin := freed.pool.mem[b].uin;
    SafeBasics(freed);
    SendOfflineTidy(freed, uin);
    SendOfflineSafe(freed, uin);
    SafeBasics(SendOffline(freed, uin));
    hide Tidy, Safe, Live, LeavesEntry, Loose, Owned, Placed;
    CloseTidy(SendOffline(freed, uin), c);
  }

  /** The client's packet closes its connection. */
  ghost predicate LogsOut(s: State, c: ConnId, b: Block)
    requires b in s.pool.mem && c in s.reg.conns
  {
    s.reg.conns[c].kind == LoginOk && s.pool.mem[b].command == CMD_LOGOUT
  }

  /** Whatever a client sends, everything goes on leading to open connections, unless the packet is a
      logout that leaves an index entry behind. */
  lemma CmdPacketTidy(s: State, c: ConnId, b: Block)
    requires Tidy(s) && Safe(s) && Loose(s.pool, b) && Live(s.reg, c)
    ensures Tidy(CmdPacket(s, c, b)) <==> !(LogsOut(s, c, b) && LeavesEntry(s.reg, c))
  {
    assert b in s.pool.mem && c in s.reg.conns;
    var command := s.pool.mem[b].command;
    hide Tidy, Safe, Loose, Live, CmdLogin, CmdLogout, Forward, AllocatorFree, LeavesEntry, List;
    if s.reg.conns[c].kind != LoginOk && command != CMD_LOGIN {
      FreeTidy(s, b);
    } else if command == CMD_KEEP_ALIVE {
      PushTidy(s, KeepAlive, b);
    } else if command == CMD_LOGIN {
      CmdLoginTidy(s, c, b);
    } else if command == CMD_LOGOUT {
      CmdLogoutTidy(s, c, b);
    } else if command == CMD_SET_NICK {
      ForwardTidy(s, c, User, b);
    } else if IsContactCommand(command) {
      ForwardTidy(s, c, Contact, b);
    } else if IsMessageCommand(command) {
      ForwardTidy(s, c, Message, b);
    }
  }

  lemma SrvVerdictTidy(s: State, b: Block, kind: LoginType)
    requires Tidy(s) && b in s.pool.mem && IndexKnown(s.reg)
    ensures Tidy(SrvVerdict(s, b, kind))
  {
    var uin := s.pool.mem[b].uin;
    FreeTidy(s, b);
    if FindUin(s.reg.byUin, uin).Found? {
      var c := FindUin(s.reg.byUin, uin).conn;
      MarkTidy(s.reg, c, kind);
      var r := Logged(s.(reg := Marked(s.reg, c, kind)), Verdict(c, uin, kind));
      hide TidyReg, Live;
      QueuesStayLive(s, r);
      FoundIsLive(s.reg, uin);
      PushTidy(r, Send(Client(c)), b);
    }
  }

  lemma {:induction false} FoundIsLive(r: Registry, uin: nat)
    requires TidyReg(r)
    ensures FindUin(r.byUin, uin).Found? ==> Live(r, FindUin(r.byUin, uin).conn)
  {
    hide Live;
  }

  lemma SrvOtherTidy(s: State, b: Block)
    requires Tidy(s) && b in s.pool.mem && IndexKnown(s.reg)
    ensures Tidy(SrvOther(s, b))
  {
    hide TidyReg, Live;
    var uin := s.pool.mem[b].uin;
    FreeTidy(s, b);
    FoundIsLive(s.reg, uin);
    if FindUin(s.reg.byUin, uin).Found? {
      PushTidy(s, Send(Client(FindUin(s.reg.byUin, uin).conn)), b);
    }
  }

  lemma SrvPacketTidy(s: State, b: Block)
    requires Tidy(s) && b in s.pool.mem && IndexKnown(s.reg)
    ensures Tidy(SrvPacket(s, b))
  {
    hide Tidy, SrvVerdict, SrvOther, IndexKnown;
    SrvVerdictTidy(s, b, LoginError);
    SrvVerdictTidy(s, b, LoginOk);
    SrvOtherTidy(s, b);
  }

  // ---------------------------------------------------------------- sockets

  lemma ErrorTidy(s: State, who: Ref)
    requires Tidy(s) && Safe(s) && Open(s, who)
    ensures who.Client? ==> who.id in s.reg.conns
    ensures Tidy(ErrorHandler(s, who)) <==> !(who.Client? && LeavesEntry(s.reg, who.id))
  {
    if who.Client? {
      SafeBasics(s);
      var conn := s.reg.conns[who.id];
      SendOfflineTidy(s, conn.uin);
      SendOfflineSafe(s, conn.uin);
      SafeBasics(SendOffline(s, conn.uin));
      hide Tidy, Safe, Live, LeavesEntry, Owned, Placed;
      CloseTidy(if conn.kind == LoginOk then SendOffline(s, conn.uin) else s, who.id);
    }
  }

  lemma ReceiveTidy(s: State, who: Ref, packets: seq<Packet>)
    requires Tidy(s) && Safe(s) && Open(s, who)
    ensures Tidy(Received(s, who, packets))
  {
    EnqueueAllOwned(s.pool, Recv(who), packets);
    hide Tidy, Owned, EnqueueAll, Live, On, Loose;
    PoolTidy(s, Received(s, who, packets));
  }

  lemma {:induction false} WriteTidy(s: State, who: Ref, results: seq<WriteResult>)
    requires Tidy(s) && Backed(s.pool)
    ensures Tidy(WriteAll(s, who, results))
    decreases |List(s.pool, Send(who))|
  {
    var list := List(s.pool, Send(who));
    if list != [] {
      FirstIsOn(s.pool, Send(who));
      PopTidy(s, Send(who));
      var popped := PopFrom(s, Send(who));
      hide Tidy;
      if results == [] || results[0] == Wrote {
        FreeTidy(popped, list[0]);
        WriteTidy(AllocatorFree(popped, list[0]), who, if results == [] then [] else results[1..]);
      }
    }
  }

  /** A new connection's structure has no packets left in its queues: none is lost, and the queues start
      empty. */
  lemma AcceptConnTidy(s: State, fd: int)
    requires Tidy(s) && Safe(s) && fd !in s.reg.byFd
    ensures Sized(s.reg.timer) && Tidy(AcceptConn(s, fd)) && !Loses(s, Connect(fd))
  {
    SafeBasics(s);
    AcceptTidy(s.reg, fd);
    AcceptLive(s.reg, fd);
    var c, r := NewConn(s.reg), AcceptConn(s, fd);
    FirstIsOn(s.pool, Recv(Client(c)));
    FirstIsOn(s.pool, Send(Client(c)));
    forall h: Head ensures List(r.pool, h) == List(s.pool, h) {
      FirstIsOn(s.pool, h);
    }
    hide Safe, Live, AcceptConn, TidyReg;
    forall h: Head, b: Block | On(r.pool, h, b) ensures HeadLive(r.reg, h) {
      assert On(s.pool, h, b) && HeadLive(s.reg, h);
    }
  }

  // ---------------------------------------------------------------- the expiry pass

  lemma FirstAliveIsLive(s: State)
    requires Tidy(s) && Backed(s.pool) && List(s.pool, KeepAlive) != []
    ensures FirstAlive(s).Found? ==> Live(s.reg, FirstAlive(s).conn)
  {
    hide Live;
    FirstIsOn(s.pool, KeepAlive);
    FoundIsLive(s.reg, s.pool.mem[List(s.pool, KeepAlive)[0]].uin);
  }

  lemma RefreshTidy(r: Registry, c: ConnId)
    requires Placed(r) && TidyReg(r) && Live(r, c)
    ensures TidyReg(Refreshed(r, c)) && SameLive(r, Refreshed(r, c))
  {
    RefreshPlaced(r, c);
    hide Live, Holds, Unlink, Add, Placed;
    SameIndexesTidy(r, Refreshed(r, c));
  }

  lemma KeepOneTidy(s: State)
    requires Tidy(s) && Safe(s) && Sized(s.reg.timer) && Backed(s.pool) && List(s.pool, KeepAlive) != []
    ensures Tidy(KeepOneAlive(s)) && SameLive(s.reg, KeepOneAlive(s).reg)
  {
    SafeBasics(s);
    KeepOneMoves(s);
    FirstAliveIsLive(s);
    AliveStep(s);
    var r := KeepOneAlive(s);
    if FirstAlive(s).Found? {
      RefreshTidy(s.reg, FirstAlive(s).conn);
    }
    hide Safe, TidyReg, Live, On, KeepOneAlive, AliveList, FirstAlive, Refreshed, Owned, Loose, Holds;
    QueuesStayLive(s, r);
  }

  lemma {:induction false} KeepAllTidy(s: State)
    requires Tidy(s) && Safe(s) && Sized(s.reg.timer) && Backed(s.pool)
    ensures Tidy(KeepAllAlive(s)) && AllLive(s.reg, AliveList(s)) && SameLive(s.reg, KeepAllAlive(s).reg)
    decreases |List(s.pool, KeepAlive)|
  {
    if List(s.pool, KeepAlive) != [] {
      var r, first := KeepOneAlive(s), FirstAlive(s);
      SafeBasics(s);
      KeepOneSafe(s);
      KeepOneTidy(s);
      KeepAllTidy(r);
      AliveStep(s);
      FirstAliveIsLive(s);
      assert KeepAllAlive(s) == KeepAllAlive(r);
      var rest := AliveList(r);
      if first.Found? {
        LiveFirst(s.reg, r.reg, first.conn, rest);
      } else {
        assert [] + rest == rest;
        LiveSame(s.reg, r.reg, rest);
      }
      LiveTrans(s.reg, r.reg, KeepAllAlive(r).reg);
      hide *;
    }
  }

  lemma LiveTrans(r: Registry, q: Registry, e: Registry)
    requires SameLive(r, q) && SameLive(q, e)
    ensures SameLive(r, e)
  {
    hide Live;
  }

  lemma LiveSame(reg: Registry, q: Registry, cs: seq<ConnId>)
    requires AllLive(q, cs) && SameLive(reg, q)
    ensures AllLive(reg, cs)
  {
    hide Live;
  }

  lemma LiveFirst(reg: Registry, q: Registry, c: ConnId, rest: seq<ConnId>)
    requires Live(reg, c) && AllLive(q, rest) && SameLive(reg, q)
    ensures AllLive(reg, [c] + rest)
  {
    hide Live;
  }

  lemma TickTidy(s: State, interval: nat)
    requires Tidy(s) && Safe(s)
    ensures var t := s.(reg := Ticked(s.reg, interval)); Tidy(t) && SameLive(s.reg, t.reg)
  {
    var t := s.(reg := Ticked(s.reg, interval));
    TickPlaced(s.reg, interval);
    hide Owned, Placed, Live, On, Holds;
    SameIndexesTidy(s.reg, t.reg);
    QueuesStayLive(s, t);
  }

  lemma HeldAreLive(r: Registry, cs: seq<ConnId>)
    requires TidyReg(r) && AllHeld(r, cs)
    ensures AllLive(r, cs)
  {
    hide Holds, Live;
  }

  /** The state in which the expired connections are collected; they are open. */
  lemma BeforeClosingTidy(s: State, interval: nat)
    requires Tidy(s) && Safe(s) && Timed(s.reg) && 1 <= interval <= CLIENT_TIMEOUT
    ensures Sized(s.reg.timer) && Backed(s.pool) && AllLive(s.reg, AliveList(s))
    ensures var r := BeforeClosing(s, interval);
            Tidy(r) && AllLive(r.reg, TimeoutList(r.reg.timer))
  {
    SafeBasics(s);
    BeforeClosingSafe(s, interval);
    TickPlaced(s.reg, interval);
    TickTidy(s, interval);
    var ticked := s.(reg := Ticked(s.reg, interval));
    TimerSafe(s, ticked.reg);
    assert AliveList(ticked) == AliveList(s);
    KeepAllTidy(ticked);
    var r := BeforeClosing(s, interval);
    hide Safe, Timed, Live, KeepAllAlive, TimeoutList, AliveList, TidyReg, AllHeld, Placed;
    LiveSame(s.reg, ticked.reg, AliveList(s));
    HeldAreLive(r.reg, TimeoutList(r.reg.timer));
  }

  lemma CloseOneTidy(s: State, c: ConnId)
    requires Tidy(s) && Safe(s) && Live(s.reg, c)
    ensures c in s.reg.conns && (Tidy(CloseOne(s, c)) <==> !LeavesEntry(s.reg, c))
    ensures forall x :: Live(CloseOne(s, c).reg, x) <==> Live(s.reg, x) && x != c
  {
    var uin := s.reg.conns[c].uin;
    SafeBasics(s);
    SendOfflineTidy(s, uin);
    SendOfflineSafe(s, uin);
    SafeBasics(SendOffline(s, uin));
    DropLive(s.reg, c);
    hide Tidy, Safe, Live, LeavesEntry, Owned, Placed, Dropped;
    CloseTidy(SendOffline(s, uin), c);
  }

  /** The closing of one of the connections, in their turn, leaves an index entry behind. */
  ghost predicate ClosingsLeave(r: Registry, cs: seq<ConnId>)
    requires AllInConns(r, cs)
    decreases |cs|
  {
    cs != [] && (LeavesEntry(r, cs[0]) || ClosingsLeave(Dropped(r, cs[0]), cs[1..]))
  }

  /** The ages are history. */
  lemma AgesTidy(s: State, ages: map<ConnId, nat>)
    ensures var r := s.(reg := s.reg.(ages := ages)); Tidy(r) <==> Tidy(s)
  {
    var r := s.(reg := s.reg.(ages := ages));
    assert forall c :: Live(r.reg, c) <==> Live(s.reg, c);
    hide Live, Holds;
  }

  lemma ReorderTidy(s: State, entries: seq<UinEntry>)
    requires Tidy(s) && Safe(s) && multiset(entries) == multiset(s.reg.byUin)
    ensures Tidy(s.(reg := Reordered(s.reg, entries)))
  {
    var r := s.(reg := Reordered(s.reg, entries));
    SameEntries(s.reg.byUin, entries);
    hide Live, On, Holds;
    SameIndexesTidy(s.reg, r.reg);
    QueuesStayLive(s, r);
  }

  // ---------------------------------------------------------------- what that means

  /** Nothing leads to a connection that is not open: no index, no timer slot, no queue. */
  lemma TidyIsApart(s: State, c: ConnId)
    requires Safe(s) && Tidy(s) && !Live(s.reg, c)
    ensures c !in s.reg.byFd.Values && !Reaches(s.reg.byUin, c) && !Holds(s.reg.timer, c)
    ensures List(s.pool, Recv(Client(c))) == [] && List(s.pool, Send(Client(c))) == []
  {
    hide Holds;
    assert FdInv(s.reg);
    forall fd | fd in s.reg.byFd ensures s.reg.byFd[fd] != c {
    }
    forall i | 0 <= i < |s.reg.byUin| ensures s.reg.byUin[i].conn != c {
      assert s.reg.byUin[i] in s.reg.byUin;
    }
    FirstIsOn(s.pool, Recv(Client(c)));
    FirstIsOn(s.pool, Send(Client(c)));
  }

  /** What is in the timer is then exactly what is open. */
  lemma HeldExactlyIfLive(r: Registry, c: ConnId)
    requires Placed(r) && TidyReg(r)
    ensures Holds(r.timer, c) <==> Live(r, c)
  {
    hide Holds, Inv;
  }
}
