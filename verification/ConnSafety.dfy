/** What every run of the connection server keeps, whatever clients and modules send: who owns a packet
    block, where a connection structure is, what the timer knows, and the login gate. */
module ConnSafety {
  import opened Protocol
  import opened Sequences
  import opened TimerSpec
  import opened PacketPool
  import opened ConnRegistry
  import opened ConnHandlers

  // ---------------------------------------------------------------- the invariant

  /** A connection's fields say as whom it has last asked to log in and, if it is open, what has been noted
      about that. */
  ghost predicate FieldInv(s: State) {
    && (forall c :: Live(s.reg, c) ==> s.reg.conns[c].kind == Noted(s.log, c))
    && (forall c :: c in s.reg.conns ==> s.reg.conns[c].uin == Asked(s.log, c))
  }

  ghost predicate Safe(s: State) {
    Owned(s.pool) && Placed(s.reg) && FieldInv(s) && Gated(s.log)
  }

  lemma SafeBasics(s: State)
    requires Safe(s)
    ensures Owned(s.pool) && Backed(s.pool) && IndexKnown(s.reg) && Sized(s.reg.timer) && Placed(s.reg)
    ensures forall c :: Live(s.reg, c) ==> c in s.reg.conns && Holds(s.reg.timer, c)
  {
    hide Holds;
  }

  // ---------------------------------------------------------------- single steps

  /** Only the packet blocks change. */
  lemma PoolSafe(s: State, pool: Pool)
    requires Safe(s) && Owned(pool)
    ensures Safe(s.(pool := pool))
  {
    hide Owned, Placed, Gated, Noted, Asked;
  }

  lemma PopSafe(s: State, h: Head)
    requires Safe(s) && List(s.pool, h) != []
    ensures Safe(PopFrom(s, h)) && Loose(PopFrom(s, h).pool, List(s.pool, h)[0])
  {
    PopOwned(s.pool, h);
    hide Safe, Owned, Loose;
    PoolSafe(s, Pop(s.pool, h));
  }

  lemma FreeSafe(s: State, b: Block)
    requires Safe(s) && Loose(s.pool, b)
    ensures Safe(AllocatorFree(s, b))
  {
    ReleaseOwned(s.pool, b);
    hide Safe, Owned;
    PoolSafe(s, Release(s.pool, b));
  }

  lemma PushSafe(s: State, h: Head, b: Block)
    requires Safe(s) && Loose(s.pool, b)
    ensures Safe(s.(pool := Push(s.pool, h, b)))
  {
    PushOwned(s.pool, h, b);
    hide Safe, Owned, Loose;
    PoolSafe(s, Push(s.pool, h, b));
  }

  /** The history grows by an event, and the registry changes with it. */
  lemma EventSafe(s: State, reg: Registry, e: Event)
    requires Safe(s) && Placed(reg)
    requires e.Forwarded? && e.command != CMD_LOGIN ==> Noted(s.log, e.conn) == LoginOk
    requires forall x :: Live(reg, x) ==> reg.conns[x].kind == NotedBy(e, x, Noted(s.log, x))
    requires forall x :: x in reg.conns ==> reg.conns[x].uin == AskedBy(e, x, Asked(s.log, x))
    ensures Safe(Logged(s.(reg := reg), e))
  {
    GatedAfter(s.log, e);
    hide Owned, Placed, Gated, Noted, Asked, Live, NotedBy, AskedBy, Standing;
    forall x ensures Live(reg, x) ==> reg.conns[x].kind == Noted(s.log + [e], x) {
      HistoryAfter(s.log, e, x);
    }
    forall x | x in reg.conns ensures reg.conns[x].uin == Asked(s.log + [e], x) {
      HistoryAfter(s.log, e, x);
    }
  }

  lemma LogSafe(s: State, e: Event)
    requires Safe(s) && (e.Forwarded? || e.AnnouncedOffline?)
    requires e.Forwarded? && e.command != CMD_LOGIN ==> Noted(s.log, e.conn) == LoginOk
    ensures Safe(Logged(s, e))
  {
    hide Owned, Placed, Gated, Noted, Asked, Live;
    assert s.(reg := s.reg) == s;
    EventSafe(s, s.reg, e);
  }

  lemma {:induction false} ForwardSafe(s: State, c: ConnId, side: Side, b: Block)
    requires Safe(s) && Loose(s.pool, b)
    requires s.pool.mem[b].command == CMD_LOGIN || Noted(s.log, c) == LoginOk
    ensures Safe(Forward(s, c, side, b))
  {
    hide Safe;
    PushSafe(s, Send(Backend(side)), b);
    LogSafe(s.(pool := Push(s.pool, Send(Backend(side)), b)), Forwarded(c, side, s.pool.mem[b].command));
  }

  lemma SendOfflineSafe(s: State, uin: nat)
    requires Safe(s)
    ensures Safe(SendOffline(s, uin)) && SendOffline(s, uin).reg == s.reg
  {
    var h := Send(Backend(Status));
    EnqueueOwned(s.pool, h, OfflinePacket(uin));
    hide Safe, Owned, Enqueue;
    PoolSafe(s, Enqueue(s.pool, h, OfflinePacket(uin)));
    LogSafe(s.(pool := Enqueue(s.pool, h, OfflinePacket(uin))), AnnouncedOffline(uin));
  }

  lemma AskSafe(s: State, c: ConnId, uin: nat)
    requires Safe(s) && c in s.reg.conns
    ensures Safe(Logged(s.(reg := LoggedIn(s.reg, c, uin)), LoginAsked(c, uin)))
  {
    LoginPlaced(s.reg, c, uin);
    hide Owned, Placed, Gated, Noted, Asked;
    EventSafe(s, LoggedIn(s.reg, c, uin), LoginAsked(c, uin));
  }

  lemma VerdictSafe(s: State, c: ConnId, uin: nat, kind: LoginType)
    requires Safe(s) && c in s.reg.conns && (kind == LoginOk || kind == LoginError)
    ensures Safe(Logged(s.(reg := Marked(s.reg, c, kind)), Verdict(c, uin, kind)))
  {
    MarkPlaced(s.reg, c, kind);
    hide Owned, Placed, Gated, Noted, Asked;
    EventSafe(s, Marked(s.reg, c, kind), Verdict(c, uin, kind));
  }

  /** Releasing both of a connection's lists. */
  lemma {:induction false} ListsReleased(p: Pool, c: ConnId)
    requires Owned(p)
    ensures var r := ReleaseAll(ReleaseAll(p, Recv(Client(c))), Send(Client(c)));
            && Owned(r)
            && (forall h: Head, b: Block :: On(r, h, b) <==>
                  if h == Free then On(p, Free, b) || On(p, Recv(Client(c)), b) || On(p, Send(Client(c)), b)
                  else h != Recv(Client(c)) && h != Send(Client(c)) && On(p, h, b))
            && List(r, Recv(Client(c))) == [] && List(r, Send(Client(c))) == []
            && (forall b: Block :: Loose(r, b) <==> Loose(p, b))
  {
    var q := ReleaseAll(p, Recv(Client(c)));
    ReleaseAllOwned(p, Recv(Client(c)));
    ReleaseAllOwned(q, Send(Client(c)));
    hide Owned, Loose;
  }

  /** Closing a connection: the index by socket and the timer no longer lead to it, its structure and all
      blocks of its queues are free, and everything else is as consistent as before. */
  lemma CloseSafe(s: State, c: ConnId)
    requires Safe(s) && Holds(s.reg.timer, c)
    ensures c in s.reg.conns
    ensures var r := CloseConnection(s, c);
            && Safe(r) && c in r.reg.free && !Holds(r.reg.timer, c) && c !in r.reg.byFd.Values
            && List(r.pool, Recv(Client(c))) == [] && List(r.pool, Send(Client(c))) == []
            && (forall b: Block :: On(r.pool, Free, b) <==>
                  On(s.pool, Free, b) || On(s.pool, Recv(Client(c)), b) || On(s.pool, Send(Client(c)), b))
  {
    DropPlaced(s.reg, c);
    DropLive(s.reg, c);
    ListsReleased(s.pool, c);
    var pool := ReleaseAll(ReleaseAll(s.pool, Recv(Client(c))), Send(Client(c)));
    assert Dropped(s.reg, c).conns == s.reg.conns;
    hide Owned, Placed, Gated, Noted, Asked, Live, Dropped, ReleaseAll, Holds;
    PoolSafe(s, pool);
    EventSafe(s.(pool := pool), Dropped(s.reg, c), ClosedConn(c));
  }

  // ---------------------------------------------------------------- packets

  lemma CmdLoginSafe(s: State, c: ConnId, b: Block)
    requires Safe(s) && Loose(s.pool, b) && c in s.reg.conns && s.pool.mem[b].command == CMD_LOGIN
    ensures Safe(CmdLogin(s, c, b))
  {
    hide Safe;
    var uin := s.pool.mem[b].uin;
    AskSafe(s, c, uin);
    ForwardSafe(Logged(s.(reg := LoggedIn(s.reg, c, uin)), LoginAsked(c, uin)), c, User, b);
  }

  lemma CmdLogoutSafe(s: State, c: ConnId, b: Block)
    requires Safe(s) && Loose(s.pool, b) && Holds(s.reg.timer, c)
    ensures c in s.reg.conns && Safe(CmdLogout(s, c, b)) && List(CmdLogout(s, c, b).pool, Recv(Client(c))) == []
  {
    FreeSafe(s, b);
    hide Safe, Holds;
    var freed := AllocatorFree(s, b);
    SendOfflineSafe(freed, freed.pool.mem[b].uin);
    CloseSafe(SendOffline(freed, freed.pool.mem[b].uin), c);
  }

  /** Whatever a client sends, everything stays safe; and only a logout closes the connection, of which no
      received packet is then left. */
  lemma CmdPacketSafe(s: State, c: ConnId, b: Block)
    requires Safe(s) && Loose(s.pool, b) && Live(s.reg, c)
    ensures Safe(CmdPacket(s, c, b))
    ensures var r := CmdPacket(s, c, b); Live(r.reg, c) || List(r.pool, Recv(Client(c))) == []
  {
    SafeBasics(s);
    assert s.reg.conns[c].kind == Noted(s.log, c);
    var command := s.pool.mem[b].command;
    hide Safe, Loose, CmdLogout, Noted, List;
    if s.reg.conns[c].kind != LoginOk && command != CMD_LOGIN {
      FreeSafe(s, b);
    } else if command == CMD_KEEP_ALIVE {
      PushSafe(s, KeepAlive, b);
    } else if command == CMD_LOGIN {
      CmdLoginSafe(s, c, b);
    } else if command == CMD_LOGOUT {
      CmdLogoutSafe(s, c, b);
    } else if command == CMD_SET_NICK {
      ForwardSafe(s, c, User, b);
    } else if IsContactCommand(command) {
      ForwardSafe(s, c, Contact, b);
    } else if IsMessageCommand(command) {
      ForwardSafe(s, c, Message, b);
    }
  }

  lemma SrvVerdictSafe(s: State, b: Block, kind: LoginType)
    requires Safe(s) && Loose(s.pool, b) && (kind == LoginOk || kind == LoginError) && IndexKnown(s.reg)
    ensures Safe(SrvVerdict(s, b, kind))
  {
    assert b in s.pool.mem;
    hide Safe, Loose;
    var uin := s.pool.mem[b].uin;
    match FindUin(s.reg.byUin, uin) {
      case Missing => FreeSafe(s, b);
      case Found(c) =>
        VerdictSafe(s, c, uin, kind);
        PushSafe(Logged(s.(reg := Marked(s.reg, c, kind)), Verdict(c, uin, kind)), Send(Client(c)), b);
    }
  }

  lemma SrvOtherSafe(s: State, b: Block)
    requires Safe(s) && Loose(s.pool, b) && IndexKnown(s.reg)
    ensures Safe(SrvOther(s, b))
  {
    assert b in s.pool.mem;
    hide Safe, Loose;
    FreeSafe(s, b);
    if FindUin(s.reg.byUin, s.pool.mem[b].uin).Found? {
      PushSafe(s, Send(Client(FindUin(s.reg.byUin, s.pool.mem[b].uin).conn)), b);
    }
  }

  lemma SrvPacketSafe(s: State, b: Block)
    requires Safe(s) && Loose(s.pool, b) && IndexKnown(s.reg)
    ensures Safe(SrvPacket(s, b))
  {
    hide Safe, SrvVerdict, SrvOther, On, IndexKnown;
    SrvVerdictSafe(s, b, LoginError);
    SrvVerdictSafe(s, b, LoginOk);
    SrvOtherSafe(s, b);
  }

  /** The connection is open, or none of its received packets is left. */
  ghost predicate Processable(s: State, who: Ref) {
    who.Client? ==> who.id in s.reg.conns && (Live(s.reg, who.id) || List(s.pool, Recv(who)) == [])
  }

  lemma FirstIsOn(p: Pool, h: Head)
    ensures List(p, h) != [] ==> On(p, h, List(p, h)[0])
  {
  }

  /** One received packet. */
  lemma PacketSafe(s: State, who: Ref)
    requires Safe(s) && Processable(s, who) && List(s.pool, Recv(who)) != []
    ensures Backed(s.pool) && IndexKnown(s.reg) && List(s.pool, Recv(who))[0] in s.pool.mem
    ensures var b, popped := List(s.pool, Recv(who))[0], PopFrom(s, Recv(who));
            && Safe(popped) && Loose(popped.pool, b) && Open(popped, who)
            && Safe(PacketOf(popped, who, b)) && Processable(PacketOf(popped, who, b), who)
  {
    var b, popped := List(s.pool, Recv(who))[0], PopFrom(s, Recv(who));
    SafeBasics(s);
    FirstIsOn(s.pool, Recv(who));
    PopSafe(s, Recv(who));
    hide Safe, Loose, CmdPacket, SrvPacket, List;
    if who.Backend? {
      SrvPacketSafe(popped, b);
    } else {
      CmdPacketSafe(popped, who.id, b);
    }
  }

  /** Processing goes on after a logout, and finds the list empty. */
  lemma {:induction false} ProcessSafe(s: State, who: Ref)
    requires Safe(s) && Processable(s, who)
    ensures Backed(s.pool) && IndexKnown(s.reg) && Safe(Process(s, who))
    decreases |List(s.pool, Recv(who))|
  {
    SafeBasics(s);
    if List(s.pool, Recv(who)) != [] {
      PacketSafe(s, who);
      hide Safe, Loose, PacketOf, Processable;
      ProcessSafe(PacketOf(PopFrom(s, Recv(who)), who, List(s.pool, Recv(who))[0]), who);
    }
  }

  // ---------------------------------------------------------------- sockets

  lemma ErrorSafe(s: State, who: Ref)
    requires Safe(s) && Open(s, who)
    ensures Safe(ErrorHandler(s, who))
  {
    if who.Client? {
      SafeBasics(s);
      hide Safe, Holds, Live;
      var conn := s.reg.conns[who.id];
      SendOfflineSafe(s, conn.uin);
      CloseSafe(if conn.kind == LoginOk then SendOffline(s, conn.uin) else s, who.id);
    }
  }

  lemma {:induction false} ReceiveSafe(s: State, who: Ref, packets: seq<Packet>)
    requires Safe(s)
    ensures Safe(s.(pool := EnqueueAll(s.pool, Recv(who), packets)))
  {
    EnqueueAllOwned(s.pool, Recv(who), packets);
    hide Safe, Owned;
    PoolSafe(s, EnqueueAll(s.pool, Recv(who), packets));
  }

  lemma {:induction false} WriteSafe(s: State, who: Ref, results: seq<WriteResult>)
    requires Safe(s)
    ensures Backed(s.pool) && Safe(WriteAll(s, who, results))
    decreases |List(s.pool, Send(who))|
  {
    var list := List(s.pool, Send(who));
    SafeBasics(s);
    if list != [] {
      PopSafe(s, Send(who));
      var popped := PopFrom(s, Send(who));
      hide Safe, Loose;
      if results == [] || results[0] == Wrote {
        FreeSafe(popped, list[0]);
        WriteSafe(AllocatorFree(popped, list[0]), who, if results == [] then [] else results[1..]);
      }
    }
  }

  lemma AcceptConnSafe(s: State, fd: int)
    requires Safe(s) && fd !in s.reg.byFd
    ensures Sized(s.reg.timer) && Safe(AcceptConn(s, fd))
  {
    AcceptPlaced(s.reg, fd);
    AcceptLive(s.reg, fd);
    var c := NewConn(s.reg);
    var pool := Emptied(Emptied(s.pool, Recv(Client(c))), Send(Client(c)));
    EmptiedOwned(s.pool, Recv(Client(c)));
    EmptiedOwned(Emptied(s.pool, Recv(Client(c))), Send(Client(c)));
    assert forall x :: x != c ==> (x in Accepted(s.reg, fd).conns <==> x in s.reg.conns);
    assert forall x :: x != c && x in s.reg.conns ==> Accepted(s.reg, fd).conns[x] == s.reg.conns[x];
    assert forall x :: Live(s.reg, x) ==> s.reg.conns[x].kind == Noted(s.log, x);
    hide Owned, Placed, Gated, Noted, Asked, Holds, Emptied;
    PoolSafe(s, pool);
    EventSafe(s.(pool := pool), Accepted(s.reg, fd), AcceptedConn(c));
  }

  // ---------------------------------------------------------------- the expiry pass

  /** Only the timer and the free list of the registry change. */
  lemma TimerSafe(s: State, reg: Registry)
    requires Safe(s) && Placed(reg) && reg.conns == s.reg.conns && reg.byFd == s.reg.byFd
    ensures Safe(s.(reg := reg))
  {
    assert forall c :: Live(reg, c) <==> Live(s.reg, c);
    hide Placed, Gated, Owned, Noted, Asked;
  }

  lemma KeepOneSafe(s: State)
    requires Safe(s) && List(s.pool, KeepAlive) != []
    ensures Sized(s.reg.timer) && Backed(s.pool) && Safe(KeepOneAlive(s))
  {
    SafeBasics(s);
    PopSafe(s, KeepAlive);
    var b := List(s.pool, KeepAlive)[0];
    FirstIsOn(s.pool, KeepAlive);
    FreeSafe(PopFrom(s, KeepAlive), b);
    var first := FindUin(s.reg.byUin, s.pool.mem[b].uin);
    if first.Found? {
      RefreshPlaced(s.reg, first.conn);
      hide Safe, Placed, Holds;
      TimerSafe(AllocatorFree(PopFrom(s, KeepAlive), b), Refreshed(s.reg, first.conn));
    }
  }

  /** The blocks of the keep-alive list after the first one has been worked off. */
  lemma KeepOneMoves(s: State)
    requires Owned(s.pool) && List(s.pool, KeepAlive) != [] && Sized(s.reg.timer) && Backed(s.pool)
    ensures var b, r := List(s.pool, KeepAlive)[0], KeepOneAlive(s);
            && (forall h: Head, x: Block :: On(r.pool, h, x) <==> if x == b then h == Free else On(s.pool, h, x))
            && (forall x: Block :: Loose(r.pool, x) <==> Loose(s.pool, x))
            && On(s.pool, KeepAlive, b)
  {
    var b := List(s.pool, KeepAlive)[0];
    FirstIsOn(s.pool, KeepAlive);
    PopOwned(s.pool, KeepAlive);
    ReleaseOwned(Pop(s.pool, KeepAlive), b);
    assert KeepOneAlive(s).pool == Release(Pop(s.pool, KeepAlive), b);
  }

  /** The connection that the first keep-alive names, if any. */
  ghost function FirstAlive(s: State): Lookup
    requires Backed(s.pool) && List(s.pool, KeepAlive) != []
  {
    assert On(s.pool, KeepAlive, List(s.pool, KeepAlive)[0]);
    FindUin(s.reg.byUin, s.pool.mem[List(s.pool, KeepAlive)[0]].uin)
  }

  lemma AliveStep(s: State)
    requires Sized(s.reg.timer) && Backed(s.pool) && List(s.pool, KeepAlive) != []
    ensures var r := KeepOneAlive(s);
            && r.reg == (if FirstAlive(s).Found? then Refreshed(s.reg, FirstAlive(s).conn) else s.reg)
            && AliveList(s) == (if FirstAlive(s).Found? then [FirstAlive(s).conn] else []) + AliveList(r)
  {
    var r := KeepOneAlive(s);
    assert List(r.pool, KeepAlive) == List(s.pool, KeepAlive)[1..];
    assert [] + AliveList(r) == AliveList(r);
  }

  lemma {:induction false} RefreshFirst(reg: Registry, c: ConnId, rest: seq<ConnId>)
    requires Sized(reg.timer)
    ensures RefreshedAll(reg, [c] + rest) == RefreshedAll(Refreshed(reg, c), rest)
  {
    assert ([c] + rest)[1..] == rest;
  }

  lemma KnownFirst(reg: Registry, q: Registry, c: ConnId, rest: seq<ConnId>)
    requires c in reg.conns && AllInConns(q, rest) && q.conns == reg.conns
    ensures AllInConns(reg, [c] + rest)
  {
  }

  lemma FirstAliveIsKnown(s: State)
    requires Backed(s.pool) && IndexKnown(s.reg) && List(s.pool, KeepAlive) != []
    ensures FirstAlive(s).Found? ==> FirstAlive(s).conn in s.reg.conns
  {
    FirstIsOn(s.pool, KeepAlive);
  }

  /** A keep-alive waits whose user number leads to the connection: it is the connection of the first entry that
      the index has for that number. */
  ghost predicate KeptAlive(s: State, c: ConnId)
    requires Backed(s.pool)
  {
    exists b: Block :: On(s.pool, KeepAlive, b) && FindUin(s.reg.byUin, s.pool.mem[b].uin) == Found(c)
  }

  /** These are the connections that the list names. */
  lemma AliveIsKept(s: State, c: ConnId)
    requires Backed(s.pool)
    ensures c in AliveList(s) <==> KeptAlive(s, c)
  {
    var list := List(s.pool, KeepAlive);
    forall i | 0 <= i < |list| ensures list[i] in s.pool.mem {
      assert On(s.pool, KeepAlive, list[i]);
    }
    AliveMembers(s.reg.byUin, s.pool.mem, list, c);
    if i :| 0 <= i < |list| && FindUin(s.reg.byUin, s.pool.mem[list[i]].uin) == Found(c) {
      assert On(s.pool, KeepAlive, list[i]);
    }
  }

  lemma {:induction false} AliveMembers(es: seq<UinEntry>, mem: map<Block, Packet>, blocks: seq<Block>, c: ConnId)
    requires forall i :: 0 <= i < |blocks| ==> blocks[i] in mem
    ensures c in AliveConns(es, mem, blocks)
       <==> exists i :: 0 <= i < |blocks| && FindUin(es, mem[blocks[i]].uin) == Found(c)
  {
    if blocks != [] {
      AliveMembers(es, mem, blocks[1..], c);
      if i :| 0 <= i < |blocks| && FindUin(es, mem[blocks[i]].uin) == Found(c) {
        assert i > 0 ==> blocks[1..][i - 1] == blocks[i];
      }
      if i :| 0 <= i < |blocks[1..]| && FindUin(es, mem[blocks[1..][i]].uin) == Found(c) {
        assert blocks[i + 1] == blocks[1..][i];
      }
    }
  }

  /** Working off the keep-alive list refreshes the connections it names, in order, and nothing else in
      the registry. */
  lemma {:induction false} KeepAllSafe(s: State)
    requires Safe(s) && Sized(s.reg.timer) && Backed(s.pool)
    ensures Safe(KeepAllAlive(s)) && AllInConns(s.reg, AliveList(s))
    ensures KeepAllAlive(s).reg == RefreshedAll(s.reg, AliveList(s))
    decreases |List(s.pool, KeepAlive)|
  {
    if List(s.pool, KeepAlive) != [] {
      var r, first := KeepOneAlive(s), FirstAlive(s);
      SafeBasics(s);
      KeepOneSafe(s);
      KeepAllSafe(r);
      AliveStep(s);
      FirstAliveIsKnown(s);
      assert KeepAllAlive(s) == KeepAllAlive(r);
      var rest := AliveList(r);
      if first.Found? {
        RefreshFirst(s.reg, first.conn, rest);
        KnownFirst(s.reg, r.reg, first.conn, rest);
      } else {
        assert [] + rest == rest;
      }
      hide *;
    }
  }

  lemma {:induction false} KeepAllLogs(s: State)
    requires Sized(s.reg.timer) && Backed(s.pool)
    ensures KeepAllAlive(s).log == s.log && KeepAllAlive(s).reg.conns == s.reg.conns
    decreases |List(s.pool, KeepAlive)|
  {
    if List(s.pool, KeepAlive) != [] {
      KeepAllLogs(KeepOneAlive(s));
    }
  }

  /** It gives all blocks of the list back to the allocator, and moves no other. */
  lemma {:induction false} KeepAllMoves(s: State)
    requires Safe(s) && Sized(s.reg.timer) && Backed(s.pool)
    ensures List(KeepAllAlive(s).pool, KeepAlive) == []
    ensures forall h: Head, x: Block ::
              On(KeepAllAlive(s).pool, h, x) <==>
              if h == Free then On(s.pool, Free, x) || On(s.pool, KeepAlive, x) else h != KeepAlive && On(s.pool, h, x)
    ensures forall x: Block :: Loose(KeepAllAlive(s).pool, x) <==> Loose(s.pool, x)
    decreases |List(s.pool, KeepAlive)|
  {
    if List(s.pool, KeepAlive) == [] {
      assert forall x: Block :: !On(s.pool, KeepAlive, x);
    } else {
      var r, b := KeepOneAlive(s), List(s.pool, KeepAlive)[0];
      SafeBasics(s);
      KeepOneSafe(s);
      KeepOneMoves(s);
      KeepAllMoves(r);
      assert KeepAllAlive(s) == KeepAllAlive(r);
      assert forall h: Head :: On(s.pool, h, b) ==> h == KeepAlive;
      hide Safe, Owned, Loose, KeepAllAlive, KeepOneAlive, On;
    }
  }

  lemma CloseOneSafe(s: State, c: ConnId)
    requires Safe(s) && Holds(s.reg.timer, c)
    ensures c in s.reg.conns && Safe(CloseOne(s, c)) && CloseOne(s, c).reg == Dropped(s.reg, c)
    ensures forall x: Block :: Loose(CloseOne(s, c).pool, x) <==> Loose(s.pool, x)
  {
    assert c in s.reg.conns by {
      DropPlaced(s.reg, c);
    }
    var uin := s.reg.conns[c].uin;
    var told := SendOffline(s, uin);
    EnqueueOwned(s.pool, Send(Backend(Status)), OfflinePacket(uin));
    SendOfflineSafe(s, uin);
    ListsReleased(told.pool, c);
    hide Safe, Owned, Loose, Holds, Enqueue, ReleaseAll;
    CloseSafe(told, c);
  }

  lemma {:induction false} CloseAllSafe(s: State, cs: seq<ConnId>)
    requires Safe(s) && AllHeld(s.reg, cs) && NoDup(cs) && AllInConns(s.reg, cs)
    ensures Safe(CloseAll(s, cs)) && CloseAll(s, cs).reg == DroppedAll(s.reg, cs)
    ensures forall x: Block :: Loose(CloseAll(s, cs).pool, x) <==> Loose(s.pool, x)
    decreases |cs|
  {
    if cs != [] {
      SafeBasics(s);
      DropPlaced(s.reg, cs[0]);
      CloseOneSafe(s, cs[0]);
      TailMembers(cs);
      var r := CloseOne(s, cs[0]);
      hide Safe, Holds, NoDup, Placed, Loose, Dropped, CloseOne;
      forall i | 0 <= i < |cs[1..]| ensures Holds(r.reg.timer, cs[1..][i]) {
        assert cs[1..][i] == cs[i + 1] && cs[1..][i] in cs[1..];
      }
      CloseAllSafe(r, cs[1..]);
    }
  }

  /** The state in which the expired connections are collected is safe, and they are in the timer. */
  lemma BeforeClosingSafe(s: State, interval: nat)
    requires Safe(s) && Timed(s.reg) && 1 <= interval <= CLIENT_TIMEOUT
    ensures Sized(s.reg.timer) && Backed(s.pool) && AllInConns(s.reg, AliveList(s))
    ensures var r := BeforeClosing(s, interval);
            var cs := TimeoutList(r.reg.timer);
            && Safe(r) && r.reg == RefreshedAll(Ticked(s.reg, interval), AliveList(s))
            && cs == Expired(s.reg, interval, AliveList(s))
            && NoDup(cs) && AllHeld(r.reg, cs) && AllInConns(r.reg, cs)
  {
    SafeBasics(s);
    TickPlaced(s.reg, interval);
    var ticked := s.(reg := Ticked(s.reg, interval));
    TimerSafe(s, ticked.reg);
    KeepAllSafe(ticked);
    var alive := AliveList(ticked);
    assert AliveList(ticked) == AliveList(s);
    hide Safe, Placed, Timed, Live, Holds, KeepAllAlive, TimeoutList, AliveList, AgesAfter;
    ExpiredAreHeld(s.reg, interval, alive);
  }

  /** One expiry pass of the server: it refreshes the connections whose keep-alives have arrived, and then
      closes exactly those that AgesAfter drops. Every other connection stays, one pass older. */
  lemma PassSafe(s: State, interval: nat)
    requires Safe(s) && Timed(s.reg) && 1 <= interval <= CLIENT_TIMEOUT
    ensures Sized(s.reg.timer) && Backed(s.pool)
    ensures var r := BeforeClosing(s, interval); AllInConns(r.reg, TimeoutList(r.reg.timer))
    ensures var r := TimerExpireTime(s, interval);
            && Safe(r) && Timed(r.reg)
            && r.reg.ages == AgesAfter(s.reg.ages, interval, AliveList(s))
            && (forall c: ConnId :: Holds(r.reg.timer, c) <==> c in AgesAfter(s.reg.ages, interval, AliveList(s)))
  {
    SafeBasics(s);
    BeforeClosingSafe(s, interval);
    var alive, r := AliveList(s), BeforeClosing(s, interval);
    var cs := TimeoutList(r.reg.timer);
    hide Safe, Placed, Timed, Live, Holds, KeepAllAlive, TimeoutList, AliveList, AgesAfter, BeforeClosing;
    CloseAllSafe(r, cs);
    ExpireTimes(s.reg, interval, alive);
    var q := CloseAll(r, cs);
    hide RefreshedAll, Expired;
    TimerSafe(q, q.reg.(ages := AgesAfter(s.reg.ages, interval, alive)));
  }

  lemma ReorderSafe(s: State, entries: seq<UinEntry>)
    requires Safe(s) && multiset(entries) == multiset(s.reg.byUin)
    ensures var r := s.(reg := Reordered(s.reg, entries));
            Safe(r) && (Timed(s.reg) ==> Timed(r.reg)) && forall c :: Live(r.reg, c) <==> Live(s.reg, c)
  {
    ReorderPlaced(s.reg, entries);
    assert forall c :: Live(Reordered(s.reg, entries), c) <==> Live(s.reg, c);
    hide Placed, Gated, Owned, Noted, Asked;
  }

  // ---------------------------------------------------------------- whole runs

  ghost function Next(s: State, i: Input): State
    requires Safe(s) && Timed(s.reg) && Possible(s, i)
  {
    SafeBasics(s);
    match i
    case Connect(fd) => AcceptConn(s, fd)
    case Readable(who, packets, err) => ReadHandler(s, who, packets, err)
    case Writable(who, results) => WriteHandler(s, who, results)
    case Fault(who) => ErrorHandler(s, who)
    case Seconds(interval) => if interval == 0 then s else (PassSafe(s, interval); TimerExpireTime(s, interval))
    case Rehashed(entries) => s.(reg := Reordered(s.reg, entries))
  }

  // ---- what becomes of the ages outside a pass

  lemma ErrorTimed(s: State, who: Ref)
    requires Timed(s.reg) && (who.Client? ==> who.id in s.reg.conns)
    ensures Timed(ErrorHandler(s, who).reg)
  {
    if who.Client? {
      DropTimed(s.reg, who.id);
    }
  }

  lemma PacketTimed(s: State, who: Ref, b: Block)
    requires b in s.pool.mem && IndexKnown(s.reg) && (who.Client? ==> who.id in s.reg.conns) && Timed(s.reg)
    ensures Timed(PacketOf(s, who, b).reg)
  {
    if who.Client? {
      DropTimed(s.reg, who.id);
    }
  }

  lemma {:induction false} ProcessTimed(s: State, who: Ref)
    requires Backed(s.pool) && IndexKnown(s.reg) && (who.Client? ==> who.id in s.reg.conns) && Timed(s.reg)
    ensures Timed(Process(s, who).reg)
    decreases |List(s.pool, Recv(who))|
  {
    var list := List(s.pool, Recv(who));
    if list != [] {
      assert On(s.pool, Recv(who), list[0]);
      PacketTimed(PopFrom(s, Recv(who)), who, list[0]);
      hide Timed;
      ProcessTimed(PacketOf(PopFrom(s, Recv(who)), who, list[0]), who);
    }
  }

  lemma ReadSafe(s: State, who: Ref, packets: seq<Packet>, err: bool)
    requires Safe(s) && Timed(s.reg) && Open(s, who)
    ensures Backed(s.pool) && IndexKnown(s.reg) && (who.Client? ==> who.id in s.reg.conns)
    ensures Safe(ReadHandler(s, who, packets, err)) && Timed(ReadHandler(s, who, packets, err).reg)
  {
    SafeBasics(s);
    ReceiveSafe(s, who, packets);
    var r := s.(pool := EnqueueAll(s.pool, Recv(who), packets));
    hide Safe, Timed, Live, Holds;
    if err {
      ErrorSafe(r, who);
      ErrorTimed(r, who);
    } else {
      ProcessSafe(r, who);
      ProcessTimed(r, who);
    }
  }

  lemma WriteHandlerSafe(s: State, who: Ref, results: seq<WriteResult>)
    requires Safe(s) && Timed(s.reg) && Open(s, who)
    ensures Backed(s.pool) && (who.Client? ==> who.id in s.reg.conns)
    ensures Safe(WriteHandler(s, who, results)) && Timed(WriteHandler(s, who, results).reg)
  {
    SafeBasics(s);
    WriteSafe(s, who, results);
    var written := WriteAll(s, who, results);
    hide Safe, Timed, WriteFails, WriteAll, Live, Holds;
    ErrorSafe(written, who);
    ErrorTimed(written, who);
  }

  /** Every step keeps the invariant, and the timer's account of every connection's silence. */
  lemma StepSafe(s: State, i: Input)
    requires Safe(s) && Timed(s.reg) && Possible(s, i)
    ensures Safe(Next(s, i)) && Timed(Next(s, i).reg)
  {
    SafeBasics(s);
    hide Safe, Timed, Live, Holds, Placed, IndexKnown, Backed, Owned;
    match i {
      case Connect(fd) => AcceptConnSafe(s, fd); AcceptTimed(s.reg, fd);
      case Readable(who, packets, err) => ReadSafe(s, who, packets, err);
      case Writable(who, results) => WriteHandlerSafe(s, who, results);
      case Fault(who) => ErrorSafe(s, who); ErrorTimed(s, who);
      case Seconds(interval) =>
        if interval > 0 {
          PassSafe(s, interval);
        }
      case Rehashed(entries) => ReorderSafe(s, entries);
    }
  }

  lemma {:induction false} CloseAllFds(s: State, cs: seq<ConnId>)
    requires AllInConns(s.reg, cs)
    ensures CloseAll(s, cs).reg.byFd.Keys <= s.reg.byFd.Keys
    decreases |cs|
  {
    if cs != [] {
      CloseAllFds(CloseOne(s, cs[0]), cs[1..]);
    }
  }

  /** Only accepting a connection adds to the index by socket. */
  lemma NextFds(s: State, i: Input)
    requires Safe(s) && Timed(s.reg) && Possible(s, i)
    ensures Next(s, i).reg.byFd.Keys <= s.reg.byFd.Keys + if i.Connect? then {i.fd} else {}
  {
    hide Safe, Timed, Live, Holds, Placed, IndexKnown, Backed, Owned, List, Sized;
    SafeBasics(s);
    match i {
      case Connect(fd) =>
      case Readable(who, packets, err) => ReadSafe(s, who, packets, err);
      case Writable(who, results) => WriteHandlerSafe(s, who, results);
      case Fault(who) => ErrorSafe(s, who);
      case Seconds(interval) =>
        if interval > 0 {
          PassSafe(s, interval);
          BeforeClosingSafe(s, interval);
          CloseAllFds(BeforeClosing(s, interval), TimeoutList(BeforeClosing(s, interval).reg.timer));
        }
      case Rehashed(_) =>
    }
  }

  lemma StartSafe(ip: nat, port: nat)
    ensures Safe(Start(ip, port)) && Timed(Start(ip, port).reg)
  {
    EmptyPlaced();
    var p := Pool(map[], map[], 0);
    assert forall h: Head, b: Block :: !On(p, h, b);
    EnqueueOwned(p, Send(Backend(Message)), ConnInfoPacket(ip, port));
  }

  ghost predicate Leads(s: State, run: seq<Input>, r: State)
    decreases |run|
  {
    if run == [] then s == r
    else Safe(s) && Timed(s.reg) && Possible(s, run[0]) && Leads(Next(s, run[0]), run[1..], r)
  }

  lemma {:induction false} LeadsFurther(s: State, run: seq<Input>, r: State, i: Input)
    requires Leads(s, run, r) && Safe(r) && Timed(r.reg) && Possible(r, i)
    ensures Leads(s, run + [i], Next(r, i))
    decreases |run|
  {
    hide Safe, Timed, Possible, Next;
    if run == [] {
      assert (run + [i])[1..] == [];
    } else {
      assert (run + [i])[1..] == run[1..] + [i];
      LeadsFurther(Next(s, run[0]), run[1..], r, i);
    }
  }

  lemma {:induction false} RunSafe(s: State, run: seq<Input>, r: State)
    requires Safe(s) && Timed(s.reg) && Leads(s, run, r)
    ensures Safe(r) && Timed(r.reg)
    decreases |run|
  {
    if run != [] {
      StepSafe(s, run[0]);
      RunSafe(Next(s, run[0]), run[1..], r);
    }
  }

  /** s is the outcome of some run. */
  ghost predicate Reachable(s: State) {
    exists ip, port, run :: Leads(Start(ip, port), run, s)
  }

  lemma ReachableIsSafe(s: State)
    requires Reachable(s)
    ensures Safe(s) && Timed(s.reg)
  {
    var ip, port, run :| Leads(Start(ip, port), run, s);
    StartSafe(ip, port);
    RunSafe(Start(ip, port), run, s);
  }

  /** In every reachable state, no block is on two lists, or twice on one; and a block the allocator is
      about to hand out is on no list but its own. */
  lemma BlocksHaveOneOwner(s: State, h: Head, k: Head, b: Block)
    requires Reachable(s) && b in List(s.pool, h) && b in List(s.pool, k)
    ensures h == k && NoDup(List(s.pool, h)) && (h != Free ==> b != NewBlock(s.pool))
  {
    ReachableIsSafe(s);
    assert On(s.pool, h, b) && On(s.pool, k, b);
    if h != Free {
      NewBlockIsUnused(s.pool, h);
    }
  }

  /** In every reachable state, every connection structure ever handed out is either on the allocator's
      free list, once, or in exactly one slot of the timer, once. */
  lemma StructuresHaveOnePlace(s: State, c: ConnId)
    requires Reachable(s) && c < s.reg.next
    ensures NoDup(s.reg.free) && (c in s.reg.free <==> !Holds(s.reg.timer, c))
    ensures forall i, j :: In(s.reg.timer, i, c) && In(s.reg.timer, j, c) ==> i == j && NoDup(s.reg.timer.slots[i])
  {
    ReachableIsSafe(s);
    hide Safe, Reachable, Holds;
    SafeBasics(s);
  }

  /** In every reachable state, the index by socket is one-to-one, leads to structures with that socket,
      and to none that is free. */
  lemma SocketsAreIndexed(s: State, f: int, g: int)
    requires Reachable(s) && f in s.reg.byFd && g in s.reg.byFd
    ensures s.reg.byFd[f] in s.reg.conns && s.reg.conns[s.reg.byFd[f]].sfd == f && s.reg.byFd[f] !in s.reg.free
    ensures s.reg.byFd[f] == s.reg.byFd[g] ==> f == g
  {
    ReachableIsSafe(s);
    hide Reachable, Holds;
    SafeBasics(s);
  }

  /** In every reachable state, a packet has been forwarded for a client, other than a request to log in,
      only while a granted login was noted at its connection, and no refusal or request since. */
  lemma OnlyLoggedInIsForwarded(s: State, i: nat)
    requires Reachable(s) && i < |s.log| && s.log[i].Forwarded? && s.log[i].command != CMD_LOGIN
    ensures Noted(s.log[..i], s.log[i].conn) == LoginOk
  {
    ReachableIsSafe(s);
  }

  /** The state after the step Seconds(interval). */
  ghost function AfterPass(s: State, interval: nat): (r: State)
    requires Safe(s) && Timed(s.reg) && 1 <= interval <= CLIENT_TIMEOUT
    ensures Backed(s.pool)
    ensures forall c: ConnId :: Holds(r.reg.timer, c) <==> c in AgesAfter(s.reg.ages, interval, AliveList(s))
  {
    PassSafe(s, interval);
    TimerExpireTime(s, interval)
  }

  lemma AfterPassIsExpiry(s: State, interval: nat)
    requires Safe(s) && Timed(s.reg) && 1 <= interval <= CLIENT_TIMEOUT
    ensures Sized(s.reg.timer) && Backed(s.pool)
    ensures var r := BeforeClosing(s, interval); AllInConns(r.reg, TimeoutList(r.reg.timer))
    ensures AfterPass(s, interval) == TimerExpireTime(s, interval)
  {
    PassSafe(s, interval);
  }

  lemma AfterPassIsStep(s: State, interval: nat)
    requires Safe(s) && Timed(s.reg) && 1 <= interval <= CLIENT_TIMEOUT
    ensures AfterPass(s, interval) == Next(s, Seconds(interval))
  {
    hide Safe, Timed, TimerExpireTime, BeforeClosing, AgesAfter, Live, Sized, Backed, IndexKnown;
  }

  lemma StaysYoung(m: map<ConnId, nat>, interval: nat, alive: seq<ConnId>, c: ConnId)
    ensures c in AgesAfter(m, interval, alive)
        <==> if c in alive then interval == 1 else c in m && m[c] + interval < CLIENT_TIMEOUT
  {
  }

  lemma PassCloses(s: State, interval: nat, c: ConnId)
    requires Safe(s) && Timed(s.reg) && Backed(s.pool) && 1 <= interval <= CLIENT_TIMEOUT
    ensures Holds(s.reg.timer, c) <==> c in s.reg.ages
    ensures Holds(AfterPass(s, interval).reg.timer, c)
        <==> if KeptAlive(s, c) then interval == 1
             else c in s.reg.ages && s.reg.ages[c] + interval < CLIENT_TIMEOUT
  {
    HeldIsAgedHere(s.reg, c);
    hide *;
    StaysYoung(s.reg.ages, interval, AliveList(s), c);
    AliveIsKept(s, c);
  }

  /** In every reachable state, a pass that is due leaves a structure in the timer exactly if it is
      refreshed in a pass that covers a single second, or is not refreshed and has been there for less than
      CLIENT_TIMEOUT seconds by then. */
  lemma PassClosesTheSilent(s: State, interval: nat, c: ConnId)
    requires Reachable(s) && 1 <= interval <= CLIENT_TIMEOUT
    ensures Safe(s) && Timed(s.reg) && Backed(s.pool) && (Holds(s.reg.timer, c) <==> c in s.reg.ages)
    ensures Holds(Next(s, Seconds(interval)).reg.timer, c)
        <==> if KeptAlive(s, c) then interval == 1
             else c in s.reg.ages && s.reg.ages[c] + interval < CLIENT_TIMEOUT
  {
    ReachableIsSafe(s);
    SafeBasics(s);
    AfterPassIsStep(s, interval);
    hide *;
    PassCloses(s, interval, c);
  }
}
