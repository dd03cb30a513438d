/** What the connection server tells the status module: which users it announces offline, when connections
    fail, time out or log out, and what waits on that module's send list. */
module ConnAnnouncements {
  import opened Protocol
  import opened Sequences
  import opened TimerSpec
  import opened PacketPool
  import opened ConnRegistry
  import opened ConnHandlers
  import opened ConnSafety
  import opened ConnLosses

  const STATUS_LIST := Send(Backend(Status))

  /** The packet says that the user is offline, in its header and in its parameters. */
  ghost predicate Announces(p: Packet, uin: nat) {
    p.length == 24 && p.command == CMD_STATUS_CHANGE && p.uin == uin && p.params == StatusChange(uin, 0)
  }

  /** The users announced offline, in order. */
  ghost function Announced(log: seq<Event>): seq<nat> {
    if log == [] then []
    else
      var k := |log| - 1;
      Announced(log[..k]) + if log[k].AnnouncedOffline? then [log[k].uin] else []
  }

  /** If the event closes a connection at which a granted login is noted, an announcement comes just before. */
  ghost predicate FarewellAt(log: seq<Event>, e: Event) {
    e.ClosedConn? && Noted(log, e.conn) == LoginOk ==> log != [] && log[|log| - 1].AnnouncedOffline?
  }

  ghost predicate Farewelled(log: seq<Event>) {
    forall k :: 0 <= k < |log| ==> FarewellAt(log[..k], log[k])
  }

  ghost predicate SameContents(p: Pool, q: Pool, list: seq<Block>) {
    forall k :: 0 <= k < |list| ==> list[k] in p.mem && list[k] in q.mem && q.mem[list[k]] == p.mem[list[k]]
  }

  ghost predicate AllAnnounce(p: Pool, list: seq<Block>, uins: seq<nat>) {
    |list| == |uins| && forall k :: 0 <= k < |list| ==> list[k] in p.mem && Announces(p.mem[list[k]], uins[k])
  }

  /** From s to r, the status module's list has grown at its end by one packet for every announcement of the
      history, with that user, and is otherwise as it was. */
  ghost predicate Tells(s: State, r: State) {
    var q, t := List(s.pool, STATUS_LIST), List(r.pool, STATUS_LIST);
    && s.log <= r.log && q <= t && SameContents(s.pool, r.pool, q)
    && AllAnnounce(r.pool, t[|q|..], Announced(r.log[|s.log|..]))
    && (Farewelled(s.log) ==> Farewelled(r.log))
  }

  lemma {:induction false} AnnouncedAppend(a: seq<Event>, b: seq<Event>)
    ensures Announced(a + b) == Announced(a) + Announced(b)
  {
    if b == [] {
      assert a + b == a;
    } else {
      var k := |b| - 1;
      assert (a + b)[..|a + b| - 1] == a + b[..k];
      AnnouncedAppend(a, b[..k]);
    }
  }

  lemma FarewelledAfter(log: seq<Event>, e: Event)
    ensures Farewelled(log + [e]) <==> Farewelled(log) && FarewellAt(log, e)
  {
    hide FarewellAt;
    var q := log + [e];
    assert q[..|log|] == log && q[|log|] == e;
    forall k | 0 <= k < |log| ensures FarewellAt(q[..k], q[k]) <==> FarewellAt(log[..k], log[k]) {
      assert q[..k] == log[..k] && q[k] == log[k];
    }
    if Farewelled(q) {
      forall k | 0 <= k < |log| ensures FarewellAt(log[..k], log[k]) {
        assert FarewellAt(q[..k], q[k]);
      }
      assert FarewellAt(q[..|log|], q[|log|]);
    }
  }

  lemma AllAnnounceAppend(p: Pool, a: seq<Block>, us: seq<nat>, b: seq<Block>, vs: seq<nat>)
    requires AllAnnounce(p, a, us) && AllAnnounce(p, b, vs)
    ensures AllAnnounce(p, a + b, us + vs)
  {
    hide Announces;
  }

  lemma AnnounceElsewhere(p: Pool, q: Pool, list: seq<Block>, uins: seq<nat>)
    requires AllAnnounce(p, list, uins) && SameContents(p, q, list)
    ensures AllAnnounce(q, list, uins)
  {
    hide Announces;
  }

  lemma ContentsTrans(p: Pool, q: Pool, r: Pool, a: seq<Block>, b: seq<Block>)
    requires SameContents(p, q, a) && SameContents(q, r, a + b)
    ensures SameContents(p, r, a) && SameContents(q, r, b)
  {
    assert forall k :: 0 <= k < |a| ==> (a + b)[k] == a[k];
    assert forall k :: 0 <= k < |b| ==> (a + b)[|a| + k] == b[k];
  }

  lemma TellsTrans(s: State, t: State, r: State)
    requires Tells(s, t) && Tells(t, r)
    ensures Tells(s, r)
  {
    hide SameContents, AllAnnounce, Farewelled, Announced, List;
    var q, l, m := List(s.pool, STATUS_LIST), List(t.pool, STATUS_LIST), List(r.pool, STATUS_LIST);
    var a, b := t.log[|s.log|..], r.log[|t.log|..];
    assert r.log[|s.log|..] == a + b;
    AnnouncedAppend(a, b);
    assert l == q + l[|q|..] && m[|q|..] == l[|q|..] + m[|l|..];
    ContentsTrans(s.pool, t.pool, r.pool, q, l[|q|..]);
    AnnounceElsewhere(t.pool, r.pool, l[|q|..], Announced(a));
    AllAnnounceAppend(r.pool, l[|q|..], Announced(a), m[|l|..], Announced(b));
  }

  /** What waits for the status module is left alone, and nothing enters the history. */
  lemma PoolTells(s: State, r: State)
    requires r.log == s.log && List(r.pool, STATUS_LIST) == List(s.pool, STATUS_LIST)
    requires SameContents(s.pool, r.pool, List(s.pool, STATUS_LIST))
    ensures Tells(s, r)
  {
    assert r.log[|s.log|..] == [];
    hide Farewelled;
  }

  lemma SelfTells(s: State, r: State)
    requires Backed(s.pool) && r.pool == s.pool && r.log == s.log
    ensures Tells(s, r)
  {
    StatusListBacked(s.pool);
    PoolTells(s, r);
  }

  lemma StatusListBacked(p: Pool)
    requires Backed(p)
    ensures forall k :: 0 <= k < |List(p, STATUS_LIST)| ==> List(p, STATUS_LIST)[k] in p.mem
  {
    forall k | 0 <= k < |List(p, STATUS_LIST)| ensures List(p, STATUS_LIST)[k] in p.mem {
      assert On(p, STATUS_LIST, List(p, STATUS_LIST)[k]);
    }
  }

  /** An event that neither announces nor closes enters the history. */
  lemma LogTells(s: State, r: State, e: Event)
    requires Backed(s.pool) && r.pool == s.pool && r.log == s.log + [e] && !e.AnnouncedOffline? && !e.ClosedConn?
    ensures Tells(s, r)
  {
    StatusListBacked(s.pool);
    FarewelledAfter(s.log, e);
    assert r.log[|s.log|..] == [e];
    assert [e][..0] == [] && Announced([e]) == Announced([]) + [];
    hide Farewelled;
  }

  lemma PushTells(s: State, h: Head, b: Block)
    requires Backed(s.pool) && h != STATUS_LIST
    ensures Tells(s, s.(pool := Push(s.pool, h, b)))
  {
    StatusListBacked(s.pool);
    PoolTells(s, s.(pool := Push(s.pool, h, b)));
  }

  lemma FreeTells(s: State, b: Block)
    requires Backed(s.pool) && b in s.pool.mem
    ensures Tells(s, AllocatorFree(s, b))
  {
    StatusListBacked(s.pool);
    PoolTells(s, AllocatorFree(s, b));
  }

  lemma PopTells(s: State, h: Head)
    requires Backed(s.pool) && List(s.pool, h) != [] && h != STATUS_LIST
    ensures Tells(s, PopFrom(s, h))
  {
    StatusListBacked(s.pool);
    PoolTells(s, PopFrom(s, h));
  }

  /** A packet that is enqueued elsewhere takes no block that waits for the status module. */
  lemma EnqueueTells(s: State, h: Head, packet: Packet)
    requires Owned(s.pool) && h != STATUS_LIST && h != Free
    ensures Tells(s, s.(pool := Enqueue(s.pool, h, packet)))
  {
    var q := List(s.pool, STATUS_LIST);
    NewBlockIsUnused(s.pool, STATUS_LIST);
    assert Backed(s.pool);
    StatusListBacked(s.pool);
    var r := s.(pool := Enqueue(s.pool, h, packet));
    forall k | 0 <= k < |q| ensures q[k] != NewBlock(s.pool) {
      assert On(s.pool, STATUS_LIST, q[k]);
    }
    PoolTells(s, r);
  }

  /** An announcement puts one packet at the end of the list. */
  lemma SendOfflineTells(s: State, uin: nat)
    requires Owned(s.pool)
    ensures Tells(s, SendOffline(s, uin))
  {
    hide Farewelled, Noted, Settles;
    var q, b := List(s.pool, STATUS_LIST), NewBlock(s.pool);
    NewBlockIsUnused(s.pool, STATUS_LIST);
    assert Backed(s.pool);
    StatusListBacked(s.pool);
    var r := SendOffline(s, uin);
    assert List(r.pool, STATUS_LIST) == q + [b];
    forall k | 0 <= k < |q| ensures q[k] != b {
      assert On(s.pool, STATUS_LIST, q[k]);
    }
    FarewelledAfter(s.log, AnnouncedOffline(uin));
    assert r.log[|s.log|..] == [AnnouncedOffline(uin)];
    assert [AnnouncedOffline(uin)][..0] == [] && Announced([AnnouncedOffline(uin)]) == Announced([]) + [uin];
    assert (q + [b])[|q|..] == [b];
  }

  lemma {:induction false} CloseTells(s: State, c: ConnId)
    requires Backed(s.pool) && c in s.reg.conns
    requires Noted(s.log, c) == LoginOk ==> s.log != [] && s.log[|s.log| - 1].AnnouncedOffline?
    ensures Tells(s, CloseConnection(s, c))
  {
    hide Farewelled, Noted, Dropped, Settles, ReleaseAll, Announces, Backed;
    var r := CloseConnection(s, c);
    StatusListBacked(s.pool);
    FarewelledAfter(s.log, ClosedConn(c));
    assert r.log[|s.log|..] == [ClosedConn(c)];
    assert [ClosedConn(c)][..0] == [] && Announced([ClosedConn(c)]) == Announced([]) + [];
  }

  /** A connection is closed after its user has been announced. */
  lemma AnnouncedCloseTells(s: State, uin: nat, c: ConnId)
    requires Owned(s.pool) && c in s.reg.conns
    ensures Tells(s, CloseConnection(SendOffline(s, uin), c))
  {
    var told := SendOffline(s, uin);
    SendOfflineTells(s, uin);
    EnqueueOwned(s.pool, STATUS_LIST, OfflinePacket(uin));
    assert Backed(told.pool);
    hide Tells, Owned, Noted, Enqueue;
    CloseTells(told, c);
    TellsTrans(s, told, CloseConnection(told, c));
  }

  // ---------------------------------------------------------------- packets

  lemma ForwardTells(s: State, c: ConnId, side: Side, b: Block)
    requires Backed(s.pool) && b in s.pool.mem && side != Status
    ensures Tells(s, Forward(s, c, side, b))
  {
    var h := Send(Backend(side));
    var r := s.(pool := Push(s.pool, h, b));
    PushTells(s, h, b);
    hide Tells;
    LogTells(r, Forward(s, c, side, b), Forwarded(c, side, s.pool.mem[b].command));
    TellsTrans(s, r, Forward(s, c, side, b));
  }

  lemma CmdLoginTells(s: State, c: ConnId, b: Block)
    requires Backed(s.pool) && b in s.pool.mem && c in s.reg.conns
    ensures Tells(s, CmdLogin(s, c, b))
  {
    var uin := s.pool.mem[b].uin;
    var r := Logged(s.(reg := LoggedIn(s.reg, c, uin)), LoginAsked(c, uin));
    hide Tells, Forward;
    LogTells(s, r, LoginAsked(c, uin));
    ForwardTells(r, c, User, b);
    TellsTrans(s, r, CmdLogin(s, c, b));
  }

  lemma CmdLogoutTells(s: State, c: ConnId, b: Block)
    requires Safe(s) && Loose(s.pool, b) && c in s.reg.conns
    ensures Tells(s, CmdLogout(s, c, b))
  {
    SafeBasics(s);
    ReleaseOwned(s.pool, b);
    var freed := AllocatorFree(s, b);
    hide Tells, Safe, Owned, SendOffline, CloseConnection;
    FreeTells(s, b);
    AnnouncedCloseTells(freed, freed.pool.mem[b].uin, c);
    TellsTrans(s, freed, CmdLogout(s, c, b));
  }

  lemma CmdPacketTells(s: State, c: ConnId, b: Block)
    requires Safe(s) && Loose(s.pool, b) && c in s.reg.conns
    ensures Tells(s, CmdPacket(s, c, b))
  {
    SafeBasics(s);
    assert b in s.pool.mem;
    var command := s.pool.mem[b].command;
    hide Tells, Safe, Loose, CmdLogin, CmdLogout, Forward, AllocatorFree, Backed, List, Push;
    if s.reg.conns[c].kind != LoginOk && command != CMD_LOGIN {
      FreeTells(s, b);
    } else if command == CMD_KEEP_ALIVE {
      PushTells(s, KeepAlive, b);
    } else if command == CMD_LOGIN {
      CmdLoginTells(s, c, b);
    } else if command == CMD_LOGOUT {
      CmdLogoutTells(s, c, b);
    } else if command == CMD_SET_NICK {
      ForwardTells(s, c, User, b);
    } else if IsContactCommand(command) {
      ForwardTells(s, c, Contact, b);
    } else if IsMessageCommand(command) {
      ForwardTells(s, c, Message, b);
    } else {
      SelfTells(s, s);
    }
  }

  lemma SrvVerdictTells(s: State, b: Block, kind: LoginType)
    requires Backed(s.pool) && b in s.pool.mem && IndexKnown(s.reg)
    ensures Tells(s, SrvVerdict(s, b, kind))
  {
    var uin := s.pool.mem[b].uin;
    FreeTells(s, b);
    if FindUin(s.reg.byUin, uin).Found? {
      var c := FindUin(s.reg.byUin, uin).conn;
      var r := s.(pool := Push(s.pool, Send(Client(c)), b));
      PushTells(s, Send(Client(c)), b);
      hide Tells;
      LogTells(r, SrvVerdict(s, b, kind), Verdict(c, uin, kind));
      TellsTrans(s, r, SrvVerdict(s, b, kind));
    }
  }

  lemma SrvPacketTells(s: State, b: Block)
    requires Backed(s.pool) && b in s.pool.mem && IndexKnown(s.reg)
    ensures Tells(s, SrvPacket(s, b))
  {
    hide Tells, SrvVerdict, AllocatorFree, Push, Backed, IndexKnown;
    SrvVerdictTells(s, b, LoginError);
    SrvVerdictTells(s, b, LoginOk);
    FreeTells(s, b);
    SelfTells(s, s);
    var found := FindUin(s.reg.byUin, s.pool.mem[b].uin);
    if found.Found? {
      PushTells(s, Send(Client(found.conn)), b);
    }
  }

  lemma PacketTells(s: State, who: Ref)
    requires Safe(s) && Processable(s, who) && List(s.pool, Recv(who)) != []
    ensures Backed(s.pool) && IndexKnown(s.reg) && List(s.pool, Recv(who))[0] in s.pool.mem
    ensures Tells(s, PacketOf(PopFrom(s, Recv(who)), who, List(s.pool, Recv(who))[0]))
  {
    hide Safe, Tells, CmdPacket, SrvPacket, Loose, IndexKnown, Backed, Live;
    var b, popped := List(s.pool, Recv(who))[0], PopFrom(s, Recv(who));
    SafeBasics(s);
    PacketSafe(s, who);
    SafeBasics(popped);
    PopTells(s, Recv(who));
    if who.Client? {
      CmdPacketTells(popped, who.id, b);
    } else {
      SrvPacketTells(popped, b);
    }
    TellsTrans(s, popped, PacketOf(popped, who, b));
  }

  lemma {:induction false} ProcessTells(s: State, who: Ref)
    requires Safe(s) && Processable(s, who)
    ensures Backed(s.pool) && IndexKnown(s.reg) && Tells(s, Process(s, who))
    decreases |List(s.pool, Recv(who))|
  {
    SafeBasics(s);
    if List(s.pool, Recv(who)) == [] {
      SelfTells(s, s);
    } else {
      PacketSafe(s, who);
      PacketTells(s, who);
      var r := PacketOf(PopFrom(s, Recv(who)), who, List(s.pool, Recv(who))[0]);
      hide Safe, Tells, PacketOf, Processable;
      ProcessTells(r, who);
      TellsTrans(s, r, Process(r, who));
    }
  }

  // ---------------------------------------------------------------- sockets and the expiry pass

  lemma {:induction false} EnqueueAllTells(s: State, h: Head, packets: seq<Packet>)
    requires Owned(s.pool) && h.Recv?
    ensures Tells(s, s.(pool := EnqueueAll(s.pool, h, packets)))
    decreases |packets|
  {
    if packets == [] {
      assert Backed(s.pool);
      SelfTells(s, s);
    } else {
      var r := s.(pool := Enqueue(s.pool, h, packets[0]));
      EnqueueTells(s, h, packets[0]);
      EnqueueOwned(s.pool, h, packets[0]);
      hide Tells, Owned, Enqueue;
      EnqueueAllTells(r, h, packets[1..]);
      TellsTrans(s, r, s.(pool := EnqueueAll(s.pool, h, packets)));
    }
  }

  lemma ErrorTells(s: State, who: Ref)
    requires Safe(s) && Open(s, who)
    ensures (who.Client? ==> who.id in s.reg.conns) && Tells(s, ErrorHandler(s, who))
  {
    SafeBasics(s);
    if who.Client? {
      var conn := s.reg.conns[who.id];
      assert conn.kind == Noted(s.log, who.id);
      hide Safe, Tells, Noted, CloseConnection, SendOffline;
      if conn.kind == LoginOk {
        AnnouncedCloseTells(s, conn.uin, who.id);
      } else {
        CloseTells(s, who.id);
      }
    } else {
      SelfTells(s, s);
    }
  }

  lemma {:induction false} WriteTells(s: State, who: Ref, results: seq<WriteResult>)
    requires Backed(s.pool) && who != Backend(Status)
    ensures Tells(s, WriteAll(s, who, results))
    decreases |List(s.pool, Send(who))|
  {
    var list := List(s.pool, Send(who));
    if list == [] {
      SelfTells(s, s);
    } else {
      FirstIsOn(s.pool, Send(who));
      var popped := PopFrom(s, Send(who));
      PopTells(s, Send(who));
      if results == [] || results[0] == Wrote {
        var r, rest := AllocatorFree(popped, list[0]), if results == [] then [] else results[1..];
        FreeTells(popped, list[0]);
        hide Tells, AllocatorFree;
        TellsTrans(s, popped, r);
        WriteTells(r, who, rest);
        TellsTrans(s, r, WriteAll(r, who, rest));
      }
    }
  }

  lemma EmptiedBacked(p: Pool, h: Head)
    requires Backed(p)
    ensures Backed(Emptied(p, h))
  {
    forall k: Head, b: Block | On(Emptied(p, h), k, b) ensures b in p.mem {
      assert On(p, k, b);
    }
  }

  lemma AcceptTells(s: State, fd: int)
    requires Backed(s.pool) && Sized(s.reg.timer)
    ensures Tells(s, AcceptConn(s, fd))
  {
    var c := NewConn(s.reg);
    var r := s.(pool := Emptied(Emptied(s.pool, Recv(Client(c))), Send(Client(c))));
    StatusListBacked(s.pool);
    PoolTells(s, r);
    EmptiedBacked(s.pool, Recv(Client(c)));
    EmptiedBacked(Emptied(s.pool, Recv(Client(c))), Send(Client(c)));
    hide Tells, Emptied, Accepted;
    LogTells(r, AcceptConn(s, fd), AcceptedConn(c));
    TellsTrans(s, r, AcceptConn(s, fd));
  }

  lemma {:induction false} KeepAllTells(s: State)
    requires Sized(s.reg.timer) && Backed(s.pool)
    ensures Tells(s, KeepAllAlive(s))
    decreases |List(s.pool, KeepAlive)|
  {
    if List(s.pool, KeepAlive) == [] {
      SelfTells(s, s);
    } else {
      var r := KeepOneAlive(s);
      StatusListBacked(s.pool);
      PoolTells(s, r);
      hide Tells, KeepOneAlive;
      KeepAllTells(r);
      TellsTrans(s, r, KeepAllAlive(r));
    }
  }

  lemma {:induction false} CloseAllTells(s: State, cs: seq<ConnId>)
    requires Safe(s) && AllHeld(s.reg, cs) && NoDup(cs) && AllInConns(s.reg, cs)
    ensures Tells(s, CloseAll(s, cs))
    decreases |cs|
  {
    SafeBasics(s);
    if cs == [] {
      SelfTells(s, s);
    } else {
      CloseOneSafe(s, cs[0]);
      DropPlaced(s.reg, cs[0]);
      TailMembers(cs);
      AnnouncedCloseTells(s, s.reg.conns[cs[0]].uin, cs[0]);
      var r := CloseOne(s, cs[0]);
      hide Safe, Tells, Holds, NoDup, Placed, Dropped, SendOffline, CloseConnection, Loose;
      forall i | 0 <= i < |cs[1..]| ensures Holds(r.reg.timer, cs[1..][i]) {
        assert cs[1..][i] == cs[i + 1] && cs[1..][i] in cs[1..];
      }
      CloseAllTells(r, cs[1..]);
      TellsTrans(s, r, CloseAll(r, cs[1..]));
    }
  }

  lemma PassTells(s: State, interval: nat)
    requires Safe(s) && Timed(s.reg) && 1 <= interval <= CLIENT_TIMEOUT
    ensures Tells(s, AfterPass(s, interval))
  {
    hide Safe, Timed, Tells, KeepAllAlive, CloseAll, TimeoutList, AgesAfter, AliveList, AfterPass, Holds;
    hide AllHeld, NoDup;
    SafeBasics(s);
    BeforeClosingSafe(s, interval);
    AfterPassIsExpiry(s, interval);
    var ticked, r := s.(reg := Ticked(s.reg, interval)), BeforeClosing(s, interval);
    var q := CloseAll(r, TimeoutList(r.reg.timer));
    SelfTells(s, ticked);
    KeepAllTells(ticked);
    TellsTrans(s, ticked, r);
    CloseAllTells(r, TimeoutList(r.reg.timer));
    TellsTrans(s, r, q);
    SafeBasics(q) by {
      CloseAllSafe(r, TimeoutList(r.reg.timer));
    }
    SelfTells(q, AfterPass(s, interval));
    TellsTrans(s, q, AfterPass(s, interval));
  }

  // ---------------------------------------------------------------- steps

  lemma ReadTells(s: State, who: Ref, packets: seq<Packet>, err: bool)
    requires Safe(s) && Open(s, who)
    ensures Backed(s.pool) && IndexKnown(s.reg) && (who.Client? ==> who.id in s.reg.conns)
    ensures Tells(s, ReadHandler(s, who, packets, err))
  {
    hide Safe, Tells, Processable, Live, Owned, Backed, IndexKnown, Holds;
    SafeBasics(s);
    ReceivedSafe(s, who, packets);
    var r := Received(s, who, packets);
    EnqueueAllTells(s, Recv(who), packets);
    if err {
      ErrorTells(r, who);
      TellsTrans(s, r, ErrorHandler(r, who));
    } else {
      ProcessTells(r, who);
      TellsTrans(s, r, Process(r, who));
    }
  }

  lemma WriteHandlerTells(s: State, who: Ref, results: seq<WriteResult>)
    requires Safe(s) && Open(s, who) && who != Backend(Status)
    ensures Backed(s.pool) && (who.Client? ==> who.id in s.reg.conns)
    ensures Tells(s, WriteHandler(s, who, results))
  {
    hide Safe, Tells, WriteFails, WriteAll, Live, Owned, Backed, IndexKnown, Holds;
    SafeBasics(s);
    var r := WriteAll(s, who, results);
    WriteTells(s, who, results);
    WriteSafe(s, who, results);
    SafeBasics(r);
    ErrorTells(r, who);
    SelfTells(r, r);
    TellsTrans(s, r, if WriteFails(s, who, results) then ErrorHandler(r, who) else r);
  }

  /** Every event but the writing of that very list leaves the status module's list as it was, with one packet
      at its end for every announcement that has entered the history. */
  lemma NextTells(s: State, i: Input)
    requires Safe(s) && Timed(s.reg) && Possible(s, i) && !(i.Writable? && i.who == Backend(Status))
    ensures Tells(s, Next(s, i))
  {
    hide Safe, Timed, Tells, Live, Holds, Placed, IndexKnown, Backed, Owned, Sized;
    SafeBasics(s);
    match i {
      case Connect(fd) => AcceptTells(s, fd);
      case Readable(who, packets, err) => ReadTells(s, who, packets, err);
      case Writable(who, results) => WriteHandlerTells(s, who, results);
      case Fault(who) => ErrorTells(s, who);
      case Seconds(interval) =>
        if interval == 0 {
          SelfTells(s, s);
        } else {
          PassTells(s, interval);
          AfterPassIsStep(s, interval);
        }
      case Rehashed(_) => SelfTells(s, Next(s, i));
    }
  }

  /** Writing the list takes packets off its front and does nothing else. */
  lemma {:induction false} WriteDrains(s: State, results: seq<WriteResult>)
    requires Backed(s.pool)
    ensures var q, t := List(s.pool, STATUS_LIST), List(WriteAll(s, Backend(Status), results).pool, STATUS_LIST);
            |t| <= |q| && t == q[|q| - |t|..] && WriteAll(s, Backend(Status), results).pool.mem == s.pool.mem
    decreases |List(s.pool, STATUS_LIST)|
  {
    var list := List(s.pool, STATUS_LIST);
    if list != [] {
      FirstIsOn(s.pool, STATUS_LIST);
      if results == [] || results[0] == Wrote {
        WriteDrains(AllocatorFree(PopFrom(s, STATUS_LIST), list[0]), if results == [] then [] else results[1..]);
      }
    }
  }

  // ---------------------------------------------------------------- over whole runs

  /** What waits for the status module are the latest announcements, in order. */
  ghost predicate Waiting(s: State) {
    var q, a := List(s.pool, STATUS_LIST), Announced(s.log);
    |q| <= |a| && AllAnnounce(s.pool, q, a[|a| - |q|..])
  }

  lemma TellsWaiting(s: State, r: State)
    requires Waiting(s) && Tells(s, r)
    ensures Waiting(r)
  {
    hide Announces, Announced, Farewelled, List;
    var q, t := List(s.pool, STATUS_LIST), List(r.pool, STATUS_LIST);
    var a, news := Announced(s.log), r.log[|s.log|..];
    assert r.log == s.log + news && t == q + t[|q|..];
    AnnouncedAppend(s.log, news);
    AnnounceElsewhere(s.pool, r.pool, q, a[|a| - |q|..]);
    AllAnnounceAppend(r.pool, q, a[|a| - |q|..], t[|q|..], Announced(news));
    assert Announced(r.log)[|Announced(r.log)| - |t|..] == a[|a| - |q|..] + Announced(news);
  }

  lemma DrainedWaiting(s: State, r: State, t: seq<Block>)
    requires Waiting(s) && r.log == s.log && r.pool.mem == s.pool.mem && t == List(r.pool, STATUS_LIST)
    requires var q := List(s.pool, STATUS_LIST); |t| <= |q| && t == q[|q| - |t|..]
    ensures Waiting(r)
  {
    hide Announces, Announced, List;
  }

  lemma StepWaiting(s: State, i: Input)
    requires Safe(s) && Timed(s.reg) && Possible(s, i) && Waiting(s) && Farewelled(s.log)
    ensures Waiting(Next(s, i)) && Farewelled(Next(s, i).log)
  {
    hide Safe, Timed, Waiting, Farewelled, Live, Holds, Placed, Backed, IndexKnown, List, WriteFails;
    if i.Writable? && i.who == Backend(Status) {
      SafeBasics(s);
      WriteDrains(s, i.results);
      var r := WriteAll(s, i.who, i.results);
      DrainedWaiting(s, r, List(r.pool, STATUS_LIST));
    } else {
      NextTells(s, i);
      TellsWaiting(s, Next(s, i));
      TellsFarewell(s, Next(s, i));
    }
  }

  lemma TellsFarewell(s: State, r: State)
    requires Tells(s, r) && Farewelled(s.log)
    ensures Farewelled(r.log)
  {
    hide Farewelled;
  }

  lemma {:induction false} RunWaiting(s: State, run: seq<Input>, r: State)
    requires Safe(s) && Timed(s.reg) && Leads(s, run, r) && Waiting(s) && Farewelled(s.log)
    ensures Waiting(r) && Farewelled(r.log)
    decreases |run|
  {
    hide Safe, Timed, Waiting, Farewelled, Next, Possible;
    if run != [] {
      StepSafe(s, run[0]);
      StepWaiting(s, run[0]);
      RunWaiting(Next(s, run[0]), run[1..], r);
    }
  }

  /** In every reachable state, what waits for the status module are the latest announcements, in order: each
      packet is a status change of the user announced, in header and parameters, to status 0. */
  lemma AnnouncementsWait(s: State, j: nat)
    requires Reachable(s) && j < |List(s.pool, STATUS_LIST)|
    ensures var q, a := List(s.pool, STATUS_LIST), Announced(s.log);
            && |q| <= |a| && q[j] in s.pool.mem
            && var p, u := s.pool.mem[q[j]], a[|a| - |q| + j];
            p.length == 24 && p.command == CMD_STATUS_CHANGE && p.uin == u && p.params == StatusChange(u, 0)
  {
    RunsWait(s);
  }

  /** In every reachable state, no connection at which a granted login was noted has been closed without an
      announcement just before. */
  lemma NoneLeavesUnannounced(s: State, k: nat)
    requires Reachable(s) && k < |s.log| && s.log[k].ClosedConn? && Noted(s.log[..k], s.log[k].conn) == LoginOk
    ensures k > 0 && s.log[k - 1].AnnouncedOffline?
  {
    RunsWait(s);
    hide Reachable, Noted, Waiting;
    assert FarewellAt(s.log[..k], s.log[k]);
  }

  lemma RunsWait(s: State)
    requires Reachable(s)
    ensures Waiting(s) && Farewelled(s.log)
  {
    hide Waiting, Farewelled, Start, Leads;
    var ip, port, run :| Leads(Start(ip, port), run, s);
    StartSafe(ip, port);
    StartWaits(ip, port);
    RunWaiting(Start(ip, port), run, s);
  }

  lemma StartWaits(ip: nat, port: nat)
    ensures Waiting(Start(ip, port)) && Farewelled(Start(ip, port).log)
  {
    assert List(Start(ip, port).pool, STATUS_LIST) == [];
  }

  // ---------------------------------------------------------------- who is announced

  /** The event ends the connection with an error: at a write, that is the first that does not succeed, and it
      is not one that would block. */
  ghost predicate Fails(s: State, i: Input, c: ConnId) {
    || i == Fault(Client(c))
    || (i.Readable? && i.who == Client(c) && i.err)
    || (i.Writable? && i.who == Client(c)
        && exists k :: StopsAt(i.results, |List(s.pool, Send(i.who))|, k) && i.results[k] == Failed)
  }

  lemma FailsAtStop(s: State, who: Ref, results: seq<WriteResult>)
    ensures WriteFails(s, who, results)
       <==> exists k :: StopsAt(results, |List(s.pool, Send(who))|, k) && results[k] == Failed
  {
    var n := |List(s.pool, Send(who))|;
    if WriteFails(s, who, results) {
      var k :| 0 <= k < |results| && k < n && results[k] == Failed && forall j :: 0 <= j < k ==> results[j] == Wrote;
      assert StopsAt(results, n, k);
    }
    if k :| StopsAt(results, n, k) && results[k] == Failed {
      assert 0 <= k < |results| && k < n;
    }
  }

  /** After an error, the user is announced exactly if a granted login is noted at the connection, as the user
      last asked for; then the connection is closed. */
  lemma {:induction false} FailureIsAnnounced(s: State, i: Input, c: ConnId)
    requires Reachable(s) && Safe(s) && Timed(s.reg) && Possible(s, i) && Fails(s, i, c)
    ensures Next(s, i).log ==
              s.log + (if Noted(s.log, c) == LoginOk then [AnnouncedOffline(Asked(s.log, c))] else []) + [ClosedConn(c)]
  {
    hide Safe, Timed, Reachable, Noted, Asked, WriteFails, WriteAll, Backed, IndexKnown, Holds, ErrorHandler, Settles;
    SafeBasics(s);
    FieldsTell(s, c);
    FailureLog(s, c);
    if i.Readable? {
      FailureLog(Received(s, Client(c), i.packets), c);
    } else if i.Writable? {
      FailsAtStop(s, i.who, i.results);
      FailureLog(WriteAll(s, Client(c), i.results), c);
    }
  }

  lemma {:induction false} FieldsTell(s: State, c: ConnId)
    requires Safe(s) && Live(s.reg, c)
    ensures c in s.reg.conns
    ensures s.reg.conns[c].kind == Noted(s.log, c) && s.reg.conns[c].uin == Asked(s.log, c)
  {
    hide Noted, Asked, Placed, Owned, Gated;
  }

  lemma FailureLog(s: State, c: ConnId)
    requires c in s.reg.conns
    ensures var conn := s.reg.conns[c];
            ErrorHandler(s, Client(c)).log ==
              s.log + (if conn.kind == LoginOk then [AnnouncedOffline(conn.uin)] else []) + [ClosedConn(c)]
  {
    hide Dropped, Enqueue, ReleaseAll, Settles;
    assert s.log + [] == s.log;
  }

  /** After a logout, the user that the packet names is announced. */
  lemma LogoutIsAnnounced(s: State, c: ConnId, b: Block)
    requires b in s.pool.mem && c in s.reg.conns && s.reg.conns[c].kind == LoginOk
    requires s.pool.mem[b].command == CMD_LOGOUT
    ensures CmdPacket(s, c, b).log == s.log + [AnnouncedOffline(s.pool.mem[b].uin), ClosedConn(c)]
  {
    hide Dropped, Enqueue, ReleaseAll, Settles;
  }

  /** The history of connections that time out one after the other: each one's user is announced, whether
      logged in or not. */
  ghost function Farewells(log: seq<Event>, cs: seq<ConnId>): seq<Event> {
    if cs == [] then []
    else [AnnouncedOffline(Asked(log, cs[0])), ClosedConn(cs[0])] + Farewells(log, cs[1..])
  }

  lemma CloseOneLog(s: State, c: ConnId)
    requires c in s.reg.conns
    ensures CloseOne(s, c).log == s.log + [AnnouncedOffline(s.reg.conns[c].uin), ClosedConn(c)]
    ensures CloseOne(s, c).reg.conns == s.reg.conns
  {
    hide Enqueue, ReleaseAll, Settles, DropUin, Unlink;
  }

  lemma {:induction false} ClosingsLog(s: State, cs: seq<ConnId>, log: seq<Event>)
    requires AllInConns(s.reg, cs) && forall c :: c in s.reg.conns ==> s.reg.conns[c].uin == Asked(log, c)
    ensures CloseAll(s, cs).log == s.log + Farewells(log, cs)
    decreases |cs|
  {
    hide CloseOne, Asked, Settles;
    if cs == [] {
      assert s.log + [] == s.log;
    } else {
      var r := CloseOne(s, cs[0]);
      CloseOneLog(s, cs[0]);
      ClosingsLog(r, cs[1..], log);
      assert CloseAll(s, cs) == CloseAll(r, cs[1..]);
    }
  }

  /** After a pass, every connection that has timed out has been announced and closed, whether logged in or
      not: exactly those refreshed in a pass of more than one second, and those not refreshed that have been in
      the timer for CLIENT_TIMEOUT seconds. */
  lemma TimeoutsAreAnnounced(s: State, interval: nat) returns (cs: seq<ConnId>)
    requires Reachable(s) && Safe(s) && Timed(s.reg) && Backed(s.pool) && 1 <= interval <= CLIENT_TIMEOUT
    ensures Next(s, Seconds(interval)).log == s.log + Farewells(s.log, cs) && NoDup(cs)
    ensures forall c: ConnId :: c in cs <==>
              if KeptAlive(s, c) then interval > 1 else c in s.reg.ages && s.reg.ages[c] + interval >= CLIENT_TIMEOUT
  {
    cs := TimeoutList(BeforeClosing(s, interval).reg.timer);
    PassLog(s, interval);
    hide *;
    AfterPassIsStep(s, interval);
    forall c: ConnId
      ensures c in cs <==>
              if KeptAlive(s, c) then interval > 1 else c in s.reg.ages && s.reg.ages[c] + interval >= CLIENT_TIMEOUT
    {
      TimedOutExactly(s, interval, c);
    }
  }

  lemma PassLog(s: State, interval: nat)
    requires Safe(s) && Timed(s.reg) && Backed(s.pool) && 1 <= interval <= CLIENT_TIMEOUT
    ensures Sized(s.reg.timer)
    ensures var cs := TimeoutList(BeforeClosing(s, interval).reg.timer);
            NoDup(cs) && AfterPass(s, interval).log == s.log + Farewells(s.log, cs)
  {
    assert forall c :: c in s.reg.conns ==> s.reg.conns[c].uin == Asked(s.log, c);
    SafeBasics(s);
    hide Safe, Timed, KeepAllAlive, CloseAll, TimeoutList, AgesAfter, AliveList, AfterPass, Holds;
    hide AllHeld, NoDup, Asked;
    BeforeClosingSafe(s, interval);
    AfterPassIsExpiry(s, interval);
    KeepAllLogs(s.(reg := Ticked(s.reg, interval)));
    var r := BeforeClosing(s, interval);
    ClosingsLog(r, TimeoutList(r.reg.timer), s.log);
  }

  lemma TimedOutExactly(s: State, interval: nat, c: ConnId)
    requires Safe(s) && Timed(s.reg) && Backed(s.pool) && 1 <= interval <= CLIENT_TIMEOUT
    ensures Sized(s.reg.timer)
    ensures c in TimeoutList(BeforeClosing(s, interval).reg.timer) <==>
              if KeptAlive(s, c) then interval > 1 else c in s.reg.ages && s.reg.ages[c] + interval >= CLIENT_TIMEOUT
  {
    hide Safe, Timed, TimeoutList, AgesAfter, AliveList, Holds, AllHeld, NoDup, BeforeClosing, Expired;
    hide KeptAlive, Placed;
    SafeBasics(s);
    BeforeClosingSafe(s, interval);
    ExpiredAreHeld(s.reg, interval, AliveList(s));
    StaysYoung(s.reg.ages, interval, AliveList(s), c);
    HeldIsAgedHere(s.reg, c);
    AliveIsKept(s, c);
  }
}
