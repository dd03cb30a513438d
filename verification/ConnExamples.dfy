/** Runs of the connection server that break an aim, step by step: two clients that log in as one user, and
    a client that logs in a second time before the first login is answered. */
module ConnExamples {
  import opened Protocol
  import opened Sequences
  import opened TimerSpec
  import opened PacketPool
  import opened ConnRegistry
  import opened ConnHandlers
  import opened ConnSafety
  import opened ConnLosses
  import opened ConnDelivery

  function LoginPacket(uin: nat): Packet {
    Packet(PACKET_HEADER_LEN, CMD_LOGIN, uin, Bytes([]))
  }

  function GrantPacket(uin: nat): Packet {
    Packet(PACKET_HEADER_LEN, SRV_LOGIN_OK, uin, Bytes([]))
  }

  function NickPacket(uin: nat): Packet {
    Packet(PACKET_HEADER_LEN, CMD_SET_NICK, uin, Bytes([]))
  }

  function Receives(who: Ref, packet: Packet): Input {
    Readable(who, [packet], false)
  }

  /** No received packet waits to be processed. */
  ghost predicate Drained(s: State) {
    forall who: Ref :: List(s.pool, Recv(who)) == []
  }

  /** A state from which a run goes on. */
  ghost predicate Ready(s: State) {
    Safe(s) && Timed(s.reg) && Drained(s)
  }

  // ---------------------------------------------------------------- steps

  lemma ConnectStep(s: State, fd: int)
    requires Ready(s) && fd !in s.reg.byFd
    ensures Sized(s.reg.timer) && Possible(s, Connect(fd))
    ensures var r, c := Next(s, Connect(fd)), NewConn(s.reg);
            && Ready(r) && r.reg == Accepted(s.reg, fd) && r.log == s.log + [AcceptedConn(c)]
            && List(r.pool, Send(Client(c))) == []
  {
    SafeBasics(s);
    StepSafe(s, Connect(fd));
    var r := AcceptConn(s, fd);
    assert Next(s, Connect(fd)) == r;
    hide Safe, Timed;
  }

  /** A single packet arrives: p is the state in which it is handled. */
  lemma PacketStep(s: State, who: Ref, packet: Packet) returns (p: State, b: Block)
    requires Ready(s) && Open(s, who)
    ensures Possible(s, Receives(who, packet))
    ensures p.reg == s.reg && p.log == s.log && b in p.pool.mem && p.pool.mem[b] == packet
    ensures forall h: Head :: h != Free ==> List(p.pool, h) == List(s.pool, h)
    ensures IndexKnown(p.reg) && (who.Client? ==> who.id in p.reg.conns)
    ensures Next(s, Receives(who, packet)) == PacketOf(p, who, b) && Ready(PacketOf(p, who, b))
  {
    hide Safe, Timed, Live, Holds, Placed, Owned, IndexKnown, Backed, CmdPacket, SrvPacket, Enqueue;
    SafeBasics(s);
    StepSafe(s, Receives(who, packet));
    var h := Recv(who);
    b := NewBlock(s.pool);
    var q := s.(pool := Enqueue(s.pool, h, packet));
    EnqueueAlone(s.pool, h, packet);
    FirstIsOn(q.pool, h);
    p := PopFrom(q, h);
    var r := PacketOf(p, who, b);
    forall x: Ref ensures List(r.pool, Recv(x)) == [] {
      assert List(p.pool, Recv(x)) == [];
    }
    assert Process(r, who) == r && Process(q, who) == r;
  }

  lemma {:induction false} EnqueueAlone(p: Pool, h: Head, packet: Packet)
    requires h != Free && List(p, h) == []
    ensures var q, b := Enqueue(p, h, packet), NewBlock(p);
            && EnqueueAll(p, h, [packet]) == q && List(q, h) == [b] && b in q.mem && q.mem[b] == packet
            && forall k: Head :: k != Free && k != h ==> List(q, k) == List(p, k)
  {
    var q := Enqueue(p, h, packet);
    assert [packet][1..] == [];
    assert EnqueueAll(q, h, []) == q;
  }

  lemma LoginStep(s: State, c: ConnId, uin: nat)
    requires Ready(s) && Live(s.reg, c)
    ensures c in s.reg.conns && Possible(s, Receives(Client(c), LoginPacket(uin)))
    ensures var r := Next(s, Receives(Client(c), LoginPacket(uin)));
            && Ready(r) && r.reg == LoggedIn(s.reg, c, uin)
            && r.log == s.log + [LoginAsked(c, uin)] + [Forwarded(c, User, CMD_LOGIN)]
            && List(r.pool, Send(Client(c))) == List(s.pool, Send(Client(c)))
  {
    hide Ready, Settles, IndexKnown;
    var p, b := PacketStep(s, Client(c), LoginPacket(uin));
    assert PacketOf(p, Client(c), b) == CmdLogin(p, c, b);
  }

  /** The user module grants a login as a user whom the index knows. */
  lemma {:induction false} GrantStep(s: State, c: ConnId, uin: nat)
    requires Ready(s) && FindUin(s.reg.byUin, uin) == Found(c)
    ensures c in s.reg.conns && Possible(s, Receives(Backend(User), GrantPacket(uin)))
    ensures var r := Next(s, Receives(Backend(User), GrantPacket(uin)));
            && Ready(r) && r.reg == Marked(s.reg, c, LoginOk) && r.log == s.log + [LoginGranted(c, uin)]
            && exists b :: b in List(r.pool, Send(Client(c))) && b in r.pool.mem && r.pool.mem[b].uin == uin
  {
    hide Ready, Settles;
    var p, b := PacketStep(s, Backend(User), GrantPacket(uin));
    var r := PacketOf(p, Backend(User), b);
    assert r == SrvVerdict(p, b, LoginOk);
    assert b in List(r.pool, Send(Client(c)));
  }

  /** A client that counts as logged in sets its nickname. */
  lemma NickStep(s: State, c: ConnId, uin: nat)
    requires Ready(s) && Live(s.reg, c) && s.reg.conns[c].kind == LoginOk
    ensures Possible(s, Receives(Client(c), NickPacket(uin)))
    ensures var r := Next(s, Receives(Client(c), NickPacket(uin)));
            r.log == s.log + [Forwarded(c, User, CMD_SET_NICK)]
  {
    hide Ready, Settles, IndexKnown;
    var p, b := PacketStep(s, Client(c), NickPacket(uin));
    assert PacketOf(p, Client(c), b) == Forward(p, c, User, b);
  }

  lemma FaultStep(s: State, c: ConnId)
    requires Ready(s) && Live(s.reg, c) && s.reg.conns[c].kind != LoginOk
    ensures c in s.reg.conns && Possible(s, Fault(Client(c)))
    ensures var r := Next(s, Fault(Client(c))); Ready(r) && r.reg == Dropped(s.reg, c)
  {
    SafeBasics(s);
    StepSafe(s, Fault(Client(c)));
    hide Safe, Timed, Dropped;
  }

  lemma {:induction false} LeadsNowhere(s: State)
    ensures Leads(s, [], s)
  {
  }

  lemma ReadyIsSafe(s: State)
    requires Ready(s)
    ensures Safe(s) && Timed(s.reg)
  {
  }

  lemma StartReady(ip: nat, port: nat)
    ensures Ready(Start(ip, port)) && Start(ip, port).reg == EmptyRegistry() && Start(ip, port).log == []
  {
    StartSafe(ip, port);
  }

  // ---------------------------------------------------------------- a second login

  /** A client connects, asks to log in as user 7 and then as user 8. */
  ghost function AsksTwice(): seq<Input> {
    [Connect(5), Receives(Client(0), LoginPacket(7)), Receives(Client(0), LoginPacket(8))]
  }

  /** What the registry has come to by then. */
  lemma AskedTwice()
    ensures Sized(EmptyRegistry().timer) && 5 !in EmptyRegistry().byFd && NewConn(EmptyRegistry()) == 0
    ensures var r := Accepted(EmptyRegistry(), 5);
            && Live(r, 0)
            && var q := LoggedIn(r, 0, 7);
            && Live(q, 0)
            && var e := LoggedIn(q, 0, 8);
            && Live(e, 0) && e.conns[0].uin == 8
            && FindUin(e.byUin, 7) == Found(0)
            && var g := Marked(e, 0, LoginOk);
            && Live(g, 0) && g.conns[0].kind == LoginOk && g.conns[0].uin == 8
  {
  }

  /** The history by then. Nothing waits for the client: no answer has come yet. */
  lemma AskingTwice(ip: nat, port: nat) returns (s: State)
    ensures Leads(Start(ip, port), AsksTwice(), s) && Ready(s)
    ensures Sized(EmptyRegistry().timer) && 0 in Accepted(EmptyRegistry(), 5).conns
    ensures var q := LoggedIn(Accepted(EmptyRegistry(), 5), 0, 7); 0 in q.conns && s.reg == LoggedIn(q, 0, 8)
    ensures s.log == [] + [AcceptedConn(0)] + [LoginAsked(0, 7)] + [Forwarded(0, User, CMD_LOGIN)]
                     + [LoginAsked(0, 8)] + [Forwarded(0, User, CMD_LOGIN)]
    ensures List(s.pool, Send(Client(0))) == []
  {
    hide *;
    var s0 := Start(ip, port);
    AskedTwice();
    StartReady(ip, port);
    LeadsNowhere(s0);
    ReadyIsSafe(s0);
    ConnectStep(s0, 5);
    LeadsFurther(s0, [], s0, Connect(5));
    var s1 := Next(s0, Connect(5));
    ReadyIsSafe(s1);
    var first, second := Receives(Client(0), LoginPacket(7)), Receives(Client(0), LoginPacket(8));
    LoginStep(s1, 0, 7);
    LeadsFurther(s0, [] + [Connect(5)], s1, first);
    var s2 := Next(s1, first);
    ReadyIsSafe(s2);
    LoginStep(s2, 0, 8);
    LeadsFurther(s0, [] + [Connect(5)] + [first], s2, second);
    s := Next(s2, second);
    AsksInOrder();
  }

  lemma AsksInOrder()
    ensures AsksTwice() == [] + [Connect(5)] + [Receives(Client(0), LoginPacket(7))]
                           + [Receives(Client(0), LoginPacket(8))]
  {
  }

  /** Then the first login is granted. The packet is for user 7, and it is queued for a client whose field
      says 8 and who now counts as logged in: a login that is not answered yet is taken for granted. */
  lemma SecondLoginMisdirects(ip: nat, port: nat) returns (s: State, b: Block)
    ensures Leads(Start(ip, port), AsksTwice() + [Receives(Backend(User), GrantPacket(7))], s)
    ensures Ready(s) && Live(s.reg, 0) && s.reg.conns[0].uin == 8 && s.reg.conns[0].kind == LoginOk
    ensures b in List(s.pool, Send(Client(0))) && b in s.pool.mem && s.pool.mem[b].uin == 7
    ensures !Addressed(s, true)
    ensures Noted(s.log, 0) == LoginOk && Standing(s.log, 0) == LoginUncomplete
  {
    hide *;
    AskedTwice();
    var asked := AskingTwice(ip, port);
    ReadyIsSafe(asked);
    GrantStep(asked, 0, 7);
    LeadsFurther(Start(ip, port), AsksTwice(), asked, Receives(Backend(User), GrantPacket(7)));
    s := Next(asked, Receives(Backend(User), GrantPacket(7)));
    b :| b in List(s.pool, Send(Client(0))) && b in s.pool.mem && s.pool.mem[b].uin == 7;
    WrongUser(s, 0, b);
    StandsUnanswered(s.log);
  }

  lemma WrongUser(s: State, c: ConnId, b: Block)
    requires b in List(s.pool, Send(Client(c))) && b in s.pool.mem && c in s.reg.conns
    requires s.pool.mem[b].uin != s.reg.conns[c].uin
    ensures !Addressed(s, true)
  {
    assert On(s.pool, Send(Client(c)), b) && Waits(Send(Client(c))) && !Proper(s, Send(Client(c)), b, true);
  }

  /** By the history, the latest login is unanswered, though a grant has been noted. */
  lemma {:induction false} StandsUnanswered(log: seq<Event>)
    requires log == [] + [AcceptedConn(0)] + [LoginAsked(0, 7)] + [Forwarded(0, User, CMD_LOGIN)]
                    + [LoginAsked(0, 8)] + [Forwarded(0, User, CMD_LOGIN)] + [LoginGranted(0, 7)]
    ensures Noted(log, 0) == LoginOk && Standing(log, 0) == LoginUncomplete
  {
    var l1: seq<Event> := [] + [AcceptedConn(0)];
    var l2 := l1 + [LoginAsked(0, 7)];
    var l3 := l2 + [Forwarded(0, User, CMD_LOGIN)];
    var l4 := l3 + [LoginAsked(0, 8)];
    var l5 := l4 + [Forwarded(0, User, CMD_LOGIN)];
    hide Noted, Asked, Standing;
    HistoryAfter(l3, LoginAsked(0, 8), 0);
    HistoryAfter(l4, Forwarded(0, User, CMD_LOGIN), 0);
    HistoryAfter(l5, LoginGranted(0, 7), 0);
  }

  /** And what the client sends from then on is forwarded, while nobody has answered its latest login. */
  lemma UngrantedIsForwarded(ip: nat, port: nat) returns (s: State, i: nat)
    ensures Reachable(s) && i < |s.log| && s.log[i] == Forwarded(0, User, CMD_SET_NICK)
    ensures Standing(s.log[..i], 0) == LoginUncomplete
  {
    hide *;
    var granted, b := SecondLoginMisdirects(ip, port);
    ReadyIsSafe(granted);
    NickStep(granted, 0, 8);
    s := Next(granted, Receives(Client(0), NickPacket(8)));
    var run := AsksTwice() + [Receives(Backend(User), GrantPacket(7))];
    LeadsFurther(Start(ip, port), run, granted, Receives(Client(0), NickPacket(8)));
    IsReachable(ip, port, run + [Receives(Client(0), NickPacket(8))], s);
    i := |granted.log|;
    assert s.log[..i] == granted.log;
  }

  lemma {:induction false} IsReachable(ip: nat, port: nat, run: seq<Input>, s: State)
    requires Leads(Start(ip, port), run, s)
    ensures Reachable(s)
  {
    hide Leads, Start;
  }

  // ---------------------------------------------------------------- two logins as one user

  /** Two clients connect and log in as the same user, and the first one fails. */
  ghost function TwoLogins(): seq<Input> {
    [Connect(5), Connect(6), Receives(Client(0), LoginPacket(7)), Receives(Client(1), LoginPacket(7)),
     Fault(Client(0))]
  }

  /** What the registry has come to. */
  lemma BothAsked()
    ensures Sized(EmptyRegistry().timer)
    ensures var r := Accepted(EmptyRegistry(), 5);
            && 5 !in EmptyRegistry().byFd && Sized(r.timer) && 6 !in r.byFd
            && var q := Accepted(r, 6);
            && Live(q, 0)
            && var o := LoggedIn(q, 0, 7);
            && Live(o, 1)
            && var e := LoggedIn(o, 1, 7);
            && Live(e, 0) && e.conns[0].kind != LoginOk
            && var d := Dropped(e, 0);
            && !Live(d, 0) && d.byUin == [UinEntry(7, 0)] && 0 in d.conns
            && var m := Marked(d, 0, LoginOk);
            && NewConn(m) == 0 && 9 !in m.byFd
  {
  }

  /** That run leaves an index entry that leads to the closed connection: NothingLeadsToClosed does not hold
      of every run. */
  lemma ClosedStaysIndexed(ip: nat, port: nat) returns (s: State)
    ensures Leads(Start(ip, port), TwoLogins(), s) && Ready(s)
    ensures !Live(s.reg, 0) && FindUin(s.reg.byUin, 7) == Found(0) && Reaches(s.reg.byUin, 0)
    ensures 0 in s.reg.conns && NewConn(Marked(s.reg, 0, LoginOk)) == 0 && 9 !in s.reg.byFd
  {
    hide *;
    var s0 := Start(ip, port);
    BothAsked();
    StartReady(ip, port);
    LeadsNowhere(s0);
    ReadyIsSafe(s0);
    ConnectStep(s0, 5);
    LeadsFurther(s0, [], s0, Connect(5));
    var s1 := Next(s0, Connect(5));
    ReadyIsSafe(s1);
    ConnectStep(s1, 6);
    LeadsFurther(s0, [] + [Connect(5)], s1, Connect(6));
    var s2 := Next(s1, Connect(6));
    ReadyIsSafe(s2);
    var first, second := Receives(Client(0), LoginPacket(7)), Receives(Client(1), LoginPacket(7));
    LoginStep(s2, 0, 7);
    LeadsFurther(s0, [] + [Connect(5)] + [Connect(6)], s2, first);
    var s3 := Next(s2, first);
    ReadyIsSafe(s3);
    LoginStep(s3, 1, 7);
    LeadsFurther(s0, [] + [Connect(5)] + [Connect(6)] + [first], s3, second);
    var s4 := Next(s3, second);
    ReadyIsSafe(s4);
    FaultStep(s4, 0);
    LeadsFurther(s0, [] + [Connect(5)] + [Connect(6)] + [first] + [second], s4, Fault(Client(0)));
    s := Next(s4, Fault(Client(0)));
    EntryReaches(s.reg, 7, 0);
    MarkKeepsSockets(s.reg, 0, LoginOk);
    TwoInOrder();
  }

  lemma {:induction false} EntryReaches(r: Registry, uin: nat, c: ConnId)
    requires r.byUin == [UinEntry(uin, c)]
    ensures FindUin(r.byUin, uin) == Found(c) && Reaches(r.byUin, c)
  {
    assert r.byUin[0].conn == c;
  }

  lemma MarkKeepsSockets(r: Registry, c: ConnId, kind: LoginType)
    requires c in r.conns
    ensures Marked(r, c, kind).byFd == r.byFd
  {
  }

  lemma TwoInOrder()
    ensures TwoLogins() == [] + [Connect(5)] + [Connect(6)] + [Receives(Client(0), LoginPacket(7))]
                           + [Receives(Client(1), LoginPacket(7))] + [Fault(Client(0))]
  {
  }

  /** When the login is granted afterwards, the answer is queued on the released structure, and the next
      client to connect is handed that structure: the packet is lost. */
  lemma ReleasedStructureLoses(ip: nat, port: nat) returns (s: State)
    ensures Leads(Start(ip, port), TwoLogins() + [Receives(Backend(User), GrantPacket(7))], s)
    ensures Safe(s) && Possible(s, Connect(9)) && Loses(s, Connect(9))
  {
    hide *;
    var closed := ClosedStaysIndexed(ip, port);
    ReadyIsSafe(closed);
    GrantStep(closed, 0, 7);
    LeadsFurther(Start(ip, port), TwoLogins(), closed, Receives(Backend(User), GrantPacket(7)));
    s := Next(closed, Receives(Backend(User), GrantPacket(7)));
    ReadyIsSafe(s);
    MarkKeepsSockets(closed.reg, 0, LoginOk);
    QueueIsLost(s, 0, 9);
  }

  lemma QueueIsLost(s: State, c: ConnId, fd: int)
    requires Safe(s) && NewConn(s.reg) == c && List(s.pool, Send(Client(c))) != [] && fd !in s.reg.byFd
    ensures Possible(s, Connect(fd)) && Loses(s, Connect(fd))
  {
    hide Safe;
  }
}
