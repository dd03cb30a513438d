/** What the connection server does with packets and connections, as functions on its state. */
module ConnHandlers {
  import opened Protocol
  import opened Sequences
  import opened TimerSpec
  import opened PacketPool
  import opened ConnRegistry

  const STATUS_CHANGE_LENGTH := 24
  const STATUS_CHANGE_OFFLINE := 0
  const CONN_INFO_LENGTH := 18

  // ---------------------------------------------------------------- state and history

  /** What happened, in order. A login is asked for as a user, and a verdict names the user it is about. A
      packet is forwarded for a client to one of the back-end modules. */
  datatype Event =
    | AcceptedConn(conn: ConnId)
    | LoginAsked(conn: ConnId, uin: nat)
    | LoginGranted(conn: ConnId, uin: nat)
    | LoginRefused(conn: ConnId, uin: nat)
    | ClosedConn(conn: ConnId)
    | Forwarded(conn: ConnId, side: Side, command: nat)
    | AnnouncedOffline(uin: nat)

  datatype State = State(pool: Pool, reg: Registry, log: seq<Event>)

  ghost function Logged(s: State, e: Event): State {
    s.(log := s.log + [e])
  }

  /** A handler adds nothing to a receive list or to the index by socket, and forgets no block and no
      connection structure. */
  ghost predicate Settles(s: State, r: State) {
    && r.reg.conns.Keys == s.reg.conns.Keys && r.reg.byFd.Keys <= s.reg.byFd.Keys
    && s.pool.mem.Keys <= r.pool.mem.Keys
    && (IndexKnown(s.reg) ==> IndexKnown(r.reg))
    && (Backed(s.pool) ==> Backed(r.pool))
    && forall k: Head :: k.Recv? ==> |List(r.pool, k)| <= |List(s.pool, k)|
  }

  // ---------------------------------------------------------------- handlers

  function OfflinePacket(uin: nat): Packet {
    Packet(STATUS_CHANGE_LENGTH, CMD_STATUS_CHANGE, uin, StatusChange(uin, STATUS_CHANGE_OFFLINE))
  }

  ghost function SendOffline(s: State, uin: nat): (r: State)
    ensures Settles(s, r)
  {
    Logged(s.(pool := Enqueue(s.pool, Send(Backend(Status)), OfflinePacket(uin))), AnnouncedOffline(uin))
  }

  ghost function CloseConnection(s: State, c: ConnId): (r: State)
    requires c in s.reg.conns
    ensures Settles(s, r)
  {
    Logged(s.(reg := Dropped(s.reg, c), pool := ReleaseAll(ReleaseAll(s.pool, Recv(Client(c))), Send(Client(c)))),
           ClosedConn(c))
  }

  ghost function AllocatorFree(s: State, b: Block): (r: State)
    requires b in s.pool.mem
    ensures forall k: Head :: k != Free ==> List(r.pool, k) == List(s.pool, k)
    ensures Settles(s, r)
  {
    s.(pool := Release(s.pool, b))
  }

  ghost function Forward(s: State, c: ConnId, side: Side, b: Block): (r: State)
    requires b in s.pool.mem
    ensures Settles(s, r)
  {
    Logged(s.(pool := Push(s.pool, Send(Backend(side)), b)), Forwarded(c, side, s.pool.mem[b].command))
  }

  ghost function CmdLogin(s: State, c: ConnId, b: Block): (r: State)
    requires b in s.pool.mem && c in s.reg.conns
    ensures Settles(s, r)
  {
    var uin := s.pool.mem[b].uin;
    Forward(Logged(s.(reg := LoggedIn(s.reg, c, uin)), LoginAsked(c, uin)), c, User, b)
  }

  /** The packet is released first, and the user's number read from it afterwards. */
  ghost function CmdLogout(s: State, c: ConnId, b: Block): (r: State)
    requires b in s.pool.mem && c in s.reg.conns
    ensures Settles(s, r)
  {
    var freed := AllocatorFree(s, b);
    CloseConnection(SendOffline(freed, freed.pool.mem[b].uin), c)
  }

  predicate IsContactCommand(command: nat) {
    command in {CMD_ADD_CONTACT, CMD_ADD_CONTACT_REPLY, CMD_CONTACT_LIST, CMD_CONTACT_INFO_MULTI}
  }

  predicate IsMessageCommand(command: nat) {
    command in {CMD_MESSAGE, CMD_OFFLINE_MSG}
  }

  /** A packet from a client. An unknown command leaves the packet on no list at all. */
  ghost function CmdPacket(s: State, c: ConnId, b: Block): (r: State)
    requires b in s.pool.mem && c in s.reg.conns
    ensures Settles(s, r)
  {
    var command := s.pool.mem[b].command;
    if s.reg.conns[c].kind != LoginOk && command != CMD_LOGIN then AllocatorFree(s, b)
    else if command == CMD_KEEP_ALIVE then s.(pool := Push(s.pool, KeepAlive, b))
    else if command == CMD_LOGIN then CmdLogin(s, c, b)
    else if command == CMD_LOGOUT then CmdLogout(s, c, b)
    else if command == CMD_SET_NICK then Forward(s, c, User, b)
    else if IsContactCommand(command) then Forward(s, c, Contact, b)
    else if IsMessageCommand(command) then Forward(s, c, Message, b)
    else s
  }

  ghost function Verdict(c: ConnId, uin: nat, kind: LoginType): Event {
    if kind == LoginOk then LoginGranted(c, uin) else LoginRefused(c, uin)
  }

  /** The verdict on a login is noted and passed on to the client. */
  ghost function SrvVerdict(s: State, b: Block, kind: LoginType): (r: State)
    requires b in s.pool.mem && IndexKnown(s.reg)
    ensures Settles(s, r)
  {
    var uin := s.pool.mem[b].uin;
    match FindUin(s.reg.byUin, uin)
    case Missing => AllocatorFree(s, b)
    case Found(c) =>
      Logged(State(Push(s.pool, Send(Client(c)), b), Marked(s.reg, c, kind), s.log), Verdict(c, uin, kind))
  }

  ghost function SrvOther(s: State, b: Block): (r: State)
    requires b in s.pool.mem && IndexKnown(s.reg)
    ensures Settles(s, r)
  {
    match FindUin(s.reg.byUin, s.pool.mem[b].uin)
    case Missing => AllocatorFree(s, b)
    case Found(c) =>
      if s.reg.conns[c].kind != LoginOk then AllocatorFree(s, b)
      else s.(pool := Push(s.pool, Send(Client(c)), b))
  }

  predicate IsOtherReply(command: nat) {
    command in {SRV_SET_NICK_OK, SRV_ADD_CONTACT_WAIT, SRV_CONTACT_LIST, SRV_CONTACT_INFO_MULTI, SRV_MESSAGE,
                SRV_OFFLINE_MSG, SRV_OFFLINE_MSG_DONE}
  }

  /** A packet from a back-end module. */
  ghost function SrvPacket(s: State, b: Block): (r: State)
    requires b in s.pool.mem && IndexKnown(s.reg)
    ensures Settles(s, r)
  {
    var command := s.pool.mem[b].command;
    if command == SRV_ERROR then SrvVerdict(s, b, LoginError)
    else if command == SRV_LOGIN_OK then SrvVerdict(s, b, LoginOk)
    else if IsOtherReply(command) then SrvOther(s, b)
    else s
  }

  ghost function PacketOf(s: State, who: Ref, b: Block): (r: State)
    requires b in s.pool.mem && IndexKnown(s.reg) && (who.Client? ==> who.id in s.reg.conns)
    ensures Settles(s, r)
  {
    if who.Backend? then SrvPacket(s, b) else CmdPacket(s, who.id, b)
  }

  ghost function PopFrom(s: State, h: Head): (r: State)
    requires List(s.pool, h) != []
    ensures Settles(s, r) && |List(r.pool, h)| < |List(s.pool, h)|
  {
    assert forall b :: b in List(s.pool, h)[1..] ==> b in List(s.pool, h);
    s.(pool := Pop(s.pool, h))
  }

  /** Takes every packet off a connection's receive list and handles it. */
  ghost function Process(s: State, who: Ref): (r: State)
    requires Backed(s.pool) && IndexKnown(s.reg) && (who.Client? ==> who.id in s.reg.conns)
    ensures Settles(s, r)
    decreases |List(s.pool, Recv(who))|
  {
    var list := List(s.pool, Recv(who));
    if list == [] then s
    else
      assert On(s.pool, Recv(who), list[0]);
      Process(PacketOf(PopFrom(s, Recv(who)), who, list[0]), who)
  }

  /** A connection that fails is closed, after its user has been announced offline; a failing connection
      to a back-end module is left as it is. */
  ghost function ErrorHandler(s: State, who: Ref): State
    requires who.Client? ==> who.id in s.reg.conns
  {
    if who.Backend? then s
    else
      var conn := s.reg.conns[who.id];
      CloseConnection(if conn.kind == LoginOk then SendOffline(s, conn.uin) else s, who.id)
  }

  ghost function ReadHandler(s: State, who: Ref, packets: seq<Packet>, err: bool): State
    requires Backed(s.pool) && IndexKnown(s.reg) && (who.Client? ==> who.id in s.reg.conns)
  {
    var received := s.(pool := EnqueueAll(s.pool, Recv(who), packets));
    if err then ErrorHandler(received, who) else Process(received, who)
  }

  /** The outcome of one write to a socket. */
  datatype WriteResult = Wrote | WouldBlock | Failed

  /** Writes the send list. The packet at which a write stops has left the list and is on no other. */
  ghost function WriteAll(s: State, who: Ref, results: seq<WriteResult>): (r: State)
    requires Backed(s.pool)
    ensures r.reg == s.reg && r.log == s.log && Backed(r.pool)
    decreases |List(s.pool, Send(who))|
  {
    var list := List(s.pool, Send(who));
    if list == [] then s
    else
      assert On(s.pool, Send(who), list[0]);
      var popped := PopFrom(s, Send(who));
      if results == [] || results[0] == Wrote
      then WriteAll(AllocatorFree(popped, list[0]), who, if results == [] then [] else results[1..])
      else popped
  }

  /** Whether the writing stopped at an error. */
  ghost predicate WriteFails(s: State, who: Ref, results: seq<WriteResult>) {
    exists i :: 0 <= i < |results| && i < |List(s.pool, Send(who))| && results[i] == Failed
                && forall j :: 0 <= j < i ==> results[j] == Wrote
  }

  ghost function WriteHandler(s: State, who: Ref, results: seq<WriteResult>): State
    requires Backed(s.pool) && (who.Client? ==> who.id in s.reg.conns)
  {
    var written := WriteAll(s, who, results);
    if WriteFails(s, who, results) then ErrorHandler(written, who) else written
  }

  ghost function AcceptConn(s: State, fd: int): State
    requires Sized(s.reg.timer)
  {
    var c := NewConn(s.reg);
    Logged(s.(reg := Accepted(s.reg, fd), pool := Emptied(Emptied(s.pool, Recv(Client(c))), Send(Client(c)))),
           AcceptedConn(c))
  }

  // ---------------------------------------------------------------- the expiry pass

  /** The connections that a list of keep-alive packets names; a user who is gone is skipped. */
  ghost function AliveConns(es: seq<UinEntry>, mem: map<Block, Packet>, blocks: seq<Block>): seq<ConnId>
    requires forall i :: 0 <= i < |blocks| ==> blocks[i] in mem
  {
    if blocks == [] then []
    else
      match FindUin(es, mem[blocks[0]].uin)
      case Missing => AliveConns(es, mem, blocks[1..])
      case Found(c) => [c] + AliveConns(es, mem, blocks[1..])
  }

  ghost function AliveList(s: State): seq<ConnId>
    requires Backed(s.pool)
  {
    assert forall i :: 0 <= i < |List(s.pool, KeepAlive)| ==> On(s.pool, KeepAlive, List(s.pool, KeepAlive)[i]);
    AliveConns(s.reg.byUin, s.pool.mem, List(s.pool, KeepAlive))
  }

  /** One keep-alive packet: its block is released and its sender's timer refreshed. */
  ghost function KeepOneAlive(s: State): (r: State)
    requires Sized(s.reg.timer) && Backed(s.pool) && List(s.pool, KeepAlive) != []
    ensures Sized(r.reg.timer) && Backed(r.pool) && |List(r.pool, KeepAlive)| < |List(s.pool, KeepAlive)|
  {
    var b := List(s.pool, KeepAlive)[0];
    assert On(s.pool, KeepAlive, b);
    var freed := AllocatorFree(PopFrom(s, KeepAlive), b);
    match FindUin(s.reg.byUin, s.pool.mem[b].uin)
    case Missing => freed
    case Found(c) => freed.(reg := Refreshed(s.reg, c))
  }

  ghost function KeepAllAlive(s: State): (r: State)
    requires Sized(s.reg.timer) && Backed(s.pool)
    ensures Sized(r.reg.timer) && Backed(r.pool)
    decreases |List(s.pool, KeepAlive)|
  {
    if List(s.pool, KeepAlive) == [] then s else KeepAllAlive(KeepOneAlive(s))
  }

  ghost function CloseOne(s: State, c: ConnId): State
    requires c in s.reg.conns
  {
    CloseConnection(SendOffline(s, s.reg.conns[c].uin), c)
  }

  ghost function CloseAll(s: State, cs: seq<ConnId>): State
    requires AllInConns(s.reg, cs)
    decreases |cs|
  {
    if cs == [] then s else CloseAll(CloseOne(s, cs[0]), cs[1..])
  }

  /** The state in which the expired connections are collected. */
  ghost function BeforeClosing(s: State, interval: nat): (r: State)
    requires Sized(s.reg.timer) && Backed(s.pool)
    ensures Sized(r.reg.timer)
  {
    KeepAllAlive(s.(reg := Ticked(s.reg, interval)))
  }

  ghost function TimerExpireTime(s: State, interval: nat): State
    requires Sized(s.reg.timer) && Backed(s.pool)
    requires var r := BeforeClosing(s, interval); AllInConns(r.reg, TimeoutList(r.reg.timer))
  {
    var r := BeforeClosing(s, interval);
    var q := CloseAll(r, TimeoutList(r.reg.timer));
    q.(reg := q.reg.(ages := AgesAfter(s.reg.ages, interval, AliveList(s))))
  }

  // ---------------------------------------------------------------- the login gate

  function AskedBy(e: Event, c: ConnId, before: nat): nat {
    match e
    case AcceptedConn(x) => if x == c then 0 else before
    case LoginAsked(x, uin) => if x == c then uin else before
    case _ => before
  }

  /** The user as whom a connection has last asked to log in. */
  ghost function Asked(log: seq<Event>, c: ConnId): nat {
    if log == [] then 0 else AskedBy(log[|log| - 1], c, Asked(log[..|log| - 1], c))
  }

  function NotedBy(e: Event, c: ConnId, before: LoginType): LoginType {
    match e
    case AcceptedConn(x) => if x == c then NotLogin else before
    case LoginAsked(x, _) => if x == c then LoginUncomplete else before
    case LoginGranted(x, _) => if x == c then LoginOk else before
    case LoginRefused(x, _) => if x == c then LoginError else before
    case ClosedConn(x) => if x == c then NotLogin else before
    case _ => before
  }

  /** What has been noted at a connection: every verdict counts, whomever it is about. */
  ghost function Noted(log: seq<Event>, c: ConnId): LoginType {
    if log == [] then NotLogin else NotedBy(log[|log| - 1], c, Noted(log[..|log| - 1], c))
  }

  /** A verdict is about the user as whom the connection has last asked to log in. */
  ghost predicate Fits(log: seq<Event>, e: Event) {
    e.LoginGranted? || e.LoginRefused? ==> e.uin == Asked(log, e.conn)
  }

  ghost predicate Fitting(log: seq<Event>) {
    forall i :: 0 <= i < |log| ==> Fits(log[..i], log[i])
  }

  /** What a connection's latest login came to: only verdicts on that login count. */
  ghost function Standing(log: seq<Event>, c: ConnId): LoginType {
    if log == [] then NotLogin
    else
      var e, before := log[|log| - 1], log[..|log| - 1];
      if Fits(before, e) then NotedBy(e, c, Standing(before, c)) else Standing(before, c)
  }

  /** Apart from login requests, packets are forwarded only for connections at which a granted login has
      been noted, and no refusal or request since. */
  ghost predicate Gated(log: seq<Event>) {
    forall i :: 0 <= i < |log| && log[i].Forwarded? && log[i].command != CMD_LOGIN ==>
      Noted(log[..i], log[i].conn) == LoginOk
  }

  lemma {:induction false} HistoryAfter(log: seq<Event>, e: Event, c: ConnId)
    ensures Noted(log + [e], c) == NotedBy(e, c, Noted(log, c))
    ensures Asked(log + [e], c) == AskedBy(e, c, Asked(log, c))
    ensures Standing(log + [e], c) == if Fits(log, e) then NotedBy(e, c, Standing(log, c)) else Standing(log, c)
  {
    assert (log + [e])[..|log|] == log;
  }

  lemma {:induction false} GatedAfter(log: seq<Event>, e: Event)
    requires Gated(log) && (e.Forwarded? && e.command != CMD_LOGIN ==> Noted(log, e.conn) == LoginOk)
    ensures Gated(log + [e])
  {
    var q := log + [e];
    forall i | 0 <= i < |q| && q[i].Forwarded? && q[i].command != CMD_LOGIN
      ensures Noted(q[..i], q[i].conn) == LoginOk
    {
      if i < |log| {
        assert q[..i] == log[..i];
      } else {
        assert q[..i] == log;
      }
    }
  }

  lemma FittingAfter(log: seq<Event>, e: Event)
    ensures Fitting(log + [e]) <==> Fitting(log) && Fits(log, e)
  {
    var q := log + [e];
    assert q[..|log|] == log && q[|log|] == e;
    forall i | 0 <= i < |log| ensures Fits(q[..i], q[i]) <==> Fits(log[..i], log[i]) {
      assert q[..i] == log[..i] && q[i] == log[i];
    }
    hide Fits;
    if Fitting(q) {
      forall i | 0 <= i < |log| ensures Fits(log[..i], log[i]) {
        assert Fits(q[..i], q[i]);
      }
      assert Fits(q[..|log|], q[|log|]);
    }
  }

  /** If every verdict fits, what is noted at a connection is what its latest login came to. */
  lemma {:induction false} StandingIsNoted(log: seq<Event>, c: ConnId)
    requires Fitting(log)
    ensures Standing(log, c) == Noted(log, c)
  {
    if log != [] {
      var e, before := log[|log| - 1], log[..|log| - 1];
      assert log == before + [e];
      FittingAfter(before, e);
      StandingIsNoted(before, c);
    }
  }

  // ---------------------------------------------------------------- what happens to the server

  /** An event comes from an open connection or from a module. */
  ghost predicate Open(s: State, who: Ref) {
    who.Client? ==> Live(s.reg, who.id)
  }

  /** What the world does to the server. An event on a socket that leads to no connection is answered by
      closing the socket, which changes nothing here. When the hash table that indexes the users has more
      buckets made, entries of one user may come to stand in another order. */
  datatype Input =
    | Connect(fd: int)
    | Readable(who: Ref, packets: seq<Packet>, err: bool)
    | Writable(who: Ref, results: seq<WriteResult>)
    | Fault(who: Ref)
    | Seconds(interval: nat)
    | Rehashed(entries: seq<UinEntry>)

  /** What the operating system sees to: a new connection's socket is one not in use, and events come from
      open connections. Passes follow each other within the timeout, which the program asserts. */
  ghost predicate Possible(s: State, i: Input) {
    match i
    case Connect(fd) => fd !in s.reg.byFd
    case Readable(who, _, _) => Open(s, who)
    case Writable(who, _) => Open(s, who)
    case Fault(who) => Open(s, who)
    case Seconds(interval) => interval <= CLIENT_TIMEOUT
    case Rehashed(entries) => multiset(entries) == multiset(s.reg.byUin)
  }

  function ConnInfoPacket(ip: nat, port: nat): Packet {
    Packet(CONN_INFO_LENGTH, CMD_CONN_INFO, 0, ConnInfo(ip, port))
  }

  /** The state in which the event loop starts: the message module is about to be told the address that
      clients connect to. */
  ghost function Start(ip: nat, port: nat): State {
    State(Enqueue(Pool(map[], map[], 0), Send(Backend(Message)), ConnInfoPacket(ip, port)), EmptyRegistry(), [])
  }
}
