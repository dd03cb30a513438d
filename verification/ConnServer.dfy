/** The connection server as a program: its fields, and the handlers that change them. Packet blocks are
    linked into rings; every handler is proved to do to the rings, the indexes and the timer what
    ConnHandlers says it does to the lists. */
module ConnServer {
  import opened Protocol
  import opened TimerSpec
  import opened PacketPool
  import opened PacketQueues
  import opened ConnRegistry
  import opened ConnHandlers
  import opened ConnSafety

  /** The connection a socket leads to. */
  datatype Target = Nobody | Conn(who: Ref)

  /** The list heads of the server itself, of the modules' connections and of the structures handed out. */
  ghost predicate InUse(conns: map<ConnId, Connection>, h: Head) {
    (h.Recv? || h.Send?) && h.who.Client? ==> h.who.id in conns
  }

  ghost predicate Headed(conns: map<ConnId, Connection>, heads: set<Head>) {
    forall h: Head :: InUse(conns, h) ==> h in heads
  }

  class Server {
    const userFd: int
    const contactFd: int
    const statusFd: int
    const messageFd: int
    /** The packet blocks and the rings they are in. */
    const q: Queues
    /** The connection structures, and those the allocator may hand out again. */
    var conns: map<ConnId, Connection>
    var connFree: seq<ConnId>
    var nextConn: ConnId
    var fdConnMap: map<int, ConnId>
    var uinConnMap: seq<UinEntry>
    var timer: Wheel<ConnId>
    /** History. */
    ghost var ages: map<ConnId, nat>
    ghost var log: seq<Event>

    ghost function Reg(): Registry
      reads this
    {
      Registry(conns, connFree, nextConn, fdConnMap, uinConnMap, timer, ages)
    }

    ghost function View(): State
      reads this, q
    {
      State(q.View(), Reg(), log)
    }

    /** The rings are in order, and every list that a handler may use has its head. */
    ghost predicate Ready()
      reads `conns, q, q.repr
    {
      q.Valid() && Headed(conns, q.heads.Keys)
    }

    lemma ReadyBasics()
      requires Ready()
      ensures q.Valid() && Owned(View().pool) && Backed(View().pool)
    {
      q.ValidOwned();
    }

    lemma HasHead(h: Head)
      requires Ready() && InUse(conns, h)
      ensures q.Valid() && h in q.heads
    {
    }

    constructor (userFd: int, contactFd: int, statusFd: int, messageFd: int, ip: nat, port: nat)
      ensures Ready() && View() == Start(ip, port) && Safe(View()) && Timed(View().reg)
      ensures this.userFd == userFd && this.contactFd == contactFd
      ensures this.statusFd == statusFd && this.messageFd == messageFd
      ensures fresh(q) && fresh(q.repr)
    {
      var queues := NewQueues();
      this.userFd, this.contactFd, this.statusFd, this.messageFd := userFd, contactFd, statusFd, messageFd;
      q := queues;
      conns, connFree, nextConn, fdConnMap, uinConnMap := map[], [], 0, map[], [];
      timer, ages, log := InitialWheel(), map[], [];
      new;
      StartSafe(ip, port);
      assert Ready();
      hide Safe, Timed, Queues.Valid, Headed, Enqueue;
      SendConnInfoToMessage(ip, port);
    }

    /** Tells the message module the address that clients connect to. */
    method SendConnInfoToMessage(ip: nat, port: nat)
      requires Ready()
      modifies q, q.repr
      ensures Ready() && fresh(q.repr - old(q.repr))
      ensures var p := old(View()).pool;
              View() == old(View()).(pool := Enqueue(p, Send(Backend(Message)), ConnInfoPacket(ip, port)))
    {
      NewPacket(Send(Backend(Message)), ConnInfoPacket(ip, port));
    }

    /** Adds to the history. */
    ghost method Log(e: Event)
      requires Ready()
      modifies `log
      ensures Ready() && View() == Logged(old(View()), e)
    {
      hide Queues.Valid, Headed, Queues.View;
      log := log + [e];
    }

    // -------------------------------------------------------------- rings

    method NewPacket(h: Head, packet: Packet)
      requires Ready() && InUse(conns, h)
      modifies q, q.repr
      ensures Ready() && fresh(q.repr - old(q.repr))
      ensures View() == old(View()).(pool := Enqueue(old(View()).pool, h, packet))
    {
      hide Queues.Valid, Queues.View, Enqueue;
      HasHead(h);
      q.NewPacket(h, packet);
    }

    method ListAddTail(h: Head, b: Block)
      requires Ready() && InUse(conns, h) && Loose(View().pool, b)
      modifies q, q.repr
      ensures Ready() && q.repr == old(q.repr)
      ensures View() == old(View()).(pool := Push(old(View()).pool, h, b)) && q.mem == old(q.mem)
    {
      hide Queues.Valid, Queues.View, Loose;
      HasHead(h);
      q.AddTail(h, b);
    }

    method ListEmpty(h: Head) returns (empty: bool)
      requires Ready() && InUse(conns, h)
      ensures empty <==> List(View().pool, h) == []
    {
      hide Queues.Valid, Queues.View;
      HasHead(h);
      empty := q.IsEmpty(h);
    }

    method ListPop(h: Head) returns (b: Block)
      requires Ready() && List(View().pool, h) != []
      modifies q, q.repr
      ensures Ready() && q.repr == old(q.repr)
      ensures b == List(old(View()).pool, h)[0] && View() == PopFrom(old(View()), h) && Loose(View().pool, b)
    {
      hide Queues.Valid, Queues.View, Loose, List;
      b := q.PopFirst(h);
    }

    method AllocatorFree(b: Block)
      requires Ready() && Loose(View().pool, b)
      modifies q, q.repr
      ensures Ready() && q.repr == old(q.repr)
      ensures b in old(View()).pool.mem && View() == ConnHandlers.AllocatorFree(old(View()), b) && q.mem == old(q.mem)
    {
      hide Queues.Valid, Queues.View, Loose, Release;
      LooseInMem(View().pool, b);
      q.FreeBlock(b);
    }

    // -------------------------------------------------------------- lookups

    method GetConnByUin(uin: nat) returns (r: Lookup)
      ensures r == FindUin(uinConnMap, uin)
    {
      var i := 0;
      while i < |uinConnMap|
        invariant 0 <= i <= |uinConnMap| && FindUin(uinConnMap, uin) == FindUin(uinConnMap[i..], uin)
      {
        if uinConnMap[i].uin == uin {
          return Found(uinConnMap[i].conn);
        }
        i := i + 1;
      }
      r := Missing;
    }

    function TargetOf(fd: int): Target
      reads this
    {
      if fd == userFd then Conn(Backend(User))
      else if fd == contactFd then Conn(Backend(Contact))
      else if fd == statusFd then Conn(Backend(Status))
      else if fd == messageFd then Conn(Backend(Message))
      else if fd in fdConnMap then Conn(Client(fdConnMap[fd]))
      else Nobody
    }

    // -------------------------------------------------------------- closing

    method ReleaseList(h: Head)
      requires Ready() && InUse(conns, h) && h != Free
      modifies q, q.repr
      ensures Ready() && q.repr == old(q.repr)
      ensures View() == old(View()).(pool := ReleaseAll(old(View()).pool, h))
    {
      hide Ready, List, Pop, Release, Owned, Loose, Settles;
      var empty := ListEmpty(h);
      while !empty
        invariant Ready() && q.repr == old(q.repr) && (empty <==> List(View().pool, h) == [])
        invariant View() == old(View()).(pool := View().pool)
        invariant ReleaseAll(View().pool, h) == ReleaseAll(old(View()).pool, h)
        decreases |List(View().pool, h)|
      {
        ghost var before := View();
        ReadyBasics();
        FirstIsOn(before.pool, h);
        var p := ListPop(h);
        AllocatorFree(p);
        ReleaseStep(before.pool, h);
        empty := ListEmpty(h);
      }
    }

    /** Removes a connection's packets. */
    method ConnDestroy(c: ConnId)
      requires Ready() && c in conns
      modifies q, q.repr
      ensures Ready() && q.repr == old(q.repr)
      ensures View() ==
              old(View()).(pool := ReleaseAll(ReleaseAll(old(View()).pool, Recv(Client(c))), Send(Client(c))))
    {
      hide Ready, ReleaseAll, List;
      ReleaseList(Recv(Client(c)));
      ReleaseList(Send(Client(c)));
    }

    /** Takes a connection out of both indexes and the timer. */
    method Unregister(c: ConnId)
      requires c in conns
      modifies this`fdConnMap, this`uinConnMap, this`timer
      ensures fdConnMap == old(fdConnMap) - {conns[c].sfd}
      ensures uinConnMap == DropUin(old(uinConnMap), conns[c].uin) && timer == Unlink(old(timer), c)
    {
      if conns[c].sfd in fdConnMap {
        fdConnMap := fdConnMap - {conns[c].sfd};
      }
      uinConnMap := DropUin(uinConnMap, conns[c].uin);
      timer := Unlink(timer, c);
    }

    method CloseConnection(c: ConnId)
      requires Ready() && c in conns
      modifies this, q, q.repr
      ensures Ready() && q.repr == old(q.repr)
      ensures View() == ConnHandlers.CloseConnection(old(View()), c)
    {
      hide ReleaseAll, List, Unlink, DropUin, Queues.Valid, Queues.View, Headed;
      Unregister(c);
      ConnDestroy(c);
      connFree := [c] + connFree;
      ages, log := ages - {c}, log + [ClosedConn(c)];
    }

    method SendOfflineToStatus(uin: nat)
      requires Ready()
      modifies this`log, q, q.repr
      ensures Ready() && fresh(q.repr - old(q.repr))
      ensures View() == SendOffline(old(View()), uin)
    {
      hide Ready, Enqueue;
      NewPacket(Send(Backend(Status)), OfflinePacket(uin));
      Log(AnnouncedOffline(uin));
    }

    // -------------------------------------------------------------- packets from clients

    method Forward(c: ConnId, side: Side, b: Block)
      requires Ready() && Loose(View().pool, b)
      modifies this`log, q, q.repr
      ensures Ready() && q.repr == old(q.repr)
      ensures b in old(View()).pool.mem && View() == ConnHandlers.Forward(old(View()), c, side, b)
    {
      hide Ready, Loose, List, Push, Settles;
      LooseInMem(View().pool, b);
      ListAddTail(Send(Backend(side)), b);
      Log(Forwarded(c, side, q.mem[b].command));
    }

    /** Notes that a connection asks to log in, and enters its user. */
    method Ask(c: ConnId, uin: nat)
      requires Ready() && c in conns
      modifies this`conns, this`uinConnMap, this`log
      ensures Ready() && conns.Keys == old(conns.Keys)
      ensures View() == Logged(old(View()).(reg := LoggedIn(old(View()).reg, c, uin)), LoginAsked(c, uin))
    {
      hide Queues.Valid, Headed, Queues.View, Settles, Backed, IndexKnown;
      conns := conns[c := conns[c].(kind := LoginUncomplete)];
      conns := conns[c := conns[c].(uin := uin)];
      uinConnMap := [UinEntry(uin, c)] + uinConnMap;
      log := log + [LoginAsked(c, uin)];
      assert conns == old(conns)[c := old(conns)[c].(uin := uin, kind := LoginUncomplete)];
      StillHeaded(old(conns), conns, q.heads.Keys);
    }

    method CmdLogin(c: ConnId, b: Block)
      requires Ready() && Loose(View().pool, b) && c in conns
      modifies this, q, q.repr
      ensures Ready() && q.repr == old(q.repr)
      ensures b in old(View()).pool.mem && View() == ConnHandlers.CmdLogin(old(View()), c, b)
    {
      hide Ready, Loose, ConnHandlers.Forward, LoggedIn, Settles, Backed, IndexKnown;
      LooseInMem(View().pool, b);
      Ask(c, q.mem[b].uin);
      Forward(c, User, b);
    }

    /** Announces a user offline and closes the connection. */
    method Leave(c: ConnId, uin: nat)
      requires Ready() && c in conns
      modifies this, q, q.repr
      ensures Ready() && fresh(q.repr - old(q.repr))
      ensures c in SendOffline(old(View()), uin).reg.conns
      ensures View() == ConnHandlers.CloseConnection(SendOffline(old(View()), uin), c)
    {
      hide Ready, ConnHandlers.CloseConnection, Enqueue;
      SendOfflineToStatus(uin);
      CloseConnection(c);
    }

    method CmdLogout(c: ConnId, b: Block)
      requires Ready() && Loose(View().pool, b) && c in conns
      modifies this, q, q.repr
      ensures Ready() && fresh(q.repr - old(q.repr))
      ensures b in old(View()).pool.mem && View() == ConnHandlers.CmdLogout(old(View()), c, b)
    {
      hide Ready, ConnHandlers.CmdLogout, Loose;
      LooseInMem(View().pool, b);
      LogoutParts(View(), c, b);
      AllocatorFree(b);
      Leave(c, q.mem[b].uin);
    }

    method CmdPacketHandler(c: ConnId, b: Block)
      requires Ready() && Loose(View().pool, b) && c in conns
      modifies this, q, q.repr
      ensures Ready() && fresh(q.repr - old(q.repr))
      ensures b in old(View()).pool.mem && View() == CmdPacket(old(View()), c, b)
    {
      hide Ready, Loose, Settles, Backed, IndexKnown;
      hide ConnHandlers.CmdLogin, ConnHandlers.CmdLogout, ConnHandlers.Forward, ConnHandlers.AllocatorFree;
      LooseInMem(View().pool, b);
      var command := q.mem[b].command;
      if conns[c].kind != LoginOk && command != CMD_LOGIN {
        AllocatorFree(b);
      } else if command == CMD_KEEP_ALIVE {
        ListAddTail(KeepAlive, b);
      } else if command == CMD_LOGIN {
        CmdLogin(c, b);
      } else if command == CMD_LOGOUT {
        CmdLogout(c, b);
      } else if command == CMD_SET_NICK {
        Forward(c, User, b);
      } else if IsContactCommand(command) {
        Forward(c, Contact, b);
      } else if IsMessageCommand(command) {
        Forward(c, Message, b);
      }
    }

    // -------------------------------------------------------------- packets from the back-end modules

    /** Notes the verdict on a login. */
    method Note(c: ConnId, ghost uin: nat, kind: LoginType)
      requires Ready() && c in conns
      modifies this`conns, this`log
      ensures Ready()
      ensures View() == Logged(old(View()).(reg := Marked(old(View()).reg, c, kind)), Verdict(c, uin, kind))
    {
      hide Queues.Valid, Headed, Queues.View, Settles, Backed, IndexKnown;
      conns := conns[c := conns[c].(kind := kind)];
      log := log + [if kind == LoginOk then LoginGranted(c, uin) else LoginRefused(c, uin)];
      StillHeaded(old(conns), conns, q.heads.Keys);
    }

    method SrvVerdict(b: Block, kind: LoginType)
      requires Ready() && Loose(View().pool, b) && IndexKnown(View().reg)
      modifies this, q, q.repr
      ensures Ready() && q.repr == old(q.repr)
      ensures b in old(View()).pool.mem && View() == ConnHandlers.SrvVerdict(old(View()), b, kind)
    {
      hide Ready, Loose, List, Push, Release, Marked, Settles, Backed;
      LooseInMem(View().pool, b);
      var r := GetConnByUin(q.mem[b].uin);
      if r.Missing? {
        AllocatorFree(b);
        return;
      }
      ListAddTail(Send(Client(r.conn)), b);
      Note(r.conn, q.mem[b].uin, kind);
    }

    method SrvOtherPacket(b: Block)
      requires Ready() && Loose(View().pool, b) && IndexKnown(View().reg)
      modifies this, q, q.repr
      ensures Ready() && q.repr == old(q.repr)
      ensures b in old(View()).pool.mem && View() == SrvOther(old(View()), b)
    {
      hide Ready, Loose, List, Push, Release, Settles, Backed;
      LooseInMem(View().pool, b);
      var r := GetConnByUin(q.mem[b].uin);
      if r.Missing? || conns[r.conn].kind != LoginOk {
        AllocatorFree(b);
        return;
      }
      ListAddTail(Send(Client(r.conn)), b);
    }

    method SrvPacketHandler(b: Block)
      requires Ready() && Loose(View().pool, b) && IndexKnown(View().reg)
      modifies this, q, q.repr
      ensures Ready() && q.repr == old(q.repr)
      ensures b in old(View()).pool.mem && View() == SrvPacket(old(View()), b)
    {
      hide Ready, Loose, ConnHandlers.SrvVerdict, SrvOther, Settles, Backed, IndexKnown;
      LooseInMem(View().pool, b);
      var command := q.mem[b].command;
      if command == SRV_ERROR {
        SrvVerdict(b, LoginError);
      } else if command == SRV_LOGIN_OK {
        SrvVerdict(b, LoginOk);
      } else if IsOtherReply(command) {
        SrvOtherPacket(b);
      }
    }

    // -------------------------------------------------------------- sockets

    /** Handles one received packet. */
    method PacketHandler(who: Ref, b: Block)
      requires Ready() && Loose(View().pool, b) && IndexKnown(View().reg) && (who.Client? ==> who.id in conns)
      modifies this, q, q.repr
      ensures Ready() && fresh(q.repr - old(q.repr))
      ensures b in old(View()).pool.mem && View() == PacketOf(old(View()), who, b)
    {
      hide Ready, Loose, CmdPacket, SrvPacket, Settles, Backed, IndexKnown;
      if who.Backend? {
        SrvPacketHandler(b);
      } else {
        CmdPacketHandler(who.id, b);
      }
    }

    /** Takes the first packet off a receive list and handles it. */
    method ProcessOne(who: Ref)
      requires Ready() && IndexKnown(View().reg) && (who.Client? ==> who.id in conns)
      requires List(View().pool, Recv(who)) != []
      modifies this, q, q.repr
      ensures Ready() && fresh(q.repr - old(q.repr)) && ProcessStep(old(View()), who, View())
    {
      hide Ready, List, PacketOf, Loose, Owned, Backed;
      ReadyBasics();
      FirstIsOn(View().pool, Recv(who));
      ghost var s := View();
      var b := ListPop(Recv(who));
      assert b in s.pool.mem;
      PacketHandler(who, b);
    }

    /** The same in the course of processing the list that s has. */
    method ProcessNext(who: Ref, ghost s: State) returns (empty: bool)
      requires Ready() && ProcessLeft(View(), who, s) && List(View().pool, Recv(who)) != []
      modifies this, q, q.repr
      ensures Ready() && fresh(q.repr - old(q.repr)) && ProcessLeft(View(), who, s)
      ensures |List(View().pool, Recv(who))| < |List(old(View()).pool, Recv(who))|
      ensures empty <==> List(View().pool, Recv(who)) == []
    {
      hide Ready, List, ProcessLeft, ProcessStep, IndexKnown, Queues.View, InUse;
      ghost var before := View();
      CanProcess(before, who, s);
      ProcessOne(who);
      ProcessOneMore(before, who, View(), s);
      CanProcess(View(), who, s);
      empty := ListEmpty(Recv(who));
    }

    /** Takes every packet off a receive list; the connection may be closed on the way. */
    method ProcessPacket(who: Ref)
      requires Ready() && IndexKnown(View().reg) && (who.Client? ==> who.id in conns)
      modifies this, q, q.repr
      ensures Ready() && fresh(q.repr - old(q.repr))
      ensures Backed(old(View()).pool) && View() == Process(old(View()), who)
    {
      hide Ready, List, ProcessLeft, Process, Backed, Owned, IndexKnown, Queues.View, Queues.Valid;
      ReadyBasics();
      ghost var s := View();
      ProcessStart(s, who);
      var empty := ListEmpty(Recv(who));
      while !empty
        invariant Ready() && fresh(q.repr - old(q.repr)) && ProcessLeft(View(), who, s)
        invariant empty <==> List(View().pool, Recv(who)) == []
        decreases |List(View().pool, Recv(who))|
      {
        empty := ProcessNext(who, s);
      }
      ProcessNone(View(), who, s);
    }

    method ErrorHandler(who: Ref)
      requires Ready() && (who.Client? ==> who.id in conns)
      modifies this, q, q.repr
      ensures Ready() && fresh(q.repr - old(q.repr))
      ensures View() == ConnHandlers.ErrorHandler(old(View()), who)
    {
      hide Ready, ConnHandlers.CloseConnection, SendOffline, Settles, Backed, IndexKnown;
      if who.Client? {
        if conns[who.id].kind == LoginOk {
          SendOfflineToStatus(conns[who.id].uin);
        }
        CloseConnection(who.id);
      }
    }

    /** Puts the packets that a stream reader completes on the receive list. */
    method Receive(who: Ref, packets: seq<Packet>)
      requires Ready() && (who.Client? ==> who.id in conns)
      modifies q, q.repr
      ensures Ready() && fresh(q.repr - old(q.repr))
      ensures View() == old(View()).(pool := EnqueueAll(old(View()).pool, Recv(who), packets))
    {
      hide Queues.Valid, Queues.View, Headed, Enqueue, Settles, Backed, IndexKnown;
      var i := 0;
      while i < |packets|
        invariant 0 <= i <= |packets| && Ready() && fresh(q.repr - old(q.repr))
        invariant View() == old(View()).(pool := View().pool)
        invariant EnqueueAll(View().pool, Recv(who), packets[i..]) == EnqueueAll(old(View()).pool, Recv(who), packets)
      {
        NewPacket(Recv(who), packets[i]);
        assert packets[i..][1..] == packets[i + 1..];
        i := i + 1;
      }
    }

    /** Handles data on a socket. */
    method ReadHandler(fd: int, packets: seq<Packet>, err: bool)
      requires Ready() && IndexKnown(View().reg)
      requires TargetOf(fd).Conn? && TargetOf(fd).who.Client? ==> TargetOf(fd).who.id in conns
      modifies this, q, q.repr
      ensures Ready() && fresh(q.repr - old(q.repr))
      ensures Backed(old(View()).pool)
      ensures View() == match old(TargetOf(fd))
                        case Nobody => old(View())
                        case Conn(who) => ConnHandlers.ReadHandler(old(View()), who, packets, err)
    {
      hide Ready, EnqueueAll, Process, ConnHandlers.ErrorHandler, Owned, Settles, Backed, IndexKnown;
      ReadyBasics();
      match TargetOf(fd) {
        case Nobody =>
        case Conn(who) =>
          Receive(who, packets);
          if err {
            ErrorHandler(who);
          } else {
            ProcessPacket(who);
          }
      }
    }

    /** Writes the send list of a connection until it is empty or a write fails. */
    method WriteHandler(fd: int, results: seq<WriteResult>)
      requires Ready()
      requires TargetOf(fd).Conn? && TargetOf(fd).who.Client? ==> TargetOf(fd).who.id in conns
      modifies this, q, q.repr
      ensures Ready() && fresh(q.repr - old(q.repr))
      ensures Backed(old(View()).pool)
      ensures View() == match old(TargetOf(fd))
                        case Nobody => old(View())
                        case Conn(who) => ConnHandlers.WriteHandler(old(View()), who, results)
    {
      hide Ready, WriteAll, WriteFails, ConnHandlers.ErrorHandler, Owned, Settles, Backed, IndexKnown;
      ReadyBasics();
      match TargetOf(fd) {
        case Nobody =>
        case Conn(who) =>
          var failed := WriteList(who, results);
          if failed {
            ErrorHandler(who);
          }
      }
    }

    /** Writes the first packet of a send list: it leaves the list whatever comes of it. */
    method WriteOne(who: Ref, result: WriteResult)
      requires Ready() && (who.Client? ==> who.id in conns) && List(View().pool, Send(who)) != []
      modifies q, q.repr
      ensures Ready() && q.repr == old(q.repr) && WriteStep(old(View()), who, result, View())
    {
      hide Ready, List, Owned, Loose;
      ReadyBasics();
      FirstIsOn(View().pool, Send(who));
      var packet := ListPop(Send(who));
      if result == Wrote {
        AllocatorFree(packet);
      }
    }

    method WriteList(who: Ref, results: seq<WriteResult>) returns (failed: bool)
      requires Ready() && (who.Client? ==> who.id in conns)
      modifies q, q.repr
      ensures Ready() && q.repr == old(q.repr)
      ensures Backed(old(View()).pool) && View() == WriteAll(old(View()), who, results)
      ensures failed <==> WriteFails(old(View()), who, results)
    {
      hide Ready, List, WriteFails, WriteAll, Owned, WriteStep, Queues.View;
      ReadyBasics();
      failed := false;
      var empty := ListEmpty(Send(who));
      var i := 0;
      ghost var s := View();
      while !empty
        invariant Ready() && q.repr == old(q.repr) && Backed(View().pool)
        invariant empty <==> List(View().pool, Send(who)) == []
        invariant WriteAll(View(), who, Rest(results, i)) == WriteAll(s, who, results)
        invariant WriteFails(View(), who, Rest(results, i)) <==> WriteFails(s, who, results)
        decreases |List(View().pool, Send(who))|
      {
        ghost var before := View();
        var result := if i < |results| then results[i] else Wrote;
        WriteOne(who, result);
        WriteOneMore(before, who, Rest(results, i), View());
        if result != Wrote {
          failed := result == Failed;
          return;
        }
        i := i + 1;
        empty := ListEmpty(Send(who));
      }
      NothingFails(View(), who, Rest(results, i));
    }

    /** Takes the first released connection structure, or a new one. */
    method ConnMalloc() returns (c: ConnId)
      modifies this`connFree, this`nextConn
      ensures c == NewConn(old(Reg()))
      ensures connFree == if old(connFree) != [] then old(connFree)[1..] else []
      ensures nextConn == if old(connFree) != [] then old(nextConn) else old(nextConn) + 1
    {
      if connFree != [] {
        c := connFree[0];
        connFree := connFree[1..];
      } else {
        c := nextConn;
        nextConn := nextConn + 1;
      }
    }

    /** Initialises a connection structure: its queues are empty, and it has not logged in. */
    method ConnInit(c: ConnId, fd: int)
      requires Ready()
      modifies this`conns, q, q.repr
      ensures Ready() && fresh(q.repr - old(q.repr))
      ensures conns == old(conns)[c := Connection(0, fd, NotLogin)]
      ensures q.View() == Emptied(Emptied(old(q.View()), Recv(Client(c))), Send(Client(c)))
    {
      hide Queues.Valid, Queues.View, Emptied, Settles, Backed, IndexKnown;
      q.NewHead(Recv(Client(c)));
      q.NewHead(Send(Client(c)));
      conns := conns[c := Connection(0, fd, NotLogin)];
    }

    /** Accepts a connection on a new socket. */
    method AcceptHandler(fd: int)
      requires Ready() && Sized(timer)
      modifies this, q, q.repr
      ensures Ready() && fresh(q.repr - old(q.repr))
      ensures View() == AcceptConn(old(View()), fd)
    {
      hide Add, List, Queues.Valid, Queues.View, Headed, Emptied, Settles, Backed, IndexKnown;
      var c := ConnMalloc();
      ConnInit(c, fd);
      fdConnMap := fdConnMap[fd := c];
      timer := Add(timer, c);
      ages, log := ages[c := 0], log + [AcceptedConn(c)];
    }

    // -------------------------------------------------------------- the timer

    /** timer_mark_alive: list_del takes the structure out of its slot, or off the allocator's free list. */
    method MarkAlive(c: ConnId)
      requires Sized(timer)
      modifies this`timer, this`connFree
      ensures Sized(timer) && Reg() == Refreshed(old(Reg()), c)
    {
      timer, connFree := Unlink(timer, c), Erase(connFree, c);
      timer := Add(timer, c);
    }

    /** Works off the keep-alive list. */
    method RefreshAlive()
      requires Ready() && Sized(timer)
      modifies this`timer, this`connFree, q, q.repr
      ensures Ready() && q.repr == old(q.repr)
      ensures Backed(old(View()).pool) && View() == KeepAllAlive(old(View()))
    {
      hide Ready, List, KeepAllAlive, KeepOneAlive, Owned, Queues.View;
      ReadyBasics();
      var empty := ListEmpty(KeepAlive);
      ghost var s := View();
      while !empty
        invariant Ready() && q.repr == old(q.repr) && Sized(timer) && Backed(View().pool)
        invariant empty <==> List(View().pool, KeepAlive) == []
        invariant KeepAllAlive(View()) == KeepAllAlive(s)
        decreases |List(View().pool, KeepAlive)|
      {
        KeepMore(View());
        KeepOne();
        empty := ListEmpty(KeepAlive);
      }
      KeepNone(View());
    }

    /** Works off the first packet of the keep-alive list. */
    method KeepOne()
      requires Ready() && Sized(timer) && Backed(View().pool) && List(View().pool, KeepAlive) != []
      modifies this`timer, this`connFree, q, q.repr
      ensures Ready() && q.repr == old(q.repr)
      ensures Sized(timer) && View() == KeepOneAlive(old(View()))
    {
      hide Queues.Valid, Headed, List, Refreshed, Release, Loose, Settles, Backed, IndexKnown;
      FirstIsOn(View().pool, KeepAlive);
      var packet := ListPop(KeepAlive);
      LooseInMem(View().pool, packet);
      var uin := q.mem[packet].uin;
      AllocatorFree(packet);
      var r := GetConnByUin(uin);
      if r.Found? {
        MarkAlive(r.conn);
      }
    }

    /** Closes the connections of a timeout list. */
    method CloseTimedOut(timeoutList: seq<ConnId>)
      requires Ready() && AllInConns(View().reg, timeoutList)
      modifies this, q, q.repr
      ensures Ready() && fresh(q.repr - old(q.repr))
      ensures View() == CloseAll(old(View()), timeoutList)
    {
      hide Ready, SendOffline, ConnHandlers.CloseConnection;
      var i := 0;
      while i < |timeoutList|
        invariant Ready() && fresh(q.repr - old(q.repr))
        invariant 0 <= i <= |timeoutList| && AllInConns(View().reg, timeoutList)
        invariant AllInConns(View().reg, timeoutList[i..])
        invariant CloseAll(View(), timeoutList[i..]) == CloseAll(old(View()), timeoutList)
      {
        var conn := timeoutList[i];
        SendOfflineToStatus(conns[conn].uin);
        CloseConnection(conn);
        assert timeoutList[i..][1..] == timeoutList[i + 1..];
        i := i + 1;
      }
    }

    /** The expiry pass, once the loop finds that interval seconds have gone by. */
    method TimerExpireTime(interval: nat)
      requires Ready() && Safe(View()) && Timed(View().reg) && interval <= CLIENT_TIMEOUT
      modifies this, q, q.repr
      ensures Ready() && fresh(q.repr - old(q.repr))
      ensures View() == Next(old(View()), Seconds(interval))
    {
      if interval == 0 {
        return;
      }
      hide *;
      PassSafe(View(), interval);
      AfterPassIsStep(View(), interval);
      AfterPassIsExpiry(View(), interval);
      ExpirePass(interval);
    }

    method ExpirePass(interval: nat)
      requires Ready() && Sized(timer) && Backed(View().pool)
      requires var r := BeforeClosing(View(), interval); AllInConns(r.reg, TimeoutList(r.reg.timer))
      modifies this, q, q.repr
      ensures Ready() && fresh(q.repr - old(q.repr))
      ensures View() == ConnHandlers.TimerExpireTime(old(View()), interval)
    {
      hide KeepAllAlive, CloseAll, AgesAfter, AliveList, TimeoutList;
      hide List, Queues.Valid, Queues.View, Headed;
      ghost var s := View();
      timer := Tick(timer, interval);
      assert View() == s.(reg := Ticked(s.reg, interval));
      RefreshAlive();
      var timeoutList := TimeoutList(timer);
      CloseTimedOut(timeoutList);
      ages := AgesAfter(s.reg.ages, interval, AliveList(s));
    }

    // -------------------------------------------------------------- the event loop

    /** The modules' sockets differ from each other and from those of clients. */
    ghost predicate Wired()
      reads this
    {
      ModulesApart() && ModuleFds() !! fdConnMap.Keys
    }

    ghost predicate ModulesApart() {
      && userFd != contactFd && userFd != statusFd && userFd != messageFd
      && contactFd != statusFd && contactFd != messageFd && statusFd != messageFd
    }

    ghost function ModuleFds(): set<int> {
      {userFd, contactFd, statusFd, messageFd}
    }

    function SocketOf(who: Ref): (fd: int)
      requires who.Client? ==> who.id in conns
      reads this
      ensures Wired() && Open(View(), who) ==> TargetOf(fd) == Conn(who)
    {
      match who
      case Backend(User) => userFd
      case Backend(Contact) => contactFd
      case Backend(Status) => statusFd
      case Backend(Message) => messageFd
      case Client(c) => conns[c].sfd
    }

    /** The hash table of the index by user has made more buckets, and its chains have another order. */
    method Rehash(entries: seq<UinEntry>)
      requires Ready()
      modifies this`uinConnMap
      ensures Ready() && View() == old(View()).(reg := Reordered(old(View()).reg, entries))
    {
      uinConnMap := entries;
    }

    /** Reacts to one event. */
    method Handle(i: Input)
      requires Ready() && Wired() && Safe(View()) && Timed(View().reg) && Possible(View(), i)
      requires i.Connect? ==> i.fd !in ModuleFds()
      modifies this, q, q.repr
      ensures Ready() && Wired() && fresh(q.repr - old(q.repr)) && View() == Next(old(View()), i)
    {
      hide Ready, ModulesApart, ModuleFds, Safe, Timed, Placed, Holds, Owned, Backed, IndexKnown;
      SafeBasics(View());
      StepSafe(View(), i);
      NextFds(View(), i);
      ghost var s := View();
      match i {
        case Connect(fd) => AcceptHandler(fd);
        case Readable(who, packets, err) => ReadHandler(SocketOf(who), packets, err);
        case Writable(who, results) => WriteHandler(SocketOf(who), results);
        case Fault(who) => ErrorHandler(who);
        case Seconds(interval) => TimerExpireTime(interval);
        case Rehashed(entries) => Rehash(entries);
      }
      assert View() == Next(s, i);
      StillWired(old(fdConnMap.Keys), i);
    }

    lemma StillWired(fds: set<int>, i: Input)
      requires ModuleFds() !! fds && (i.Connect? ==> i.fd !in ModuleFds())
      requires fdConnMap.Keys <= fds + if i.Connect? then {i.fd} else {}
      ensures ModuleFds() !! fdConnMap.Keys
    {
    }

    /** Runs the event loop over a sequence of events. */
    method Run(run: seq<Input>)
      requires Ready() && Wired() && Admits(View(), run, ModuleFds())
      modifies this, q, q.repr
      ensures Ready() && Wired() && fresh(q.repr - old(q.repr)) && Leads(old(View()), run, View())
    {
      hide Ready, Wired, Safe, Timed, Possible, Next, Admits;
      ghost var s, fds := View(), ModuleFds();
      assert run[..0] == [] && run[0..] == run;
      for k := 0 to |run|
        invariant Ready() && Wired() && fresh(q.repr - old(q.repr)) && Admits(View(), run[k..], fds)
        invariant Leads(s, run[..k], View())
      {
        AdmitsOne(View(), run[k..], fds);
        LeadsFurther(s, run[..k], View(), run[k]);
        assert run[..k] + [run[k]] == run[..k + 1] && run[k..][1..] == run[k + 1..];
        Handle(run[k]);
      }
      assert run[..|run|] == run;
    }
  }

  /** The events of a run can happen, and no module's socket is taken for a new client's. */
  ghost predicate Admits(s: State, run: seq<Input>, fds: set<int>)
    decreases |run|
  {
    run == [] ||
    (Safe(s) && Timed(s.reg) && Possible(s, run[0]) && (run[0].Connect? ==> run[0].fd !in fds)
     && Admits(Next(s, run[0]), run[1..], fds))
  }

  lemma {:induction false} AdmitsOne(s: State, run: seq<Input>, fds: set<int>)
    requires Admits(s, run, fds) && run != []
    ensures Safe(s) && Timed(s.reg) && Possible(s, run[0]) && (run[0].Connect? ==> run[0].fd !in fds)
    ensures Admits(Next(s, run[0]), run[1..], fds)
  {
  }

  lemma StillHeaded(conns: map<ConnId, Connection>, more: map<ConnId, Connection>, heads: set<Head>)
    requires Headed(conns, heads) && more.Keys == conns.Keys
    ensures Headed(more, heads)
  {
  }

  /** The heads of the server's own lists and of the modules' connections, but for the free list. */
  const FIRST_HEADS: seq<Head> :=
    [KeepAlive, Recv(Backend(User)), Send(Backend(User)), Recv(Backend(Contact)), Send(Backend(Contact)),
     Recv(Backend(Status)), Send(Backend(Status)), Recv(Backend(Message)), Send(Backend(Message))]

  lemma FirstHeadsSuffice(heads: set<Head>)
    requires Free in heads && forall k :: 0 <= k < |FIRST_HEADS| ==> FIRST_HEADS[k] in heads
    ensures Headed(map[], heads)
  {
    assert FIRST_HEADS[0] in heads;
    forall side: Side ensures Recv(Backend(side)) in heads && Send(Backend(side)) in heads {
      var i := match side case User => 1 case Contact => 3 case Status => 5 case Message => 7;
      assert FIRST_HEADS[i] == Recv(Backend(side)) && FIRST_HEADS[i + 1] == Send(Backend(side));
    }
  }

  /** The queues before anything has happened: heads for the server's own lists and the modules'. */
  method NewQueues() returns (q: Queues)
    ensures fresh(q) && fresh(q.repr) && q.Valid() && q.View() == Pool(map[], map[], 0)
    ensures Headed(map[], q.heads.Keys)
  {
    q := new Queues();
    hide Queues.Valid, Queues.View, List;
    for i := 0 to |FIRST_HEADS|
      invariant fresh(q) && fresh(q.repr) && q.Valid() && q.View() == Pool(map[], map[], 0)
      invariant q.heads.Keys == {Free} + set k | 0 <= k < i :: FIRST_HEADS[k]
    {
      q.FirstHead(FIRST_HEADS[i]);
    }
    FirstHeadsSuffice(q.heads.Keys);
  }

  lemma LogoutParts(s: State, c: ConnId, b: Block)
    requires b in s.pool.mem && c in s.reg.conns
    ensures var freed := ConnHandlers.AllocatorFree(s, b);
            && freed.reg == s.reg
            && ConnHandlers.CmdLogout(s, c, b)
               == ConnHandlers.CloseConnection(SendOffline(freed, s.pool.mem[b].uin), c)
            && SendOffline(freed, s.pool.mem[b].uin).reg == s.reg
  {
  }

  /** The first packet of a receive list has been handled. */
  ghost predicate ProcessStep(s: State, who: Ref, r: State) {
    && Backed(s.pool) && IndexKnown(s.reg) && (who.Client? ==> who.id in s.reg.conns)
    && List(s.pool, Recv(who)) != [] && List(s.pool, Recv(who))[0] in s.pool.mem
    && r == PacketOf(PopFrom(s, Recv(who)), who, List(s.pool, Recv(who))[0])
  }

  /** What is left of processing a receive list leads to the same state. */
  ghost predicate ProcessLeft(t: State, who: Ref, s: State) {
    && Backed(s.pool) && IndexKnown(s.reg) && (who.Client? ==> who.id in s.reg.conns)
    && Backed(t.pool) && IndexKnown(t.reg) && (who.Client? ==> who.id in t.reg.conns)
    && Process(t, who) == Process(s, who)
  }

  lemma ProcessStart(s: State, who: Ref)
    requires Backed(s.pool) && IndexKnown(s.reg) && (who.Client? ==> who.id in s.reg.conns)
    ensures ProcessLeft(s, who, s)
  {
  }

  lemma CanProcess(t: State, who: Ref, s: State)
    requires ProcessLeft(t, who, s)
    ensures IndexKnown(t.reg) && (who.Client? ==> who.id in t.reg.conns) && InUse(t.reg.conns, Recv(who))
  {
  }

  lemma ProcessOneMore(t: State, who: Ref, r: State, s: State)
    requires ProcessLeft(t, who, s) && ProcessStep(t, who, r)
    ensures ProcessLeft(r, who, s) && |List(r.pool, Recv(who))| < |List(t.pool, Recv(who))|
  {
    hide PacketOf;
  }

  lemma {:induction false} ProcessNone(t: State, who: Ref, s: State)
    requires ProcessLeft(t, who, s) && List(t.pool, Recv(who)) == []
    ensures Backed(s.pool) && IndexKnown(s.reg) && (who.Client? ==> who.id in s.reg.conns)
    ensures t == Process(s, who)
  {
  }

  /** The first packet of a send list has been written, or not. */
  ghost predicate WriteStep(s: State, who: Ref, result: WriteResult, r: State) {
    && List(s.pool, Send(who)) != [] && List(s.pool, Send(who))[0] in s.pool.mem
    && r == if result == Wrote then ConnHandlers.AllocatorFree(PopFrom(s, Send(who)), List(s.pool, Send(who))[0])
            else PopFrom(s, Send(who))
  }

  lemma WriteOneMore(s: State, who: Ref, results: seq<WriteResult>, r: State)
    requires Backed(s.pool) && WriteStep(s, who, if results == [] then Wrote else results[0], r)
    ensures Backed(r.pool)
    ensures results != [] && results[0] != Wrote ==>
              WriteAll(s, who, results) == r && (WriteFails(s, who, results) <==> results[0] == Failed)
    ensures results == [] || results[0] == Wrote ==>
              && |List(r.pool, Send(who))| < |List(s.pool, Send(who))|
              && WriteAll(s, who, results) == WriteAll(r, who, if results == [] then [] else results[1..])
              && (WriteFails(s, who, results) <==> WriteFails(r, who, if results == [] then [] else results[1..]))
  {
    WriteFailsStep(s, who, results);
    hide WriteFails;
  }

  lemma {:induction false} KeepMore(s: State)
    requires Sized(s.reg.timer) && Backed(s.pool) && List(s.pool, KeepAlive) != []
    ensures var r := KeepOneAlive(s);
            && Sized(r.reg.timer) && Backed(r.pool) && KeepAllAlive(s) == KeepAllAlive(r)
            && |List(r.pool, KeepAlive)| < |List(s.pool, KeepAlive)|
  {
  }

  lemma {:induction false} KeepNone(s: State)
    requires Sized(s.reg.timer) && Backed(s.pool) && List(s.pool, KeepAlive) == []
    ensures KeepAllAlive(s) == s
  {
  }

  lemma {:induction false} ReleaseStep(p: Pool, h: Head)
    requires h != Free && Backed(p) && List(p, h) != []
    ensures ReleaseAll(Release(Pop(p, h), List(p, h)[0]), h) == ReleaseAll(p, h)
  {
    FirstIsOn(p, h);
  }

  /** What is left of the write results after i writes. */
  ghost function Rest(results: seq<WriteResult>, i: nat): seq<WriteResult> {
    if i <= |results| then results[i..] else []
  }

  lemma WriteFailsStep(s: State, who: Ref, results: seq<WriteResult>)
    requires Backed(s.pool) && List(s.pool, Send(who)) != []
    ensures List(s.pool, Send(who))[0] in s.pool.mem
    ensures results != [] && results[0] != Wrote ==> (WriteFails(s, who, results) <==> results[0] == Failed)
    ensures results == [] || results[0] == Wrote ==>
              (WriteFails(s, who, results) <==>
               WriteFails(ConnHandlers.AllocatorFree(PopFrom(s, Send(who)), List(s.pool, Send(who))[0]), who,
                          if results == [] then [] else results[1..]))
  {
    assert On(s.pool, Send(who), List(s.pool, Send(who))[0]);
    var r := ConnHandlers.AllocatorFree(PopFrom(s, Send(who)), List(s.pool, Send(who))[0]);
    assert List(r.pool, Send(who)) == List(s.pool, Send(who))[1..];
    if results != [] && results[0] == Wrote {
      var rest := results[1..];
      if WriteFails(s, who, results) {
        var i :| 0 <= i < |results| && i < |List(s.pool, Send(who))| && results[i] == Failed
                 && forall j :: 0 <= j < i ==> results[j] == Wrote;
        assert rest[i - 1] == Failed && forall j :: 0 <= j < i - 1 ==> rest[j] == results[j + 1];
      }
      if WriteFails(r, who, rest) {
        var i :| 0 <= i < |rest| && i < |List(r.pool, Send(who))| && rest[i] == Failed
                 && forall j :: 0 <= j < i ==> rest[j] == Wrote;
        assert results[i + 1] == Failed;
        forall j | 0 <= j < i + 1 ensures results[j] == Wrote {
          assert j > 0 ==> rest[j - 1] == results[j];
        }
      }
    }
  }

  lemma {:induction false} NothingFails(s: State, who: Ref, results: seq<WriteResult>)
    requires List(s.pool, Send(who)) == []
    ensures !WriteFails(s, who, results)
    ensures Backed(s.pool) ==> WriteAll(s, who, results) == s
  {
  }
}
