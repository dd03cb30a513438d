/** What the server's queues hold: a packet on a module's send list is one that module handles, whatever is
    sent; and a packet on a client's send list is addressed to the user in that client's field, except after
    packets that are told apart here. */
module ConnDelivery {
  import opened Protocol
  import opened Sequences
  import opened TimerSpec
  import opened PacketPool
  import opened ConnRegistry
  import opened ConnHandlers
  import opened ConnSafety
  import opened ConnLosses
  import opened ConnTidy
  import opened ConnLogins

  /** The commands that each back-end module is sent. */
  predicate Handles(side: Side, command: nat) {
    match side
    case User => command == CMD_LOGIN || command == CMD_SET_NICK
    case Contact => command in {CMD_ADD_CONTACT, CMD_ADD_CONTACT_REPLY, CMD_CONTACT_LIST, CMD_CONTACT_INFO_MULTI}
    case Message => command in {CMD_MESSAGE, CMD_OFFLINE_MSG, CMD_CONN_INFO}
    case Status => command == CMD_STATUS_CHANGE
  }

  /** A list on which packets wait to be sent, or to refresh a timer. */
  predicate Waits(h: Head) {
    h.Send? || h.KeepAlive?
  }

  /** Block b may wait on list h. Only with strict is it asked that a client's packets are addressed to its
      user. */
  ghost predicate Proper(s: State, h: Head, b: Block, strict: bool) {
    && b in s.pool.mem
    && (h.KeepAlive? ==> s.pool.mem[b].command == CMD_KEEP_ALIVE)
    && (h.Send? && h.who.Backend? ==> Handles(h.who.side, s.pool.mem[b].command))
    && (strict && h.Send? && h.who.Client? ==>
          var c := h.who.id;
          c in s.reg.conns && s.reg.conns[c].kind != NotLogin && s.pool.mem[b].uin == s.reg.conns[c].uin)
  }

  ghost predicate Addressed(s: State, strict: bool) {
    forall h: Head, b: Block :: On(s.pool, h, b) && Waits(h) ==> Proper(s, h, b, strict)
  }

  /** What waits in r waited in s, and has changed no more than its addressee has. */
  ghost predicate AddsNothing(s: State, r: State, strict: bool) {
    && (forall h: Head, b: Block :: On(r.pool, h, b) && Waits(h) ==>
          On(s.pool, h, b) && (b in s.pool.mem ==> b in r.pool.mem && r.pool.mem[b] == s.pool.mem[b]))
    && (strict ==> forall c: ConnId :: c in s.reg.conns && s.reg.conns[c].kind != NotLogin ==>
          c in r.reg.conns && r.reg.conns[c].uin == s.reg.conns[c].uin && r.reg.conns[c].kind != NotLogin)
  }

  lemma AddsNothingKeeps(s: State, r: State, strict: bool)
    requires Addressed(s, strict) && AddsNothing(s, r, strict)
    ensures Addressed(r, strict)
  {
    forall h: Head, b: Block | On(r.pool, h, b) && Waits(h) ensures Proper(r, h, b, strict) {
      assert On(s.pool, h, b) && Proper(s, h, b, strict);
    }
  }

  // ---------------------------------------------------------------- the single steps

  lemma FreeAddsNothing(s: State, b: Block, strict: bool)
    requires b in s.pool.mem
    ensures AddsNothing(s, AllocatorFree(s, b), strict)
  {
  }

  lemma PopAddsNothing(s: State, h: Head, strict: bool)
    requires List(s.pool, h) != []
    ensures AddsNothing(s, PopFrom(s, h), strict)
  {
  }

  /** A proper packet is put on a list. */
  lemma PushAddressed(s: State, h: Head, b: Block, strict: bool)
    requires Addressed(s, strict) && Proper(s, h, b, strict)
    ensures Addressed(s.(pool := Push(s.pool, h, b)), strict)
  {
    var r := s.(pool := Push(s.pool, h, b));
    forall k: Head, x: Block | On(r.pool, k, x) && Waits(k) ensures Proper(r, k, x, strict) {
      assert On(s.pool, k, x) || (k == h && x == b);
      assert Proper(s, k, x, strict);
    }
  }

  lemma LogAddressed(s: State, e: Event, strict: bool)
    requires Addressed(s, strict)
    ensures Addressed(Logged(s, e), strict)
  {
    SamePacketsAddressed(s, Logged(s, e), strict);
  }

  lemma SamePacketsAddressed(s: State, r: State, strict: bool)
    requires Addressed(s, strict) && r.pool == s.pool && r.reg.conns == s.reg.conns
    ensures Addressed(r, strict)
  {
    forall h: Head, b: Block | On(r.pool, h, b) && Waits(h) ensures Proper(r, h, b, strict) {
      assert On(s.pool, h, b) && Proper(s, h, b, strict);
    }
  }

  lemma ForwardAddressed(s: State, c: ConnId, side: Side, b: Block, strict: bool)
    requires Addressed(s, strict) && b in s.pool.mem && Handles(side, s.pool.mem[b].command)
    ensures Addressed(Forward(s, c, side, b), strict)
  {
    PushAddressed(s, Send(Backend(side)), b, strict);
    LogAddressed(s.(pool := Push(s.pool, Send(Backend(side)), b)), Forwarded(c, side, s.pool.mem[b].command), strict);
  }

  /** The block that is taken and filled has been waiting nowhere. */
  lemma TakenAddsNothing(s: State, packet: Packet, strict: bool)
    requires Owned(s.pool)
    ensures AddsNothing(s, s.(pool := Taken(s.pool).(mem := s.pool.mem[NewBlock(s.pool) := packet])), strict)
  {
    TakenOwned(s.pool, packet);
    forall h: Head | Waits(h) ensures !On(s.pool, h, NewBlock(s.pool)) {
      NewBlockIsUnused(s.pool, h);
    }
  }

  lemma EnqueueAddressed(s: State, h: Head, packet: Packet, strict: bool)
    requires Owned(s.pool) && Addressed(s, strict)
    requires h.Recv? || (h.Send? && h.who.Backend? && Handles(h.who.side, packet.command))
    ensures Addressed(s.(pool := Enqueue(s.pool, h, packet)), strict)
  {
    var q := s.(pool := Taken(s.pool).(mem := s.pool.mem[NewBlock(s.pool) := packet]));
    TakenAddsNothing(s, packet, strict);
    AddsNothingKeeps(s, q, strict);
    hide Addressed, AddsNothing, Owned, Taken;
    PushAddressed(q, h, NewBlock(s.pool), strict);
  }

  lemma OfflineAddressed(s: State, uin: nat, strict: bool)
    requires Owned(s.pool) && Addressed(s, strict)
    ensures Addressed(SendOffline(s, uin), strict)
  {
    var h := Send(Backend(Status));
    EnqueueAddressed(s, h, OfflinePacket(uin), strict);
    LogAddressed(s.(pool := Enqueue(s.pool, h, OfflinePacket(uin))), AnnouncedOffline(uin), strict);
  }

  lemma CloseAddsNothing(s: State, c: ConnId, strict: bool)
    requires Owned(s.pool) && c in s.reg.conns
    ensures AddsNothing(s, CloseConnection(s, c), strict)
  {
    ListsReleased(s.pool, c);
  }

  lemma {:induction false} EnqueueAllAddressed(s: State, h: Head, packets: seq<Packet>, strict: bool)
    requires Owned(s.pool) && h.Recv? && Addressed(s, strict)
    ensures Addressed(s.(pool := EnqueueAll(s.pool, h, packets)), strict)
    decreases |packets|
  {
    if packets != [] {
      EnqueueAddressed(s, h, packets[0], strict);
      EnqueueOwned(s.pool, h, packets[0]);
      hide Addressed, Owned, Enqueue;
      EnqueueAllAddressed(s.(pool := Enqueue(s.pool, h, packets[0])), h, packets[1..], strict);
    }
  }

  // ---------------------------------------------------------------- handlers

  /** A login as another user than packets that still wait for the client are addressed to. */
  ghost predicate CmdMisdirects(s: State, c: ConnId, b: Block)
    requires b in s.pool.mem && Backed(s.pool)
  {
    s.pool.mem[b].command == CMD_LOGIN
    && exists x: Block :: On(s.pool, Send(Client(c)), x) && s.pool.mem[x].uin != s.pool.mem[b].uin
  }

  /** A login changes the addressee of what waits for the client. */
  lemma AskAddressed(s: State, c: ConnId, b: Block, strict: bool)
    requires Addressed(s, strict) && Backed(s.pool) && b in s.pool.mem && c in s.reg.conns
    requires s.pool.mem[b].command == CMD_LOGIN
    ensures var uin := s.pool.mem[b].uin;
            Addressed(Logged(s.(reg := LoggedIn(s.reg, c, uin)), LoginAsked(c, uin)), strict) <==>
              !(strict && CmdMisdirects(s, c, b))
  {
    var uin := s.pool.mem[b].uin;
    var r := Logged(s.(reg := LoggedIn(s.reg, c, uin)), LoginAsked(c, uin));
    if strict && CmdMisdirects(s, c, b) {
      var x: Block :| On(s.pool, Send(Client(c)), x) && s.pool.mem[x].uin != uin;
      assert On(r.pool, Send(Client(c)), x) && !Proper(r, Send(Client(c)), x, strict);
    } else {
      forall h: Head, x: Block | On(r.pool, h, x) && Waits(h) ensures Proper(r, h, x, strict) {
        assert On(s.pool, h, x) && Proper(s, h, x, strict);
      }
    }
  }

  /** What is queued for a module does not matter to what waits for clients. */
  lemma ForwardHides(s: State, c: ConnId, side: Side, b: Block)
    requires b in s.pool.mem && Addressed(Forward(s, c, side, b), true)
    ensures Addressed(s, true)
  {
    var r := Forward(s, c, side, b);
    forall h: Head, x: Block | On(s.pool, h, x) && Waits(h) ensures Proper(s, h, x, true) {
      assert On(r.pool, h, x) && Proper(r, h, x, true);
    }
  }

  lemma CmdLoginAddressed(s: State, c: ConnId, b: Block, strict: bool)
    requires Addressed(s, strict) && Backed(s.pool) && b in s.pool.mem && c in s.reg.conns
    requires s.pool.mem[b].command == CMD_LOGIN
    ensures Addressed(CmdLogin(s, c, b), strict) <==> !(strict && CmdMisdirects(s, c, b))
  {
    hide Addressed, CmdMisdirects, Forward, LoggedIn, Backed;
    var uin := s.pool.mem[b].uin;
    var asked := Logged(s.(reg := LoggedIn(s.reg, c, uin)), LoginAsked(c, uin));
    AskAddressed(s, c, b, strict);
    if Addressed(asked, strict) {
      ForwardAddressed(asked, c, User, b, strict);
    } else if Addressed(Forward(asked, c, User, b), strict) {
      ForwardHides(asked, c, User, b);
    }
  }

  lemma CmdLogoutAddressed(s: State, c: ConnId, b: Block, strict: bool)
    requires Owned(s.pool) && Addressed(s, strict) && Loose(s.pool, b) && c in s.reg.conns
    ensures Addressed(CmdLogout(s, c, b), strict)
  {
    var uin := s.pool.mem[b].uin;
    var freed := AllocatorFree(s, b);
    ReleaseOwned(s.pool, b);
    FreeAddsNothing(s, b, strict);
    AddsNothingKeeps(s, freed, strict);
    OfflineAddressed(freed, uin, strict);
    EnqueueOwned(freed.pool, Send(Backend(Status)), OfflinePacket(uin));
    CloseAddsNothing(SendOffline(freed, uin), c, strict);
    hide Owned, Addressed, AddsNothing, Settles, Loose;
    AddsNothingKeeps(SendOffline(freed, uin), CloseConnection(SendOffline(freed, uin), c), strict);
  }

  /** Whatever a client sends, only packets that a module handles are queued for it, and what waits for
      clients stays addressed to them exactly if the packet is no misdirecting login. */
  lemma CmdPacketAddressed(s: State, c: ConnId, b: Block, strict: bool)
    requires Owned(s.pool) && Backed(s.pool) && Addressed(s, strict) && Loose(s.pool, b) && c in s.reg.conns
    ensures b in s.pool.mem
    ensures Addressed(CmdPacket(s, c, b), strict) <==> !(strict && CmdMisdirects(s, c, b))
  {
    FreeAddsNothing(s, b, strict);
    var command := s.pool.mem[b].command;
    assert command != CMD_LOGIN ==> !CmdMisdirects(s, c, b);
    hide Owned, Addressed, AddsNothing, CmdLogin, CmdLogout, Forward, AllocatorFree, Settles, List, On, Backed;
    hide CmdMisdirects;
    AddsNothingKeeps(s, AllocatorFree(s, b), strict);
    if command == CMD_LOGIN {
      CmdLoginAddressed(s, c, b, strict);
    } else if command == CMD_LOGOUT {
      CmdLogoutAddressed(s, c, b, strict);
    } else if command == CMD_KEEP_ALIVE {
      PushAddressed(s, KeepAlive, b, strict);
    } else {
      ForwardsAddressed(s, c, b, strict);
    }
  }

  lemma ForwardsAddressed(s: State, c: ConnId, b: Block, strict: bool)
    requires Addressed(s, strict) && b in s.pool.mem
    ensures s.pool.mem[b].command == CMD_SET_NICK ==> Addressed(Forward(s, c, User, b), strict)
    ensures IsContactCommand(s.pool.mem[b].command) ==> Addressed(Forward(s, c, Contact, b), strict)
    ensures IsMessageCommand(s.pool.mem[b].command) ==> Addressed(Forward(s, c, Message, b), strict)
  {
    hide Addressed, Forward;
    var command := s.pool.mem[b].command;
    if Handles(User, command) {
      ForwardAddressed(s, c, User, b, strict);
    }
    if Handles(Contact, command) {
      ForwardAddressed(s, c, Contact, b, strict);
    }
    if Handles(Message, command) {
      ForwardAddressed(s, c, Message, b, strict);
    }
  }

  lemma MarkAddressed(s: State, c: ConnId, kind: LoginType, e: Event, strict: bool)
    requires Addressed(s, strict) && c in s.reg.conns && kind != NotLogin
    ensures Addressed(Logged(s.(reg := Marked(s.reg, c, kind)), e), strict)
  {
    AddsNothingKeeps(s, Logged(s.(reg := Marked(s.reg, c, kind)), e), strict);
  }

  /** The packet is put on the list of a client whose field names another user: the entry that the lookup
      finds is no longer true. */
  ghost predicate SrvMisdirects(s: State, b: Block)
    requires b in s.pool.mem && IndexKnown(s.reg)
  {
    match SrvPlace(s, b)
    case At(Send(Client(c))) => s.reg.conns[c].uin != s.pool.mem[b].uin
    case _ => false
  }

  /** The packet is put on the list of a client whose login has been asked for. */
  lemma PushToClient(s: State, c: ConnId, b: Block, strict: bool)
    requires Addressed(s, strict) && b in s.pool.mem && c in s.reg.conns && s.reg.conns[c].kind != NotLogin
    ensures Addressed(s.(pool := Push(s.pool, Send(Client(c)), b)), strict)
       <==> !(strict && s.reg.conns[c].uin != s.pool.mem[b].uin)
  {
    var h, r := Send(Client(c)), s.(pool := Push(s.pool, Send(Client(c)), b));
    if strict && s.reg.conns[c].uin != s.pool.mem[b].uin {
      assert On(r.pool, h, b) && !Proper(r, h, b, strict);
    } else {
      PushAddressed(s, h, b, strict);
    }
  }

  lemma SrvVerdictAddressed(s: State, b: Block, kind: LoginType, strict: bool)
    requires Addressed(s, strict) && b in s.pool.mem && IndexKnown(s.reg) && kind != NotLogin
    ensures var uin := s.pool.mem[b].uin;
            var found := FindUin(s.reg.byUin, uin);
            Addressed(SrvVerdict(s, b, kind), strict) <==>
              !(strict && found.Found? && s.reg.conns[found.conn].uin != uin)
  {
    var uin := s.pool.mem[b].uin;
    FreeAddsNothing(s, b, strict);
    AddsNothingKeeps(s, AllocatorFree(s, b), strict);
    hide Addressed, IndexKnown, List, Push, Release;
    if FindUin(s.reg.byUin, uin).Found? {
      var c := FindUin(s.reg.byUin, uin).conn;
      MarkAddressed(s, c, kind, Verdict(c, uin, kind), strict);
      PushToClient(Logged(s.(reg := Marked(s.reg, c, kind)), Verdict(c, uin, kind)), c, b, strict);
    }
  }

  lemma SrvOtherAddressed(s: State, b: Block, strict: bool)
    requires Addressed(s, strict) && b in s.pool.mem && IndexKnown(s.reg)
    ensures var uin := s.pool.mem[b].uin;
            var found := FindUin(s.reg.byUin, uin);
            Addressed(SrvOther(s, b), strict) <==>
              !(strict && found.Found? && s.reg.conns[found.conn].kind == LoginOk
                && s.reg.conns[found.conn].uin != uin)
  {
    var uin := s.pool.mem[b].uin;
    FreeAddsNothing(s, b, strict);
    AddsNothingKeeps(s, AllocatorFree(s, b), strict);
    hide Addressed, IndexKnown, List, Push, Release;
    if FindUin(s.reg.byUin, uin).Found? && s.reg.conns[FindUin(s.reg.byUin, uin).conn].kind == LoginOk {
      PushToClient(s, FindUin(s.reg.byUin, uin).conn, b, strict);
    }
  }

  /** Whatever a module sends, what waits for clients stays addressed to them exactly if the packet is not
      put on the list of a client with another user in its field. */
  lemma SrvPacketAddressed(s: State, b: Block, strict: bool)
    requires Addressed(s, strict) && b in s.pool.mem && IndexKnown(s.reg)
    ensures Addressed(SrvPacket(s, b), strict) <==> !(strict && SrvMisdirects(s, b))
  {
    hide Addressed, SrvVerdict, SrvOther, IndexKnown;
    SrvVerdictAddressed(s, b, LoginError, strict);
    SrvVerdictAddressed(s, b, LoginOk, strict);
    SrvOtherAddressed(s, b, strict);
  }

  /** If the indexes agree and clients log in once, no packet misdirects. */
  lemma LoginOnceDirects(s: State, c: ConnId, b: Block)
    requires Safe(s) && Consistent(s) && Addressed(s, true) && Backed(s.pool) && b in s.pool.mem && IndexKnown(s.reg)
    ensures LoginOnce(s, c, b) ==> !CmdMisdirects(s, c, b)
    ensures !SrvMisdirects(s, b)
  {
    ConsistentBasics(s);
    IndexesAgree(s.reg, s.pool.mem[b].uin);
    hide Safe, Tidy, RegInv, Live, IndexKnown;
    if x: Block :| On(s.pool, Send(Client(c)), x) {
      assert Proper(s, Send(Client(c)), x, true);
    }
  }

  lemma ErrorAddressed(s: State, who: Ref, strict: bool)
    requires Owned(s.pool) && Addressed(s, strict) && (who.Client? ==> who.id in s.reg.conns)
    ensures Addressed(ErrorHandler(s, who), strict)
  {
    if who.Client? {
      var conn := s.reg.conns[who.id];
      OfflineAddressed(s, conn.uin, strict);
      EnqueueOwned(s.pool, Send(Backend(Status)), OfflinePacket(conn.uin));
      var told := if conn.kind == LoginOk then SendOffline(s, conn.uin) else s;
      CloseAddsNothing(told, who.id, strict);
      hide Addressed, Owned, AddsNothing;
      AddsNothingKeeps(told, CloseConnection(told, who.id), strict);
    }
  }

  lemma {:induction false} WriteAddressed(s: State, who: Ref, results: seq<WriteResult>, strict: bool)
    requires Addressed(s, strict) && Backed(s.pool)
    ensures Addressed(WriteAll(s, who, results), strict)
    decreases |List(s.pool, Send(who))|
  {
    var list := List(s.pool, Send(who));
    if list != [] {
      FirstIsOn(s.pool, Send(who));
      var popped := PopFrom(s, Send(who));
      PopAddsNothing(s, Send(who), strict);
      AddsNothingKeeps(s, popped, strict);
      hide Addressed, AddsNothing;
      if results == [] || results[0] == Wrote {
        FreeAddsNothing(popped, list[0], strict);
        AddsNothingKeeps(popped, AllocatorFree(popped, list[0]), strict);
        WriteAddressed(AllocatorFree(popped, list[0]), who, if results == [] then [] else results[1..], strict);
      }
    }
  }

  // ---------------------------------------------------------------- the expiry pass

  lemma {:induction false} KeepAllAddressed(s: State, strict: bool)
    requires Addressed(s, strict) && Sized(s.reg.timer) && Backed(s.pool)
    ensures Addressed(KeepAllAlive(s), strict)
    decreases |List(s.pool, KeepAlive)|
  {
    if List(s.pool, KeepAlive) != [] {
      KeepOneAddsNothing(s, strict);
      AddsNothingKeeps(s, KeepOneAlive(s), strict);
      hide Addressed, KeepOneAlive;
      KeepAllAddressed(KeepOneAlive(s), strict);
    }
  }

  lemma KeepOneAddsNothing(s: State, strict: bool)
    requires Sized(s.reg.timer) && Backed(s.pool) && List(s.pool, KeepAlive) != []
    ensures AddsNothing(s, KeepOneAlive(s), strict)
  {
  }

  lemma CloseOneAddressed(s: State, c: ConnId, strict: bool)
    requires Owned(s.pool) && Addressed(s, strict) && c in s.reg.conns
    ensures Addressed(CloseOne(s, c), strict)
  {
    var uin := s.reg.conns[c].uin;
    var told := SendOffline(s, uin);
    EnqueueOwned(s.pool, Send(Backend(Status)), OfflinePacket(uin));
    OfflineAddressed(s, uin, strict);
    CloseAddsNothing(told, c, strict);
    hide Owned, Addressed, AddsNothing, Loose, On;
    AddsNothingKeeps(told, CloseOne(s, c), strict);
  }

  lemma AcceptAddressed(s: State, fd: int, strict: bool)
    requires Addressed(s, strict) && Sized(s.reg.timer)
    ensures Addressed(AcceptConn(s, fd), strict)
  {
    var r := AcceptConn(s, fd);
    forall h: Head, b: Block | On(r.pool, h, b) && Waits(h) ensures Proper(r, h, b, strict) {
      assert On(s.pool, h, b) && Proper(s, h, b, strict);
    }
  }

  /** At the start the one packet that waits tells the message module the address for clients. */
  lemma StartTellsMessage(ip: nat, port: nat, h: Head, b: Block)
    requires On(Start(ip, port).pool, h, b)
    ensures h == Send(Backend(Message)) && List(Start(ip, port).pool, h) == [b] && b in Start(ip, port).pool.mem
    ensures var p := Start(ip, port).pool.mem[b];
            p.length == 18 && p.command == CMD_CONN_INFO && p.uin == 0 && p.params == ConnInfo(ip, port)
  {
  }

  lemma StartAddressed(ip: nat, port: nat, strict: bool)
    ensures Addressed(Start(ip, port), strict)
  {
    var p := Pool(map[], map[], 0);
    assert forall h: Head, b: Block :: !On(p, h, b);
    EnqueueOwned(p, Send(Backend(Message)), ConnInfoPacket(ip, port));
  }

  lemma ListedIsProper(s: State, h: Head, b: Block, strict: bool)
    requires Addressed(s, strict) && Waits(h)
    ensures b in List(s.pool, h) ==> Proper(s, h, b, strict)
  {
    assert b in List(s.pool, h) ==> On(s.pool, h, b);
  }
}
