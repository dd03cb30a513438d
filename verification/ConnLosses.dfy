/** Where the connection server's packet blocks go: the list on which every handler leaves the block it is
    given, and exactly when a block is lost, on no list at all and never to be used again. */
module ConnLosses {
  import opened Protocol
  import opened Sequences
  import opened TimerSpec
  import opened PacketPool
  import opened ConnRegistry
  import opened ConnHandlers
  import opened ConnSafety

  datatype Place = At(h: Head) | Nowhere

  /** Block b has gone to a place, and no other block has been lost or found. */
  ghost predicate Goes(p: Pool, q: Pool, b: Block, place: Place) {
    && (forall h: Head :: On(q, h, b) <==> place == At(h))
    && (forall x: Block :: Loose(q, x) <==> Loose(p, x) && (x == b ==> place.Nowhere?))
  }

  /** No block is lost or found. */
  ghost predicate KeepsAll(p: Pool, q: Pool) {
    forall x: Block :: Loose(q, x) <==> Loose(p, x)
  }

  /** Some block is lost. */
  ghost predicate LosesOne(p: Pool, q: Pool) {
    exists x: Block :: Loose(q, x) && !Loose(p, x)
  }

  /** What is lost stays lost. */
  ghost predicate FindsNone(p: Pool, q: Pool) {
    forall x: Block :: Loose(p, x) ==> Loose(q, x)
  }

  // ---------------------------------------------------------------- where a packet goes

  lemma PushGoes(p: Pool, h: Head, b: Block)
    requires Owned(p) && Loose(p, b)
    ensures Goes(p, Push(p, h, b), b, At(h))
  {
    PushOwned(p, h, b);
    hide Loose, Owned;
    assert forall k: Head :: !On(p, k, b) by {
      LooseIsNowhere(p, b);
    }
  }

  lemma LooseIsNowhere(p: Pool, b: Block)
    requires Loose(p, b)
    ensures forall k: Head :: !On(p, k, b)
  {
  }

  lemma FreeGoes(p: Pool, b: Block)
    requires Owned(p) && Loose(p, b)
    ensures Goes(p, Release(p, b), b, At(Free))
  {
    ReleaseOwned(p, b);
    LooseIsNowhere(p, b);
    hide Loose, Owned;
  }

  lemma NowhereGoes(p: Pool, b: Block)
    requires Loose(p, b)
    ensures Goes(p, p, b, Nowhere)
  {
    LooseIsNowhere(p, b);
    hide Loose;
  }

  /** Where a client's packet goes. A logout's packet is released, and the very block is then taken for the
      announcement to the status module. An unknown command's is lost. */
  ghost function CmdPlace(s: State, c: ConnId, b: Block): Place
    requires b in s.pool.mem && c in s.reg.conns
  {
    var command := s.pool.mem[b].command;
    if s.reg.conns[c].kind != LoginOk && command != CMD_LOGIN then At(Free)
    else if command == CMD_KEEP_ALIVE then At(KeepAlive)
    else if command == CMD_LOGIN || command == CMD_SET_NICK then At(Send(Backend(User)))
    else if command == CMD_LOGOUT then At(Send(Backend(Status)))
    else if command in {CMD_ADD_CONTACT, CMD_ADD_CONTACT_REPLY, CMD_CONTACT_LIST, CMD_CONTACT_INFO_MULTI}
    then At(Send(Backend(Contact)))
    else if command == CMD_MESSAGE || command == CMD_OFFLINE_MSG then At(Send(Backend(Message)))
    else Nowhere
  }

  /** A block that is released and at once taken again for a new packet. */
  lemma ReusedGoes(p: Pool, b: Block, h: Head, packet: Packet)
    requires Owned(p) && Loose(p, b)
    ensures var q := Enqueue(Release(p, b), h, packet);
            Owned(q) && Goes(p, q, b, At(h)) && b in q.mem && q.mem[b] == packet
  {
    var r := Release(p, b);
    assert List(r, Free)[0] == b == NewBlock(r);
    ReleaseOwned(p, b);
    EnqueueOwned(r, h, packet);
    hide Owned, Loose, On;
  }

  /** Closing a connection leaves the block of a module's packet where it is. */
  lemma {:induction false} CloseLeaves(p: Pool, q: Pool, c: ConnId, b: Block, side: Side)
    requires Owned(q) && Goes(p, q, b, At(Send(Backend(side))))
    ensures Goes(p, ReleaseAll(ReleaseAll(q, Recv(Client(c))), Send(Client(c))), b, At(Send(Backend(side))))
  {
    ListsReleased(q, c);
    hide Owned, Loose, On, ReleaseAll;
  }

  lemma LogoutGoes(s: State, c: ConnId, b: Block)
    requires Safe(s) && Loose(s.pool, b) && c in s.reg.conns
    ensures var r := CmdLogout(s, c, b);
            && Goes(s.pool, r.pool, b, At(Send(Backend(Status))))
            && b in r.pool.mem && r.pool.mem[b] == OfflinePacket(s.pool.mem[b].uin)
  {
    assert Owned(s.pool);
    var uin := s.pool.mem[b].uin;
    var h := Send(Backend(Status));
    hide Owned, Loose, Goes, Safe, Enqueue, ReleaseAll;
    ReusedGoes(s.pool, b, h, OfflinePacket(uin));
    CloseLeaves(s.pool, Enqueue(Release(s.pool, b), h, OfflinePacket(uin)), c, b, Status);
  }

  /** The list on which a client's packet ends up, for every command and login state. */
  lemma CmdPacketGoes(s: State, c: ConnId, b: Block)
    requires Safe(s) && Loose(s.pool, b) && c in s.reg.conns
    ensures Goes(s.pool, CmdPacket(s, c, b).pool, b, CmdPlace(s, c, b))
  {
    assert b in s.pool.mem && Owned(s.pool);
    var command := s.pool.mem[b].command;
    hide Goes, Safe, Owned, Loose, CmdLogout, Push, Release, List;
    if s.reg.conns[c].kind != LoginOk && command != CMD_LOGIN {
      FreeGoes(s.pool, b);
    } else if command == CMD_KEEP_ALIVE {
      PushGoes(s.pool, KeepAlive, b);
    } else if command == CMD_LOGIN || command == CMD_SET_NICK {
      PushGoes(s.pool, Send(Backend(User)), b);
    } else if command == CMD_LOGOUT {
      LogoutGoes(s, c, b);
    } else if IsContactCommand(command) {
      PushGoes(s.pool, Send(Backend(Contact)), b);
    } else if IsMessageCommand(command) {
      PushGoes(s.pool, Send(Backend(Message)), b);
    } else {
      NowhereGoes(s.pool, b);
    }
  }

  /** What enters the history with a client's packet, by the list it goes to. */
  ghost function EventsOf(s: State, c: ConnId, b: Block): seq<Event>
    requires b in s.pool.mem && c in s.reg.conns
  {
    var p := s.pool.mem[b];
    match CmdPlace(s, c, b)
    case At(Send(Backend(side))) =>
      if side == Status then [AnnouncedOffline(p.uin), ClosedConn(c)]
      else (if p.command == CMD_LOGIN then [LoginAsked(c, p.uin)] else []) + [Forwarded(c, side, p.command)]
    case _ => []
  }

  lemma CmdPacketLog(s: State, c: ConnId, b: Block)
    requires b in s.pool.mem && c in s.reg.conns
    ensures CmdPacket(s, c, b).log == s.log + EventsOf(s, c, b)
  {
    hide Settles, Push, List, Enqueue, ReleaseAll, Dropped, LoggedIn;
    assert s.log + [] == s.log;
    var uin := s.pool.mem[b].uin;
    assert s.log + ([LoginAsked(c, uin)] + [Forwarded(c, User, CMD_LOGIN)])
        == s.log + [LoginAsked(c, uin)] + [Forwarded(c, User, CMD_LOGIN)];
  }

  /** What the history says of forwarding is so: a client's packet enters it as forwarded to a module exactly
      when it is put on that module's list, but for a logout, whose block goes to the status module. */
  lemma ForwardsAreLogged(s: State, c: ConnId, b: Block, side: Side)
    requires Safe(s) && Loose(s.pool, b) && c in s.reg.conns
    ensures var command, r := s.pool.mem[b].command, CmdPacket(s, c, b);
            s.log <= r.log
            && (Forwarded(c, side, command) in r.log[|s.log|..] <==>
                  On(r.pool, Send(Backend(side)), b) && side != Status)
  {
    hide Safe, Loose, On, CmdPacket, CmdPlace;
    assert b in s.pool.mem by {
      LooseIsBlock(s.pool, b);
    }
    CmdPacketGoes(s, c, b);
    CmdPacketLog(s, c, b);
    assert CmdPacket(s, c, b).log[|s.log|..] == EventsOf(s, c, b);
  }

  lemma LooseIsBlock(p: Pool, b: Block)
    requires Loose(p, b)
    ensures b in p.mem
  {
  }

  /** Where a module's packet goes: to the client its user number finds, unless no client is found or, for
      anything but a verdict on a login, that client is not logged in. An unknown command's is lost. */
  ghost function SrvPlace(s: State, b: Block): Place
    requires b in s.pool.mem && IndexKnown(s.reg)
  {
    var command, found := s.pool.mem[b].command, FindUin(s.reg.byUin, s.pool.mem[b].uin);
    if command == SRV_ERROR || command == SRV_LOGIN_OK then
      if found.Found? then At(Send(Client(found.conn))) else At(Free)
    else if command in {SRV_SET_NICK_OK, SRV_ADD_CONTACT_WAIT, SRV_CONTACT_LIST, SRV_CONTACT_INFO_MULTI,
                        SRV_MESSAGE, SRV_OFFLINE_MSG, SRV_OFFLINE_MSG_DONE} then
      if found.Found? && s.reg.conns[found.conn].kind == LoginOk then At(Send(Client(found.conn))) else At(Free)
    else Nowhere
  }

  /** The list on which a module's packet ends up; a verdict on a login is also noted at the connection. */
  lemma SrvPacketGoes(s: State, b: Block)
    requires Safe(s) && Loose(s.pool, b) && IndexKnown(s.reg)
    ensures Goes(s.pool, SrvPacket(s, b).pool, b, SrvPlace(s, b))
    ensures var command, found := s.pool.mem[b].command, FindUin(s.reg.byUin, s.pool.mem[b].uin);
            (command == SRV_ERROR || command == SRV_LOGIN_OK) && found.Found? ==>
              && found.conn in SrvPacket(s, b).reg.conns
              && SrvPacket(s, b).reg.conns[found.conn].kind == if command == SRV_ERROR then LoginError else LoginOk
  {
    assert Owned(s.pool) && b in s.pool.mem;
    hide Goes, Safe, Owned, Loose, Push, Release, List;
    match SrvPlace(s, b) {
      case At(Free) => FreeGoes(s.pool, b);
      case At(h) => PushGoes(s.pool, h, b);
      case Nowhere => NowhereGoes(s.pool, b);
    }
  }

  /** The handlers of client commands. */
  predicate IsClientCommand(command: nat) {
    command in {CMD_KEEP_ALIVE, CMD_LOGIN, CMD_LOGOUT, CMD_SET_NICK, CMD_ADD_CONTACT, CMD_ADD_CONTACT_REPLY,
                CMD_CONTACT_LIST, CMD_CONTACT_INFO_MULTI, CMD_MESSAGE, CMD_OFFLINE_MSG}
  }

  predicate IsReply(command: nat) {
    command in {SRV_ERROR, SRV_LOGIN_OK, SRV_SET_NICK_OK, SRV_ADD_CONTACT_WAIT, SRV_CONTACT_LIST,
                SRV_CONTACT_INFO_MULTI, SRV_MESSAGE, SRV_OFFLINE_MSG, SRV_OFFLINE_MSG_DONE}
  }

  /** A client's packet is lost exactly if the client is logged in and the command is unknown; a module's
      exactly if its command is. */
  lemma UnknownCommandIsLost(s: State, c: ConnId, b: Block)
    requires Safe(s) && Loose(s.pool, b) && c in s.reg.conns && IndexKnown(s.reg)
    ensures Loose(CmdPacket(s, c, b).pool, b)
       <==> s.reg.conns[c].kind == LoginOk && !IsClientCommand(s.pool.mem[b].command)
    ensures Loose(SrvPacket(s, b).pool, b) <==> !IsReply(s.pool.mem[b].command)
  {
    CmdPacketGoes(s, c, b);
    SrvPacketGoes(s, b);
    assert b in s.pool.mem;
    hide Safe, Loose, CmdPacket, SrvPacket, On;
  }

  /** What a received packet is for. */
  ghost function PlaceOf(s: State, who: Ref, b: Block): Place
    requires b in s.pool.mem && IndexKnown(s.reg) && (who.Client? ==> who.id in s.reg.conns)
  {
    if who.Backend? then SrvPlace(s, b) else CmdPlace(s, who.id, b)
  }

  // ---------------------------------------------------------------- losses while processing

  /** One of the packets on the receive list is, when its turn comes, one that nobody handles: a client
      that is logged in has sent an unknown command, or a module has. */
  ghost predicate Unhandled(s: State, who: Ref)
    requires Safe(s) && Processable(s, who)
    decreases |List(s.pool, Recv(who))|
  {
    SafeBasics(s);
    List(s.pool, Recv(who)) != [] &&
    (PacketSafe(s, who);
     var b, popped := List(s.pool, Recv(who))[0], PopFrom(s, Recv(who));
     PlaceOf(popped, who, b).Nowhere? || Unhandled(PacketOf(popped, who, b), who))
  }

  lemma PacketLoses(s: State, who: Ref)
    requires Safe(s) && Processable(s, who) && List(s.pool, Recv(who)) != []
    ensures Backed(s.pool) && IndexKnown(s.reg) && List(s.pool, Recv(who))[0] in s.pool.mem
    ensures var b, popped := List(s.pool, Recv(who))[0], PopFrom(s, Recv(who));
            var r := PacketOf(popped, who, b);
            && !Loose(s.pool, b)
            && forall x: Block :: Loose(r.pool, x) <==>
                 Loose(s.pool, x) || (x == b && PlaceOf(popped, who, b).Nowhere?)
  {
    var b, popped := List(s.pool, Recv(who))[0], PopFrom(s, Recv(who));
    PacketSafe(s, who);
    PopOwned(s.pool, Recv(who));
    FirstIsOn(s.pool, Recv(who));
    assert !Loose(s.pool, b);
    assert Owned(s.pool);
    hide Safe, Loose, Owned, CmdPacket, SrvPacket, CmdPlace, SrvPlace, On;
    if who.Backend? {
      SrvPacketGoes(popped, b);
    } else {
      CmdPacketGoes(popped, who.id, b);
    }
  }

  /** Processing leaves nothing on the receive list. */
  lemma {:induction false} ProcessEmpties(s: State, who: Ref)
    requires Backed(s.pool) && IndexKnown(s.reg) && (who.Client? ==> who.id in s.reg.conns)
    ensures List(Process(s, who).pool, Recv(who)) == []
    decreases |List(s.pool, Recv(who))|
  {
    if List(s.pool, Recv(who)) != [] {
      FirstIsOn(s.pool, Recv(who));
      hide PacketOf;
      ProcessEmpties(PacketOf(PopFrom(s, Recv(who)), who, List(s.pool, Recv(who))[0]), who);
    }
  }

  /** Processing a receive list loses a block exactly if one of its packets is unhandled. */
  lemma {:induction false} ProcessLoses(s: State, who: Ref)
    requires Safe(s) && Processable(s, who)
    ensures Backed(s.pool) && IndexKnown(s.reg) && FindsNone(s.pool, Process(s, who).pool)
    ensures LosesOne(s.pool, Process(s, who).pool) <==> Unhandled(s, who)
    decreases |List(s.pool, Recv(who))|
  {
    SafeBasics(s);
    if List(s.pool, Recv(who)) != [] {
      PacketSafe(s, who);
      PacketLoses(s, who);
      var b, popped := List(s.pool, Recv(who))[0], PopFrom(s, Recv(who));
      var r := PacketOf(popped, who, b);
      ProcessLoses(r, who);
      assert Process(s, who) == Process(r, who);
      assert Unhandled(s, who) <==> PlaceOf(popped, who, b).Nowhere? || Unhandled(r, who);
      hide Safe, Loose, PacketOf, Processable, Process, Unhandled, PlaceOf;
      LossesAdd(s.pool, r.pool, Process(r, who).pool);
      assert PlaceOf(popped, who, b).Nowhere? ==> Loose(r.pool, b) && !Loose(s.pool, b);
    }
  }

  lemma LossesAdd(p: Pool, q: Pool, r: Pool)
    requires FindsNone(p, q) && FindsNone(q, r)
    ensures FindsNone(p, r) && (LosesOne(p, r) <==> LosesOne(p, q) || LosesOne(q, r))
  {
    hide Loose;
    if x: Block :| Loose(q, x) && !Loose(p, x) {
      assert Loose(r, x);
    }
    if x: Block :| Loose(r, x) && !Loose(q, x) {
      assert !Loose(p, x);
    }
    if x: Block :| Loose(r, x) && !Loose(p, x) {
      assert if Loose(q, x) then LosesOne(p, q) else LosesOne(q, r);
    }
  }

  lemma KeepsAllLosesNone(p: Pool, q: Pool)
    requires KeepsAll(p, q)
    ensures FindsNone(p, q) && !LosesOne(p, q)
  {
    hide Loose;
  }

  // ---------------------------------------------------------------- losses while writing

  /** The i-th write is the first that does not succeed: it would block, or it fails. */
  ghost predicate StopsAt(results: seq<WriteResult>, n: nat, i: int) {
    0 <= i < n && i < |results| && results[i] != Wrote && forall j :: 0 <= j < i ==> results[j] == Wrote
  }

  /** Writing the list stops at b. */
  ghost predicate StopsAtBlock(list: seq<Block>, results: seq<WriteResult>, b: Block) {
    exists i :: StopsAt(results, |list|, i) && list[i] == b
  }

  lemma StopsLater(list: seq<Block>, results: seq<WriteResult>, b: Block)
    requires list != [] && results != [] && results[0] == Wrote
    ensures StopsAtBlock(list, results, b) <==> StopsAtBlock(list[1..], results[1..], b)
  {
    if i :| StopsAt(results, |list|, i) && list[i] == b {
      forall j | 0 <= j < i - 1 ensures results[1..][j] == Wrote {
        assert results[1..][j] == results[j + 1];
      }
      assert StopsAt(results[1..], |list[1..]|, i - 1) && list[1..][i - 1] == b;
    }
    if i :| StopsAt(results[1..], |list[1..]|, i) && list[1..][i] == b {
      forall j | 0 <= j < i + 1 ensures results[j] == Wrote {
        assert j > 0 ==> results[1..][j - 1] == results[j];
      }
      assert StopsAt(results, |list|, i + 1) && list[i + 1] == b;
    }
  }

  lemma StopsFirst(list: seq<Block>, results: seq<WriteResult>, b: Block)
    requires list != []
    ensures results == [] ==> !StopsAtBlock(list, results, b)
    ensures results != [] && results[0] != Wrote ==> (StopsAtBlock(list, results, b) <==> list[0] == b)
  {
    if results != [] && results[0] != Wrote {
      assert StopsAt(results, |list|, 0);
    }
  }

  /** Writing a send list loses exactly the packet at which it stops, be it the first or a later one. */
  lemma {:induction false} WriteLosesPacket(s: State, who: Ref, results: seq<WriteResult>, b: Block)
    requires Safe(s)
    ensures Backed(s.pool)
    ensures Loose(WriteAll(s, who, results).pool, b)
       <==> Loose(s.pool, b) || StopsAtBlock(List(s.pool, Send(who)), results, b)
    decreases |List(s.pool, Send(who))|
  {
    var list := List(s.pool, Send(who));
    SafeBasics(s);
    if list != [] {
      PopSafe(s, Send(who));
      PopOwned(s.pool, Send(who));
      FirstIsOn(s.pool, Send(who));
      StopsFirst(list, results, b);
      var popped := PopFrom(s, Send(who));
      if results == [] || results[0] == Wrote {
        var r, rest := AllocatorFree(popped, list[0]), if results == [] then [] else results[1..];
        FreeSafe(popped, list[0]);
        ReleaseOwned(popped.pool, list[0]);
        assert List(r.pool, Send(who)) == list[1..];
        assert Loose(r.pool, b) <==> Loose(s.pool, b);
        WriteLosesPacket(r, who, rest, b);
        hide Safe, Loose, Owned, WriteAll, On, AllocatorFree;
        if results != [] {
          StopsLater(list, results, b);
        } else {
          NeverStops(list[1..], b);
        }
      } else {
        hide Safe, Owned, On, StopsAtBlock;
      }
    }
  }

  /** Writing takes the packets off the list from the front: all of them, or those up to and including the one
      at which it stops. */
  lemma {:induction false} WriteLeaves(s: State, who: Ref, results: seq<WriteResult>, i: int)
    requires Backed(s.pool)
    ensures var list, left := List(s.pool, Send(who)), List(WriteAll(s, who, results).pool, Send(who));
            && (StopsAt(results, |list|, i) ==> left == list[i + 1..])
            && ((forall k :: !StopsAt(results, |list|, k)) ==> left == [])
    decreases |List(s.pool, Send(who))|
  {
    var list := List(s.pool, Send(who));
    if list != [] {
      FirstIsOn(s.pool, Send(who));
      var popped := PopFrom(s, Send(who));
      if results == [] || results[0] == Wrote {
        var r, rest := AllocatorFree(popped, list[0]), if results == [] then [] else results[1..];
        assert List(r.pool, Send(who)) == list[1..];
        WriteLeaves(r, who, rest, i - 1);
        StopsShift(results, |list|);
        if forall k :: !StopsAt(results, |list|, k) {
          var n := |list| - 1;
          forall k ensures !StopsAt(rest, n, k) {
            assert !StopsAt(results, |list|, k + 1);
          }
        }
        if StopsAt(results, |list|, i) {
          assert list[1..][i..] == list[i + 1..];
        }
      } else {
        assert StopsAt(results, |list|, 0);
      }
    }
  }

  lemma StopsShift(results: seq<WriteResult>, n: nat)
    requires n > 0 && (results == [] || results[0] == Wrote)
    ensures forall i :: StopsAt(results, n, i) <==>
              results != [] && StopsAt(results[1..], n - 1, i - 1)
  {
    if results != [] {
      forall i ensures StopsAt(results, n, i) <==> StopsAt(results[1..], n - 1, i - 1) {
        if StopsAt(results, n, i) {
          assert forall j :: 0 <= j < i - 1 ==> results[1..][j] == results[j + 1];
        }
        if StopsAt(results[1..], n - 1, i - 1) {
          assert forall j :: 0 < j < i ==> results[j] == results[1..][j - 1];
        }
      }
    }
  }

  lemma NeverStops(list: seq<Block>, b: Block)
    ensures !StopsAtBlock(list, [], b)
  {
  }

  /** A write does not succeed before the send list is empty. */
  ghost predicate WriteStops(s: State, who: Ref, results: seq<WriteResult>) {
    exists i :: 0 <= i < |results| && i < |List(s.pool, Send(who))| && results[i] != Wrote
  }

  lemma {:induction false} FirstStop(list: seq<Block>, results: seq<WriteResult>, i: nat)
    requires i < |results| && i < |list| && results[i] != Wrote
    ensures exists k :: StopsAt(results, |list|, k)
  {
    if forall j :: 0 <= j < i ==> results[j] == Wrote {
      assert StopsAt(results, |list|, i);
    } else {
      var j :| 0 <= j < i && results[j] != Wrote;
      FirstStop(list, results, j);
    }
  }

  /** Writing loses a block exactly if a write does not succeed before the list is empty. */
  lemma {:induction false} WriteLoses(s: State, who: Ref, results: seq<WriteResult>)
    requires Safe(s)
    ensures Backed(s.pool) && FindsNone(s.pool, WriteAll(s, who, results).pool)
    ensures LosesOne(s.pool, WriteAll(s, who, results).pool) <==> WriteStops(s, who, results)
  {
    SafeBasics(s);
    var list, r := List(s.pool, Send(who)), WriteAll(s, who, results);
    forall b: Block ensures Loose(r.pool, b) <==> Loose(s.pool, b) || StopsAtBlock(list, results, b) {
      WriteLosesPacket(s, who, results, b);
    }
    forall b: Block | b in list ensures !Loose(s.pool, b) {
      assert On(s.pool, Send(who), b);
    }
    hide Safe, Loose, WriteAll, List, On, Owned;
    if i :| 0 <= i < |results| && i < |list| && results[i] != Wrote {
      FirstStop(list, results, i);
      var k :| StopsAt(results, |list|, k);
      assert list[k] in list && StopsAtBlock(list, results, list[k]);
      assert Loose(r.pool, list[k]) && !Loose(s.pool, list[k]);
    }
    if b: Block :| Loose(r.pool, b) && !Loose(s.pool, b) {
      var i :| StopsAt(results, |list|, i) && list[i] == b;
      assert results[i] != Wrote;
    }
  }

  // ---------------------------------------------------------------- losses of a step

  lemma ErrorKeepsAll(s: State, who: Ref)
    requires Safe(s) && Open(s, who)
    ensures KeepsAll(s.pool, ErrorHandler(s, who).pool)
  {
    if who.Client? {
      SafeBasics(s);
      var conn := s.reg.conns[who.id];
      EnqueueOwned(s.pool, Send(Backend(Status)), OfflinePacket(conn.uin));
      ListsReleased(s.pool, who.id);
      ListsReleased(Enqueue(s.pool, Send(Backend(Status)), OfflinePacket(conn.uin)), who.id);
      hide Safe, Owned, Loose, Enqueue, ReleaseAll;
    }
  }

  lemma PassKeepsAll(s: State, interval: nat)
    requires Safe(s) && Timed(s.reg) && 1 <= interval <= CLIENT_TIMEOUT
    ensures KeepsAll(s.pool, AfterPass(s, interval).pool)
  {
    BeforeClosingSafe(s, interval);
    AfterPassIsExpiry(s, interval);
    TickPlaced(s.reg, interval);
    var ticked, r := s.(reg := Ticked(s.reg, interval)), BeforeClosing(s, interval);
    TimerSafe(s, ticked.reg);
    KeepAllMoves(ticked);
    hide Safe, Loose, Timed, KeepAllAlive, CloseAll, TimeoutList, AgesAfter, AfterPass, On, Placed, Holds;
    CloseAllSafe(r, TimeoutList(r.reg.timer));
  }

  lemma AcceptLoses(s: State, fd: int)
    requires Safe(s) && fd !in s.reg.byFd
    ensures Sized(s.reg.timer) && FindsNone(s.pool, AcceptConn(s, fd).pool)
    ensures LosesOne(s.pool, AcceptConn(s, fd).pool) <==> Loses(s, Connect(fd))
  {
    SafeBasics(s);
    var c := NewConn(s.reg);
    EmptiedOwned(s.pool, Recv(Client(c)));
    EmptiedOwned(Emptied(s.pool, Recv(Client(c))), Send(Client(c)));
    FirstIsOn(s.pool, Recv(Client(c)));
    FirstIsOn(s.pool, Send(Client(c)));
    var r := AcceptConn(s, fd);
    assert r.pool == Emptied(Emptied(s.pool, Recv(Client(c))), Send(Client(c)));
    forall h: Head, x: Block | On(s.pool, h, x) ensures !Loose(s.pool, x) {
    }
    hide Safe, Owned, Loose, Emptied, AcceptConn;
    forall h: Head | List(s.pool, h) != [] && (h == Recv(Client(c)) || h == Send(Client(c)))
      ensures LosesOne(s.pool, r.pool)
    {
      var x := List(s.pool, h)[0];
      assert Loose(r.pool, x) && !Loose(s.pool, x);
    }
  }

  ghost function Received(s: State, who: Ref, packets: seq<Packet>): State {
    s.(pool := EnqueueAll(s.pool, Recv(who), packets))
  }

  lemma ReceivedSafe(s: State, who: Ref, packets: seq<Packet>)
    requires Safe(s) && Open(s, who)
    ensures Safe(Received(s, who, packets)) && Processable(Received(s, who, packets), who)
    ensures Open(Received(s, who, packets), who) && KeepsAll(s.pool, Received(s, who, packets).pool)
  {
    SafeBasics(s);
    EnqueueAllOwned(s.pool, Recv(who), packets);
    hide Safe, Owned, Loose, Holds;
    ReceiveSafe(s, who, packets);
  }

  /** The step loses a packet block: a new connection gets a structure whose queues still hold packets, a
      packet is received that nobody handles, or a write does not succeed. */
  ghost predicate Loses(s: State, i: Input)
    requires Safe(s) && Possible(s, i)
  {
    match i
    case Connect(_) =>
      var c := NewConn(s.reg);
      List(s.pool, Recv(Client(c))) != [] || List(s.pool, Send(Client(c))) != []
    case Readable(who, packets, err) =>
      !err && (ReceivedSafe(s, who, packets); Unhandled(Received(s, who, packets), who))
    case Writable(who, results) => WriteStops(s, who, results)
    case Fault(_) => false
    case Seconds(_) => false
    case Rehashed(_) => false
  }

  lemma ReadLoses(s: State, who: Ref, packets: seq<Packet>, err: bool)
    requires Safe(s) && Open(s, who)
    ensures Backed(s.pool) && IndexKnown(s.reg) && (who.Client? ==> who.id in s.reg.conns)
    ensures FindsNone(s.pool, ReadHandler(s, who, packets, err).pool)
    ensures LosesOne(s.pool, ReadHandler(s, who, packets, err).pool) <==> Loses(s, Readable(who, packets, err))
  {
    SafeBasics(s);
    ReceivedSafe(s, who, packets);
    var r := Received(s, who, packets);
    KeepsAllLosesNone(s.pool, r.pool);
    hide Safe, KeepsAll, FindsNone, LosesOne, Unhandled, Live, Holds, Processable;
    if err {
      ErrorKeepsAll(r, who);
      KeepsAllLosesNone(r.pool, ErrorHandler(r, who).pool);
      LossesAdd(s.pool, r.pool, ErrorHandler(r, who).pool);
    } else {
      ProcessLoses(r, who);
      LossesAdd(s.pool, r.pool, Process(r, who).pool);
    }
  }

  lemma WriteHandlerLoses(s: State, who: Ref, results: seq<WriteResult>)
    requires Safe(s) && Open(s, who)
    ensures Backed(s.pool) && (who.Client? ==> who.id in s.reg.conns)
    ensures FindsNone(s.pool, WriteHandler(s, who, results).pool)
    ensures LosesOne(s.pool, WriteHandler(s, who, results).pool) <==> WriteStops(s, who, results)
  {
    SafeBasics(s);
    WriteSafe(s, who, results);
    WriteLoses(s, who, results);
    var r := WriteAll(s, who, results);
    hide Safe, KeepsAll, FindsNone, LosesOne, WriteStops, WriteFails, WriteAll, Live, Holds;
    ErrorKeepsAll(r, who);
    KeepsAllLosesNone(r.pool, ErrorHandler(r, who).pool);
    LossesAdd(s.pool, r.pool, ErrorHandler(r, who).pool);
  }

  /** A step loses a block exactly under these conditions, and no step brings a lost block back. */
  lemma StepLoses(s: State, i: Input)
    requires Safe(s) && Timed(s.reg) && Possible(s, i)
    ensures FindsNone(s.pool, Next(s, i).pool)
    ensures LosesOne(s.pool, Next(s, i).pool) <==> Loses(s, i)
  {
    SafeBasics(s);
    hide Safe, Timed, KeepsAll, FindsNone, LosesOne, WriteStops, Live, Holds, Placed, IndexKnown, Backed, Owned;
    match i {
      case Connect(fd) => AcceptLoses(s, fd);
      case Readable(who, packets, err) => ReadLoses(s, who, packets, err);
      case Writable(who, results) => WriteHandlerLoses(s, who, results);
      case Fault(who) =>
        ErrorKeepsAll(s, who);
        KeepsAllLosesNone(s.pool, ErrorHandler(s, who).pool);
      case Seconds(interval) =>
        if interval > 0 {
          PassKeepsAll(s, interval);
          AfterPassIsStep(s, interval);
          KeepsAllLosesNone(s.pool, AfterPass(s, interval).pool);
        } else {
          SameKeepsAll(s.pool);
          KeepsAllLosesNone(s.pool, s.pool);
        }
      case Rehashed(_) =>
        SameKeepsAll(s.pool);
        KeepsAllLosesNone(s.pool, s.pool);
    }
  }

  lemma SameKeepsAll(p: Pool)
    ensures KeepsAll(p, p)
  {
  }

  // ---------------------------------------------------------------- losses over a run

  /** Some step of the run loses a block. */
  ghost predicate RunLoses(s: State, run: seq<Input>, r: State)
    requires Leads(s, run, r)
    decreases |run|
  {
    run != [] && (Loses(s, run[0]) || RunLoses(Next(s, run[0]), run[1..], r))
  }

  lemma {:induction false} RunLosesOne(s: State, run: seq<Input>, r: State)
    requires Safe(s) && Timed(s.reg) && Leads(s, run, r)
    ensures FindsNone(s.pool, r.pool) && (LosesOne(s.pool, r.pool) <==> RunLoses(s, run, r))
    decreases |run|
  {
    if run == [] {
      SameKeepsAll(s.pool);
      KeepsAllLosesNone(s.pool, r.pool);
    } else {
      var q := Next(s, run[0]);
      StepSafe(s, run[0]);
      StepLoses(s, run[0]);
      RunLosesOne(q, run[1..], r);
      LossesAdd(s.pool, q.pool, r.pool);
    }
  }

  ghost predicate Listed(p: Pool, b: Block) {
    exists h :: On(p, h, b)
  }

  /** Every block that was ever handed out is on a list. */
  ghost predicate NoneLost(p: Pool) {
    forall b: Block :: b < p.next ==> Listed(p, b)
  }

  lemma LostIsLoose(p: Pool)
    requires Owned(p)
    ensures NoneLost(p) <==> forall b: Block :: !Loose(p, b)
  {
    forall b: Block ensures Loose(p, b) <==> b < p.next && !Listed(p, b) {
      if b < p.next && !Listed(p, b) {
        assert forall h :: !On(p, h, b);
      }
    }
    hide Loose, Listed, Owned;
  }

  lemma StartLosesNone(ip: nat, port: nat)
    ensures forall b: Block :: !Loose(Start(ip, port).pool, b)
  {
    var p := Pool(map[], map[], 0);
    assert forall h: Head, b: Block :: !On(p, h, b);
    EnqueueOwned(p, Send(Backend(Message)), ConnInfoPacket(ip, port));
  }

  /** After a run, every block ever handed out is on a list, by BlocksHaveOneOwner on exactly one, if and
      only if no step of the run has lost one. */
  lemma {:induction false} BlocksAreListedUnlessLost(ip: nat, port: nat, run: seq<Input>, r: State)
    requires Leads(Start(ip, port), run, r)
    ensures NoneLost(r.pool) <==> !RunLoses(Start(ip, port), run, r)
  {
    StartSafe(ip, port);
    StartLosesNone(ip, port);
    var s := Start(ip, port);
    hide Safe, Start, Leads, Next, RunLoses, Loose, Timed;
    RunSafe(s, run, r);
    RunLosesOne(s, run, r);
    SafeBasics(r);
    LostIsLoose(r.pool);
  }
}
