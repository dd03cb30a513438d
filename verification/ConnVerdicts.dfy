/** Which verdicts on logins fit: the program notes a verdict at the connection that a lookup of the user
    finds, which may have asked to log in as another user since. */
module ConnVerdicts {
  import opened Protocol
  import opened TimerSpec
  import opened PacketPool
  import opened ConnRegistry
  import opened ConnHandlers
  import opened ConnSafety
  import opened ConnLosses

  predicate IsVerdict(command: nat) {
    command == SRV_ERROR || command == SRV_LOGIN_OK
  }

  /** The verdict is noted at a connection whose field names another user. */
  ghost predicate Misfits(s: State, b: Block)
    requires b in s.pool.mem && IndexKnown(s.reg)
  {
    match FindUin(s.reg.byUin, s.pool.mem[b].uin)
    case Found(c) => IsVerdict(s.pool.mem[b].command) && s.reg.conns[c].uin != s.pool.mem[b].uin
    case Missing => false
  }

  /** A module's packet adds to the history a verdict that fits exactly if the connection it finds has that
      user in its field. */
  lemma SrvPacketFits(s: State, b: Block)
    requires Safe(s) && b in s.pool.mem && IndexKnown(s.reg)
    ensures Fitting(SrvPacket(s, b).log) <==> Fitting(s.log) && !Misfits(s, b)
  {
    var uin := s.pool.mem[b].uin;
    var found := FindUin(s.reg.byUin, uin);
    hide Fitting, Asked, Noted, Settles, Placed, Owned, Gated, List, Push, Release;
    if found.Found? {
      FittingAfter(s.log, LoginGranted(found.conn, uin));
      FittingAfter(s.log, LoginRefused(found.conn, uin));
    }
  }

  lemma CloseFits(s: State, c: ConnId)
    requires c in s.reg.conns
    ensures Fitting(CloseConnection(s, c).log) <==> Fitting(s.log)
  {
    FittingAfter(s.log, ClosedConn(c));
    hide Fitting, Settles;
  }

  lemma SendOfflineFits(s: State, uin: nat)
    ensures Fitting(SendOffline(s, uin).log) <==> Fitting(s.log)
  {
    FittingAfter(s.log, AnnouncedOffline(uin));
    hide Fitting, Settles;
  }

  lemma ForwardFits(s: State, c: ConnId, side: Side, b: Block)
    requires b in s.pool.mem
    ensures Fitting(Forward(s, c, side, b).log) <==> Fitting(s.log)
  {
    FittingAfter(s.log, Forwarded(c, side, s.pool.mem[b].command));
    hide Fitting, Settles;
  }

  /** A verdict enters the history exactly when the answer is put on the client's list. */
  lemma VerdictsAreLogged(s: State, b: Block)
    requires Safe(s) && Loose(s.pool, b) && IndexKnown(s.reg)
    ensures var p, r := s.pool.mem[b], SrvPacket(s, b);
            && (forall c: ConnId ::
                  On(r.pool, Send(Client(c)), b) && p.command == SRV_LOGIN_OK ==>
                    r.log == s.log + [LoginGranted(c, p.uin)])
            && (forall c: ConnId ::
                  On(r.pool, Send(Client(c)), b) && p.command == SRV_ERROR ==>
                    r.log == s.log + [LoginRefused(c, p.uin)])
            && (r.log == s.log
                || ((p.command == SRV_LOGIN_OK || p.command == SRV_ERROR)
                    && exists c: ConnId :: On(r.pool, Send(Client(c)), b)))
  {
    SrvPacketGoes(s, b);
    hide Safe, Settles, Push, Release, List, On, Marked;
    var found := FindUin(s.reg.byUin, s.pool.mem[b].uin);
    if found.Found? {
      assert SrvPlace(s, b) == At(Send(Client(found.conn))) ==> On(SrvPacket(s, b).pool, Send(Client(found.conn)), b);
    }
  }

  /** What clients send adds no verdict. */
  lemma CmdPacketFits(s: State, c: ConnId, b: Block)
    requires b in s.pool.mem && c in s.reg.conns
    ensures Fitting(CmdPacket(s, c, b).log) <==> Fitting(s.log)
  {
    hide Fitting, Settles, Forward, CloseConnection, Enqueue, Push, LoggedIn;
    var uin := s.pool.mem[b].uin;
    var freed := AllocatorFree(s, b);
    FittingAfter(s.log, LoginAsked(c, uin));
    ForwardFits(Logged(s.(reg := LoggedIn(s.reg, c, uin)), LoginAsked(c, uin)), c, User, b);
    SendOfflineFits(freed, freed.pool.mem[b].uin);
    CloseFits(SendOffline(freed, freed.pool.mem[b].uin), c);
    ForwardFits(s, c, User, b);
    ForwardFits(s, c, Contact, b);
    ForwardFits(s, c, Message, b);
  }

  lemma ErrorFits(s: State, who: Ref)
    requires who.Client? ==> who.id in s.reg.conns
    ensures Fitting(ErrorHandler(s, who).log) <==> Fitting(s.log)
  {
    hide Fitting, Settles, CloseConnection, Enqueue;
    if who.Client? {
      var conn := s.reg.conns[who.id];
      SendOfflineFits(s, conn.uin);
      CloseFits(if conn.kind == LoginOk then SendOffline(s, conn.uin) else s, who.id);
    }
  }

  lemma CloseOneFits(s: State, c: ConnId)
    requires c in s.reg.conns
    ensures Fitting(CloseOne(s, c).log) <==> Fitting(s.log)
  {
    hide Fitting, Settles, CloseConnection, Enqueue;
    SendOfflineFits(s, s.reg.conns[c].uin);
    CloseFits(SendOffline(s, s.reg.conns[c].uin), c);
  }

  lemma AcceptFits(s: State, fd: int)
    requires Sized(s.reg.timer)
    ensures Fitting(AcceptConn(s, fd).log) <==> Fitting(s.log)
  {
    FittingAfter(s.log, AcceptedConn(NewConn(s.reg)));
    hide Fitting, Accepted, Emptied;
  }
}
