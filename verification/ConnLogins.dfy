/** When the index by user agrees with the connections' own fields: which packets keep that, and which do
    not. */
module ConnLogins {
  import opened Protocol
  import opened TimerSpec
  import opened PacketPool
  import opened ConnRegistry
  import opened ConnHandlers
  import opened ConnSafety
  import opened ConnTidy

  /** Everything leads to open connections, and the index by user is one-to-one and says what the
      connections' fields say. */
  ghost predicate Consistent(s: State) {
    Tidy(s) && UinInv(s.reg)
  }

  lemma ConsistentBasics(s: State)
    requires Safe(s)
    ensures Consistent(s) <==> Tidy(s) && RegInv(s.reg)
  {
    hide Placed, UinInv;
  }

  /** The packet does not ask to log in, or does so as the connection's first, as a user not zero who is not
      logged in elsewhere. */
  ghost predicate LoginOnce(s: State, c: ConnId, b: Block)
    requires b in s.pool.mem
  {
    s.pool.mem[b].command == CMD_LOGIN ==> FirstLogin(s.reg, c, s.pool.mem[b].uin)
  }

  /** If the indexes agree, closing a connection leaves no entry behind. */
  lemma LeavesNone(r: Registry, c: ConnId)
    requires RegInv(r) && Live(r, c)
    ensures c in r.conns && !LeavesEntry(r, c)
  {
    DropKeeps(r, c);
    CloseForgets(r.byUin, r.conns[c].uin, c);
    hide RegInv, DropUin, Reaches, Holds;
  }

  /** The registry after a client's packet. */
  lemma CmdPacketReg(s: State, c: ConnId, b: Block)
    requires b in s.pool.mem && c in s.reg.conns
    ensures CmdPacket(s, c, b).reg ==
              if LogsOut(s, c, b) then Dropped(s.reg, c)
              else if s.pool.mem[b].command == CMD_LOGIN then LoggedIn(s.reg, c, s.pool.mem[b].uin)
              else s.reg
  {
    hide Dropped, LoggedIn, Settles;
  }

  /** A client's packet keeps the indexes in agreement exactly if it logs in once. */
  lemma CmdPacketKeeps(s: State, c: ConnId, b: Block)
    requires RegInv(s.reg) && b in s.pool.mem && Live(s.reg, c)
    ensures RegInv(CmdPacket(s, c, b).reg) <==> LoginOnce(s, c, b)
  {
    hide RegInv, CmdPacket, Live, Dropped, LoggedIn, FirstLogin;
    assert c in s.reg.conns by {
      LiveIsKnown(s.reg, c);
    }
    CmdPacketReg(s, c, b);
    DropKeeps(s.reg, c);
    LoginKeepsExactly(s.reg, c, s.pool.mem[b].uin);
  }

  lemma LiveIsKnown(r: Registry, c: ConnId)
    requires Live(r, c)
    ensures c in r.conns
  {
  }

  /** The registry after a module's packet: a verdict is noted at the connection found. */
  lemma SrvPacketReg(s: State, b: Block)
    requires b in s.pool.mem && IndexKnown(s.reg)
    ensures var command, found := s.pool.mem[b].command, FindUin(s.reg.byUin, s.pool.mem[b].uin);
            SrvPacket(s, b).reg ==
              if found.Found? && command == SRV_ERROR then Marked(s.reg, found.conn, LoginError)
              else if found.Found? && command == SRV_LOGIN_OK then Marked(s.reg, found.conn, LoginOk)
              else s.reg
  {
    hide Marked, Settles, Push, Release, List;
  }

  /** A module's packet keeps it: a verdict finds the connection it is about. */
  lemma SrvPacketKeeps(s: State, b: Block)
    requires RegInv(s.reg) && b in s.pool.mem && IndexKnown(s.reg)
    ensures RegInv(SrvPacket(s, b).reg)
  {
    hide RegInv, SrvPacket, Marked, Live, IndexKnown;
    var uin := s.pool.mem[b].uin;
    var found := FindUin(s.reg.byUin, uin);
    IndexesAgree(s.reg, uin);
    SrvPacketReg(s, b);
    if found.Found? {
      MarkKeeps(s.reg, found.conn, LoginOk);
      MarkKeeps(s.reg, found.conn, LoginError);
    }
  }

  /** A lookup by user finds the open connection that has logged in as that user, and no other connection
      has. */
  lemma {:induction false} LookupsAgree(s: State, uin: nat, c: ConnId)
    requires Safe(s) && Consistent(s) && Live(s.reg, c)
    ensures FindUin(s.reg.byUin, uin) == Found(c) <==> s.reg.conns[c].kind != NotLogin && s.reg.conns[c].uin == uin
    ensures FindUin(s.reg.byUin, uin).Found? ==> Live(s.reg, FindUin(s.reg.byUin, uin).conn)
  {
    ConsistentBasics(s);
    IndexesAgree(s.reg, uin);
    hide Safe, Tidy, RegInv;
  }
}
