/** The message module: per-user stacks of undelivered messages and the list of connection servers. */
module MessageQueues {
  import opened Protocol
  import opened StatusPool

  const MSG_HEADER_LEN := 12

  datatype Message = Message(fromUin: nat, timestamp: nat, kind: nat, len: nat, text: string)

  /** A connection server: its address towards the user module, and the socket it talks to us on. */
  datatype ConInfo = ConInfo(address: Address, sockfd: nat)

  /** A user number as a packet carries it. */
  type Uin = u: nat | u < 0x1_0000_0000

  /** The packets of message_packet. A chat packet and a friend packet both carry one number at offset
      8 of their parameters and the text at offset 10. */
  datatype Packet =
    | Chat(fromUin: nat, toUin: Uin, timestamp: nat, number: nat, text: string)
    | Friend(fromUin: nat, toUin: Uin, timestamp: nat, number: nat, text: string)
    | RepStatus(uin: Uin, status: Status)
    | ConnInfo(address: Address)
    | OtherPacket

  /** One packet written to a connection server. */
  datatype Write = Write(sockfd: nat, length: nat, uin: nat, msg: Message)

  /** One message handed to the offline store: inserted as a row, or appended to the row that is there. */
  datatype Offline = Offline(uin: nat, msg: Message, appended: bool)

  // ---------------------------------------------------------------- the connection list

  function AddCon(conns: seq<ConInfo>, address: Address, sockfd: nat): seq<ConInfo> {
    if conns == [] then [ConInfo(address, sockfd)]
    else if conns[0].address == address then [ConInfo(address, sockfd)] + conns[1..]
    else [conns[0]] + AddCon(conns[1..], address, sockfd)
  }

  function DelCon(conns: seq<ConInfo>, sockfd: nat): seq<ConInfo> {
    if conns == [] then []
    else if conns[0].sockfd == sockfd then conns[1..]
    else [conns[0]] + DelCon(conns[1..], sockfd)
  }

  function ConToFd(conns: seq<ConInfo>, address: Address): int {
    if conns == [] then -1
    else if conns[0].address == address then conns[0].sockfd
    else ConToFd(conns[1..], address)
  }

  /** How many addresses a socket is registered for. */
  function Count(conns: seq<ConInfo>, sockfd: nat): nat {
    if conns == [] then 0 else (if conns[0].sockfd == sockfd then 1 else 0) + Count(conns[1..], sockfd)
  }

  ghost predicate OneEntryEach(conns: seq<ConInfo>) {
    forall i, j :: 0 <= i < j < |conns| ==> conns[i].address != conns[j].address
  }

  /** Registering is a map update: the address leads to the new socket, every other address is as before. */
  lemma {:induction false} AddConUpdates(conns: seq<ConInfo>, address: Address, sockfd: nat, other: Address)
    ensures ConToFd(AddCon(conns, address, sockfd), other)
         == if other == address then sockfd else ConToFd(conns, other)
  {
    if conns != [] && conns[0].address != address {
      AddConUpdates(conns[1..], address, sockfd, other);
    }
  }

  lemma {:induction false} ConToFdFinds(conns: seq<ConInfo>, address: Address)
    ensures ConToFd(conns, address) >= 0 <==> exists i :: 0 <= i < |conns| && conns[i].address == address
  {
    if conns != [] && conns[0].address != address {
      ConToFdFinds(conns[1..], address);
      if i :| 0 <= i < |conns| && conns[i].address == address {
        assert conns[1..][i - 1].address == address;
      }
      if i :| 0 <= i < |conns[1..]| && conns[1..][i].address == address {
        assert conns[i + 1].address == address;
      }
    }
  }

  lemma {:induction false} AddConOneEntry(conns: seq<ConInfo>, address: Address, sockfd: nat)
    requires OneEntryEach(conns)
    ensures OneEntryEach(AddCon(conns, address, sockfd))
    ensures forall i :: 0 <= i < |AddCon(conns, address, sockfd)| ==>
              AddCon(conns, address, sockfd)[i].address == address
              || exists j :: 0 <= j < |conns| && conns[j].address == AddCon(conns, address, sockfd)[i].address
  {
    if conns != [] {
      var rest := AddCon(conns[1..], address, sockfd);
      if conns[0].address != address {
        AddConOneEntry(conns[1..], address, sockfd);
        forall i | 0 <= i < |rest|
          ensures rest[i].address != conns[0].address
          ensures rest[i].address == address || exists j :: 0 <= j < |conns| && conns[j].address == rest[i].address
        {
          if rest[i].address != address {
            var j :| 0 <= j < |conns[1..]| && conns[1..][j].address == rest[i].address;
            assert conns[j + 1].address == rest[i].address;
          }
        }
      }
    }
  }

  lemma {:induction false} CountPositive(conns: seq<ConInfo>, sockfd: nat)
    ensures Count(conns, sockfd) > 0 <==> exists i :: 0 <= i < |conns| && conns[i].sockfd == sockfd
  {
    if conns != [] {
      CountPositive(conns[1..], sockfd);
      if i :| 0 <= i < |conns| && conns[i].sockfd == sockfd {
        assert i > 0 ==> conns[1..][i - 1].sockfd == sockfd;
      }
      if i :| 0 <= i < |conns[1..]| && conns[1..][i].sockfd == sockfd {
        assert conns[i + 1].sockfd == sockfd;
      }
    }
  }

  /** Disconnecting removes one entry only. No address leads to the dead socket any more exactly if it
      was registered at most once. */
  lemma {:induction false} DelConForgets(conns: seq<ConInfo>, sockfd: nat)
    ensures (forall i :: 0 <= i < |DelCon(conns, sockfd)| ==> DelCon(conns, sockfd)[i].sockfd != sockfd)
        <==> Count(conns, sockfd) <= 1
  {
    DelConCount(conns, sockfd);
    CountPositive(DelCon(conns, sockfd), sockfd);
  }

  lemma {:induction false} DelConCount(conns: seq<ConInfo>, sockfd: nat)
    ensures Count(DelCon(conns, sockfd), sockfd) == if Count(conns, sockfd) == 0 then 0 else Count(conns, sockfd) - 1
  {
    if conns != [] && conns[0].sockfd != sockfd {
      DelConCount(conns[1..], sockfd);
      assert ([conns[0]] + DelCon(conns[1..], sockfd))[1..] == DelCon(conns[1..], sockfd);
    }
  }

  /** A disconnection disturbs no address that leads to another socket. */
  lemma {:induction false} DelConKeepsOthers(conns: seq<ConInfo>, sockfd: nat, address: Address)
    requires ConToFd(conns, address) != sockfd
    ensures ConToFd(DelCon(conns, sockfd), address) == ConToFd(conns, address)
  {
    if conns != [] && conns[0].sockfd != sockfd {
      if conns[0].address != address {
        DelConKeepsOthers(conns[1..], sockfd, address);
      }
      assert ([conns[0]] + DelCon(conns[1..], sockfd))[1..] == DelCon(conns[1..], sockfd);
    }
  }

  /** A connection server that announces two addresses is found through the second one after it is gone. */
  lemma DeadSocketFound()
    ensures var conns := AddCon(AddCon([], Address(1, 1), 7), Address(2, 2), 7);
            ConToFd(DelCon(conns, 7), Address(2, 2)) == 7
  {
    var conns := AddCon(AddCon([], Address(1, 1), 7), Address(2, 2), 7);
    assert conns == [ConInfo(Address(1, 1), 7), ConInfo(Address(2, 2), 7)];
    assert DelCon(conns, 7) == [ConInfo(Address(2, 2), 7)];
  }

  // ---------------------------------------------------------------- queues

  /** The module's state, for messages of any kind; the newest message of a queue comes first. */
  datatype Core<M> = Core(queues: seq<seq<M>>, conns: seq<ConInfo>)

  /** What one status reply makes of a user's queue. */
  datatype Flush<M> =
    | Idle
    | Sent(sockfd: nat, msgs: seq<M>)
    | Stored(msgs: seq<M>)
    | Unroutable

  function Push<M>(c: Core<M>, uin: nat, msg: M): Core<M>
    requires uin < |c.queues|
  {
    c.(queues := c.queues[uin := [msg] + c.queues[uin]])
  }

  function FlushOf<M>(c: Core<M>, uin: nat, status: Status): Flush<M>
    requires uin < |c.queues|
  {
    var q := c.queues[uin];
    if q == [] then Idle
    else if status.stat == 0 then Stored(q)
    else if ConToFd(c.conns, status.address) < 0 then Unroutable
    else Sent(ConToFd(c.conns, status.address), q)
  }

  function Settle<M>(c: Core<M>, uin: nat, status: Status): Core<M>
    requires uin < |c.queues|
  {
    if FlushOf(c, uin, status).Unroutable? then c else c.(queues := c.queues[uin := []])
  }

  /** The message a chat or friend packet becomes. A friend packet has no length field: its type serves
      as its length as well. */
  function MessageOf(p: Packet): Message
    requires p.Chat? || p.Friend?
  {
    Message(p.fromUin, p.timestamp, if p.Chat? then MSG_TYPE_CHAT else p.number, p.number, p.text)
  }

  /** The message is the packet's: its sender, its time, its text, and its number as length; the kind of a
      chat message is fixed, that of a friend message is its number. */
  ghost predicate Carries(m: Message, p: Packet) {
    match p
    case Chat(from, _, time, number, text) =>
      m.fromUin == from && m.timestamp == time && m.kind == MSG_TYPE_CHAT && m.len == number && m.text == text
    case Friend(from, _, time, number, text) =>
      m.fromUin == from && m.timestamp == time && m.kind == number && m.len == number && m.text == text
    case _ => false
  }

  predicate IsAccepted(p: Packet) {
    (p.Chat? || p.Friend?) && p.toUin < MAX_USER
  }

  /** A user number as the module compares it: a 32-bit field taken for a signed number. */
  function Signed(u: Uin): int {
    if u < 0x8000_0000 then u else u - 0x1_0000_0000
  }

  /** What handling a packet comes to; OutsideTable where it goes to a queue that is not in the table. */
  datatype Reaction = Returns(r: int) | OutsideTable

  function After(c: Core<Message>, p: Packet, fd: nat): Core<Message>
    requires |c.queues| == MAX_USER + 1
  {
    if IsAccepted(p) then Push(c, p.toUin, MessageOf(p))
    else if p.RepStatus? && p.uin <= MAX_USER then Settle(c, p.uin, p.status)
    else if p.ConnInfo? then c.(conns := AddCon(c.conns, p.address, fd))
    else c
  }

  function FlushAfter(c: Core<Message>, p: Packet): Flush<Message>
    requires |c.queues| == MAX_USER + 1
  {
    if p.RepStatus? && p.uin <= MAX_USER then FlushOf(c, p.uin, p.status) else Idle
  }

  ghost function Writes(sockfd: nat, uin: nat, msgs: seq<Message>): seq<Write> {
    seq(|msgs|, i requires 0 <= i < |msgs| =>
      Write(sockfd, PACKET_HEADER_LEN + MSG_HEADER_LEN + msgs[i].len, uin, msgs[i]))
  }

  /** Whether the database refuses the k-th insertion of a row. */
  predicate Refused(refused: seq<bool>, k: nat) {
    k < |refused| && refused[k]
  }

  ghost function Stores(uin: nat, msgs: seq<Message>, refused: seq<bool>): seq<Offline> {
    seq(|msgs|, i requires 0 <= i < |msgs| => Offline(uin, msgs[i], Refused(refused, i)))
  }

  ghost function FlushWrites(uin: nat, f: Flush<Message>): seq<Write> {
    if f.Sent? then Writes(f.sockfd, uin, f.msgs) else []
  }

  ghost function FlushStores(uin: nat, f: Flush<Message>, refused: seq<bool>): seq<Offline> {
    if f.Stored? then Stores(uin, f.msgs, refused) else []
  }

  class MessageServer {
    const queues: array<seq<Message>>
    var conns: seq<ConInfo>
    /** What has been written to connection servers, handed to the store, and asked of the status module. */
    var written: seq<Write>
    var stored: seq<Offline>
    var asked: seq<nat>

    constructor ()
      ensures Valid() && fresh(queues)
      ensures View() == Core(seq(MAX_USER + 1, i => []), []) && written == [] && stored == [] && asked == []
    {
      queues := new seq<Message>[MAX_USER + 1](i => []);
      conns, written, stored, asked := [], [], [], [];
    }

    ghost predicate Valid()
    {
      queues.Length == MAX_USER + 1
    }

    ghost function View(): Core<Message>
      reads this, queues
    {
      Core(queues[..], conns)
    }

    /** Registers the socket of a connection server under its address. */
    method RegisterCon(address: Address, sockfd: nat)
      modifies this`conns
      ensures conns == AddCon(old(conns), address, sockfd)
    {
      var i := 0;
      while i < |conns|
        invariant 0 <= i <= |conns| && conns == old(conns)
        invariant AddCon(conns, address, sockfd) == conns[..i] + AddCon(conns[i..], address, sockfd)
      {
        if conns[i].address == address {
          conns := conns[i := ConInfo(address, sockfd)];
          return;
        }
        i := i + 1;
      }
      conns := conns + [ConInfo(address, sockfd)];
    }

    /** Forgets the first entry of a disconnected socket. */
    method ForgetCon(sockfd: nat)
      modifies this`conns
      ensures conns == DelCon(old(conns), sockfd)
    {
      var i := 0;
      while i < |conns|
        invariant 0 <= i <= |conns| && conns == old(conns)
        invariant DelCon(conns, sockfd) == conns[..i] + DelCon(conns[i..], sockfd)
      {
        if conns[i].sockfd == sockfd {
          conns := conns[..i] + conns[i + 1..];
          return;
        }
        i := i + 1;
      }
    }

    method FindCon(address: Address) returns (sockfd: int)
      ensures sockfd == ConToFd(conns, address)
    {
      var i := 0;
      while i < |conns|
        invariant 0 <= i <= |conns|
        invariant ConToFd(conns, address) == ConToFd(conns[i..], address)
      {
        if conns[i].address == address {
          return conns[i].sockfd;
        }
        i := i + 1;
      }
      return -1;
    }

    /** Hands the queue of a user who is offline to the store, the newest message first. A message whose
        row is refused is appended to the row that is there. */
    method StoreOfflineMsg(uin: nat, refused: seq<bool>)
      requires Valid() && uin <= MAX_USER
      modifies this`stored, queues
      ensures queues[..] == old(queues[..])[uin := []]
      ensures |stored| == |old(stored)| + |old(queues[uin])| && stored[..|old(stored)|] == old(stored)
      ensures forall i :: 0 <= i < |old(queues[uin])| ==>
                stored[|old(stored)| + i] == Offline(uin, old(queues[uin])[i], i < |refused| && refused[i])
    {
      var msg := queues[uin];
      var k := 0;
      ghost var done := [];
      while msg != []
        invariant k == |done| && done + msg == queues[uin] && queues[..] == old(queues[..])
        invariant |stored| == |old(stored)| + k && stored[..|old(stored)|] == old(stored)
        invariant forall i :: 0 <= i < k ==>
                    stored[|old(stored)| + i] == Offline(uin, done[i], i < |refused| && refused[i])
        decreases |msg|
      {
        var inserted := !Refused(refused, k);
        if inserted {
          stored := stored + [Offline(uin, msg[0], false)];
        } else {
          stored := stored + [Offline(uin, msg[0], true)];
        }
        done := done + [msg[0]];
        msg, k := msg[1..], k + 1;
      }
      queues[uin] := [];
    }

    /** Sends a user's queue to the connection server the user is at, the newest message first. If that
        server is not registered nothing happens; an empty queue needs no server. */
    method SendMsg(uin: nat, address: Address) returns (r: int)
      requires Valid() && uin <= MAX_USER
      modifies this`written, queues
      ensures var q, fd := old(queues[uin]), ConToFd(conns, address);
              && r == (if q != [] && fd < 0 then -1 else 0)
              && queues[..] == (if r < 0 then old(queues[..]) else old(queues[..])[uin := []])
              && |written| == |old(written)| + (if r < 0 then 0 else |q|) && written[..|old(written)|] == old(written)
              && forall i :: 0 <= i < |written| - |old(written)| ==>
                   fd >= 0 && i < |q|
                   && written[|old(written)| + i] == Write(fd, PACKET_HEADER_LEN + MSG_HEADER_LEN + q[i].len, uin, q[i])
    {
      var msg := queues[uin];
      if msg != [] {
        var sockfd := FindCon(address);
        ConToFdRange(conns, address);
        if sockfd < 0 {
          return sockfd;
        }
        ghost var done := [];
        while msg != []
          invariant done + msg == queues[uin] && queues[..] == old(queues[..])
          invariant |written| == |old(written)| + |done| && written[..|old(written)|] == old(written)
          invariant forall i :: 0 <= i < |done| ==>
                      written[|old(written)| + i] ==
                      Write(sockfd, PACKET_HEADER_LEN + MSG_HEADER_LEN + done[i].len, uin, done[i])
          decreases |msg|
        {
          written := written + [Write(sockfd, PACKET_HEADER_LEN + MSG_HEADER_LEN + msg[0].len, uin, msg[0])];
          done := done + [msg[0]];
          msg := msg[1..];
        }
      }
      queues[uin] := [];
      r := 0;
    }

    /** Queues the message of a chat or friend packet and asks for its receiver's status. A number that counts
        as negative passes the check, and the module goes to a place outside the table. */
    method QueueMessage(inpack: Packet) returns (out: Reaction)
      requires Valid() && (inpack.Chat? || inpack.Friend?)
      modifies this`asked, queues
      ensures out == if inpack.toUin < MAX_USER then Returns(0)
                     else if inpack.toUin < 0x8000_0000 then Returns(-1)
                     else OutsideTable
      ensures out == Returns(0) ==>
                var u := inpack.toUin;
                && |queues[u]| == |old(queues[u])| + 1 && queues[u][1..] == old(queues[u])
                && Carries(queues[u][0], inpack)
                && asked == old(asked) + [u]
      ensures forall v :: 0 <= v <= MAX_USER && (out == Returns(0) ==> v != inpack.toUin) ==>
                queues[v] == old(queues[v])
      ensures out != Returns(0) ==> asked == old(asked)
      ensures View() == if out == Returns(0) then Push(old(View()), inpack.toUin, MessageOf(inpack)) else old(View())
    {
      var msg := MessageOf(inpack);
      var uin := Signed(inpack.toUin);
      if uin >= MAX_USER {
        return Returns(-1);
      }
      if uin < 0 {
        return OutsideTable;
      }
      queues[uin] := [msg] + queues[uin];
      asked := asked + [inpack.toUin];
      out := Returns(0);
    }

    /** Sends or stores a user's queue, as the user's status is. The number is not checked at all. */
    method AnswerStatus(u: Uin, status: Status, refused: seq<bool>) returns (out: Reaction)
      requires Valid()
      modifies this`written, this`stored, queues
      ensures out == if u <= MAX_USER then Returns(0) else OutsideTable
      ensures View() == if u <= MAX_USER then Settle(old(View()), u, status) else old(View())
      ensures var f := if u <= MAX_USER then FlushOf(old(View()), u, status) else Idle;
              && written == old(written) + FlushWrites(u, f)
              && stored == old(stored) + FlushStores(u, f, refused)
    {
      var uin := Signed(u);
      if uin < 0 || uin > MAX_USER {
        return OutsideTable;
      }
      ghost var q, w, t := queues[uin], written, stored;
      if status.stat != 0 {
        ConToFdRange(conns, status.address);
        var r := SendMsg(uin, status.address);
        assert written == w + FlushWrites(u, FlushOf(old(View()), u, status));
      } else {
        StoreOfflineMsg(uin, refused);
        assert stored == t + FlushStores(u, FlushOf(old(View()), u, status), refused);
      }
      assert old(queues[..])[uin := q] == old(queues[..]);
      out := Returns(0);
    }

    /** Processes one packet received on socket fd. */
    method MessagePacket(inpack: Packet, fd: nat, refused: seq<bool>) returns (out: Reaction)
      requires Valid()
      modifies this, queues
      ensures View() == After(old(View()), inpack, fd)
      ensures (inpack.Chat? || inpack.Friend?) && inpack.toUin < MAX_USER ==>
                var u := inpack.toUin;
                && |queues[u]| == |old(queues[u])| + 1 && queues[u][1..] == old(queues[u])
                && Carries(queues[u][0], inpack)
                && forall v :: 0 <= v <= MAX_USER && v != u ==> queues[v] == old(queues[v])
      ensures asked == old(asked)
                       + if (inpack.Chat? || inpack.Friend?) && inpack.toUin < MAX_USER then [inpack.toUin] else []
      ensures inpack.RepStatus? ==>
                var f := FlushAfter(old(View()), inpack);
                && written == old(written) + FlushWrites(inpack.uin, f)
                && stored == old(stored) + FlushStores(inpack.uin, f, refused)
      ensures !inpack.RepStatus? ==> written == old(written) && stored == old(stored)
      ensures out == match inpack
                     case RepStatus(u, _) => if u <= MAX_USER then Returns(0) else OutsideTable
                     case ConnInfo(_) => Returns(0)
                     case OtherPacket => Returns(-1)
                     case _ => if inpack.toUin < MAX_USER then Returns(0)
                               else if inpack.toUin < 0x8000_0000 then Returns(-1)
                               else OutsideTable
    {
      hide FlushWrites, FlushStores, FlushOf, Settle, Push, MessageOf;
      match inpack {
        case RepStatus(u, status) => out := AnswerStatus(u, status, refused);
        case ConnInfo(address) =>
          RegisterCon(address, fd);
          out := Returns(0);
        case OtherPacket => out := Returns(-1);
        case _ => out := QueueMessage(inpack);
      }
    }
  }

  lemma {:induction false} ConToFdRange(conns: seq<ConInfo>, address: Address)
    ensures ConToFd(conns, address) >= -1
  {
    if conns != [] {
      ConToFdRange(conns[1..], address);
    }
  }
}
