/** What a run of the connection server keeps only under a condition, and exactly when: every state that the
    run passes through, also between the packets of one receive list and between the closings of one pass,
    meets an aim if and only if no step of the run breaks it. */
module ConnRuns {
  import opened Protocol
  import opened Sequences
  import opened TimerSpec
  import opened PacketPool
  import opened ConnRegistry
  import opened ConnHandlers
  import opened ConnSafety
  import opened ConnLosses
  import opened ConnTidy
  import opened ConnLogins
  import opened ConnVerdicts
  import opened ConnDelivery

  /** Handled: what waits for a module is for it to handle. Directed: in addition, what waits for a client is
      addressed to its user. Tidied: everything leads to open connections. Indexed: in addition, the index by
      user agrees with the connections' fields. Fitted: every verdict is about the login last asked for. */
  datatype Aim = Handled | Directed | Tidied | Indexed | Fitted

  ghost predicate Meets(a: Aim, s: State) {
    match a
    case Handled => Addressed(s, false)
    case Directed => Addressed(s, true)
    case Tidied => Tidy(s)
    case Indexed => Consistent(s)
    case Fitted => Fitting(s.log)
  }

  // ---------------------------------------------------------------- what breaks an aim

  /** The packet at hand breaks the aim: a login while packets for another user wait, or a packet put on
      the list of a client with another user in its field; a logout that leaves an index entry behind; a
      login that is not the first; a verdict on another login. */
  ghost predicate PacketBreaks(a: Aim, s: State, who: Ref, b: Block)
    requires b in s.pool.mem && Backed(s.pool) && IndexKnown(s.reg) && (who.Client? ==> who.id in s.reg.conns)
  {
    match a
    case Handled => false
    case Directed => if who.Client? then CmdMisdirects(s, who.id, b) else SrvMisdirects(s, b)
    case Tidied => who.Client? && LogsOut(s, who.id, b) && LeavesEntry(s.reg, who.id)
    case Indexed => who.Client? && !LoginOnce(s, who.id, b)
    case Fitted => who.Backend? && Misfits(s, b)
  }

  /** The closing of a connection after an error breaks the aim. */
  ghost predicate ErrorBreaks(a: Aim, s: State, who: Ref)
    requires who.Client? ==> who.id in s.reg.conns
  {
    a.Tidied? && who.Client? && LeavesEntry(s.reg, who.id)
  }

  /** One of the packets on the receive list, in its turn, breaks the aim. */
  ghost predicate Breaks(a: Aim, s: State, who: Ref)
    requires Safe(s) && Processable(s, who)
    decreases |List(s.pool, Recv(who))|
  {
    SafeBasics(s);
    List(s.pool, Recv(who)) != [] &&
    (PacketSafe(s, who);
     var b, popped := List(s.pool, Recv(who))[0], PopFrom(s, Recv(who));
     SafeBasics(popped);
     PacketBreaks(a, popped, who, b) || Breaks(a, PacketOf(popped, who, b), who))
  }

  /** The state meets the aim, and so do those after every packet on the receive list. */
  ghost predicate Stays(a: Aim, s: State, who: Ref)
    requires Safe(s) && Processable(s, who)
    decreases |List(s.pool, Recv(who))|
  {
    SafeBasics(s);
    Meets(a, s) &&
    (List(s.pool, Recv(who)) == [] ||
     (PacketSafe(s, who);
      Stays(a, PacketOf(PopFrom(s, Recv(who)), who, List(s.pool, Recv(who))[0]), who)))
  }

  /** The state meets the aim, and so do those after the closing of every connection. */
  ghost predicate ClosingsStay(a: Aim, s: State, cs: seq<ConnId>)
    requires AllInConns(s.reg, cs)
    decreases |cs|
  {
    Meets(a, s) && (cs == [] || ClosingsStay(a, CloseOne(s, cs[0]), cs[1..]))
  }

  ghost predicate PassBreaks(a: Aim, s: State, interval: nat)
    requires Safe(s) && Timed(s.reg) && 1 <= interval <= CLIENT_TIMEOUT
  {
    BeforeClosingSafe(s, interval);
    var r := BeforeClosing(s, interval);
    a.Tidied? && ClosingsLeave(r.reg, TimeoutList(r.reg.timer))
  }

  ghost predicate PassStays(a: Aim, s: State, interval: nat)
    requires Safe(s) && Timed(s.reg) && 1 <= interval <= CLIENT_TIMEOUT
  {
    BeforeClosingSafe(s, interval);
    var r := BeforeClosing(s, interval);
    ClosingsStay(a, r, TimeoutList(r.reg.timer))
  }

  /** The step breaks the aim. */
  ghost predicate StepBreaks(a: Aim, s: State, i: Input)
    requires Safe(s) && Timed(s.reg) && Possible(s, i)
  {
    match i
    case Connect(_) => false
    case Readable(who, packets, err) =>
      ReceivedSafe(s, who, packets);
      if err then ErrorBreaks(a, s, who) else Breaks(a, Received(s, who, packets), who)
    case Writable(who, results) => WriteFails(s, who, results) && ErrorBreaks(a, s, who)
    case Fault(who) => ErrorBreaks(a, s, who)
    case Seconds(interval) => interval > 0 && PassBreaks(a, s, interval)
    case Rehashed(_) => false
  }

  /** Every state that the step passes through and leads to meets the aim. */
  ghost predicate StepStays(a: Aim, s: State, i: Input)
    requires Safe(s) && Timed(s.reg) && Possible(s, i)
  {
    && (match i
        case Readable(who, packets, err) =>
          ReceivedSafe(s, who, packets);
          err || Stays(a, Received(s, who, packets), who)
        case Seconds(interval) => interval == 0 || PassStays(a, s, interval)
        case _ => true)
    && Meets(a, Next(s, i))
  }

  ghost predicate RunBreaks(a: Aim, s: State, run: seq<Input>, r: State)
    requires Leads(s, run, r)
    decreases |run|
  {
    run != [] && (StepBreaks(a, s, run[0]) || RunBreaks(a, Next(s, run[0]), run[1..], r))
  }

  /** Every state of the run meets the aim. */
  ghost predicate RunStays(a: Aim, s: State, run: seq<Input>, r: State)
    requires Leads(s, run, r)
    decreases |run|
  {
    Meets(a, s) && (run == [] || (StepStays(a, s, run[0]) && RunStays(a, Next(s, run[0]), run[1..], r)))
  }

  // ---------------------------------------------------------------- packets

  lemma PopMeets(a: Aim, s: State, h: Head)
    requires Meets(a, s) && List(s.pool, h) != []
    ensures Meets(a, PopFrom(s, h))
  {
    hide Addressed, AddsNothing, Tidy, Fitting, UinInv;
    PopAddsNothing(s, h, a.Directed?);
    if a.Handled? || a.Directed? {
      AddsNothingKeeps(s, PopFrom(s, h), a.Directed?);
    } else if a.Tidied? || a.Indexed? {
      PopTidy(s, h);
    }
  }

  /** A client's packet keeps an aim exactly if it does not break it. */
  lemma CmdPacketExact(a: Aim, s: State, c: ConnId, b: Block)
    requires Safe(s) && Meets(a, s) && Loose(s.pool, b) && Live(s.reg, c) && Backed(s.pool) && IndexKnown(s.reg)
    ensures b in s.pool.mem && c in s.reg.conns
    ensures Meets(a, CmdPacket(s, c, b)) <==> !PacketBreaks(a, s, Client(c), b)
  {
    assert b in s.pool.mem && c in s.reg.conns && Owned(s.pool);
    hide Safe, Addressed, CmdMisdirects, Tidy, Fitting, UinInv, RegInv, CmdPacket, LeavesEntry, LogsOut, LoginOnce;
    hide Owned, Loose, Live, Backed, IndexKnown;
    match a {
      case Handled => CmdPacketAddressed(s, c, b, false);
      case Directed => CmdPacketAddressed(s, c, b, true);
      case Tidied => CmdPacketTidy(s, c, b);
      case Indexed => CmdPacketConsistent(s, c, b);
      case Fitted => CmdPacketFits(s, c, b);
    }
  }

  lemma CmdPacketConsistent(s: State, c: ConnId, b: Block)
    requires Safe(s) && Consistent(s) && Loose(s.pool, b) && Live(s.reg, c)
    ensures b in s.pool.mem && (Consistent(CmdPacket(s, c, b)) <==> LoginOnce(s, c, b))
  {
    assert b in s.pool.mem;
    ConsistentBasics(s);
    CmdPacketSafe(s, c, b);
    hide Safe, Tidy, RegInv, UinInv, CmdPacket, LeavesEntry, LoginOnce, Loose, Live;
    ConsistentBasics(CmdPacket(s, c, b));
    LeavesNone(s.reg, c);
    CmdPacketTidy(s, c, b);
    CmdPacketKeeps(s, c, b);
  }

  /** And a module's. */
  lemma SrvPacketExact(a: Aim, s: State, b: Block)
    requires Safe(s) && Meets(a, s) && Loose(s.pool, b) && Backed(s.pool) && IndexKnown(s.reg)
    ensures b in s.pool.mem && (Meets(a, SrvPacket(s, b)) <==> !PacketBreaks(a, s, Backend(User), b))
  {
    assert b in s.pool.mem;
    hide Safe, Addressed, SrvMisdirects, Tidy, Fitting, UinInv, RegInv, SrvPacket, Misfits, Loose, Backed, IndexKnown;
    match a {
      case Handled => SrvPacketAddressed(s, b, false);
      case Directed => SrvPacketAddressed(s, b, true);
      case Tidied => SrvPacketTidy(s, b);
      case Indexed =>
        SrvPacketSafe(s, b);
        ConsistentBasics(s);
        ConsistentBasics(SrvPacket(s, b));
        SrvPacketTidy(s, b);
        SrvPacketKeeps(s, b);
      case Fitted => SrvPacketFits(s, b);
    }
  }

  /** The first packet of a receive list. */
  lemma PacketExact(a: Aim, s: State, who: Ref)
    requires Safe(s) && Processable(s, who) && Meets(a, s) && List(s.pool, Recv(who)) != []
    ensures Backed(s.pool) && IndexKnown(s.reg) && List(s.pool, Recv(who))[0] in s.pool.mem
    ensures var b, popped := List(s.pool, Recv(who))[0], PopFrom(s, Recv(who));
            && Backed(popped.pool)
            && (Meets(a, PacketOf(popped, who, b)) <==> !PacketBreaks(a, popped, who, b))
  {
    hide Safe, Meets, CmdPacket, SrvPacket, Loose, CmdMisdirects, SrvMisdirects, LogsOut, LeavesEntry, LoginOnce;
    hide Misfits, IndexKnown, Backed, Live, On;
    var b, popped := List(s.pool, Recv(who))[0], PopFrom(s, Recv(who));
    SafeBasics(s);
    PacketSafe(s, who);
    SafeBasics(popped);
    PopMeets(a, s, Recv(who));
    if who.Client? {
      CmdPacketExact(a, popped, who.id, b);
    } else {
      SrvPacketExact(a, popped, b);
    }
  }

  /** Processing a receive list keeps the aim from packet to packet exactly if no packet breaks it. */
  lemma {:induction false} ProcessExact(a: Aim, s: State, who: Ref)
    requires Safe(s) && Processable(s, who) && Meets(a, s)
    ensures Backed(s.pool) && IndexKnown(s.reg)
    ensures Stays(a, s, who) <==> !Breaks(a, s, who)
    ensures Stays(a, s, who) ==> Meets(a, Process(s, who))
    decreases |List(s.pool, Recv(who))|
  {
    SafeBasics(s);
    if List(s.pool, Recv(who)) != [] {
      PacketSafe(s, who);
      PacketExact(a, s, who);
      var b, popped := List(s.pool, Recv(who))[0], PopFrom(s, Recv(who));
      var r := PacketOf(popped, who, b);
      hide Safe, Meets, Loose, PacketOf, Processable, PacketBreaks;
      if Meets(a, r) {
        ProcessExact(a, r, who);
      }
    }
  }

  // ---------------------------------------------------------------- the other steps

  lemma ReceiveMeets(a: Aim, s: State, who: Ref, packets: seq<Packet>)
    requires Safe(s) && Meets(a, s) && Open(s, who)
    ensures Meets(a, Received(s, who, packets))
  {
    SafeBasics(s);
    hide Safe, Owned, Addressed, Tidy, Fitting, UinInv, EnqueueAll, Live, Backed, IndexKnown;
    match a {
      case Handled => EnqueueAllAddressed(s, Recv(who), packets, false);
      case Directed => EnqueueAllAddressed(s, Recv(who), packets, true);
      case Tidied => ReceiveTidy(s, who, packets);
      case Indexed => ReceiveTidy(s, who, packets);
      case Fitted =>
    }
  }

  lemma {:induction false} WriteMeets(a: Aim, s: State, who: Ref, results: seq<WriteResult>)
    requires Meets(a, s) && Backed(s.pool)
    ensures Meets(a, WriteAll(s, who, results))
  {
    hide Addressed, Tidy, Fitting, UinInv, WriteAll, Backed;
    match a {
      case Handled => WriteAddressed(s, who, results, false);
      case Directed => WriteAddressed(s, who, results, true);
      case Tidied => WriteTidy(s, who, results);
      case Indexed => WriteTidy(s, who, results);
      case Fitted =>
    }
  }

  lemma AcceptMeets(a: Aim, s: State, fd: int)
    requires Safe(s) && Meets(a, s) && fd !in s.reg.byFd
    ensures Sized(s.reg.timer) && Meets(a, AcceptConn(s, fd))
  {
    SafeBasics(s);
    hide Safe, Addressed, Tidy, Fitting, UinInv, AcceptConn, Backed, IndexKnown, Owned, Placed, RegInv;
    match a {
      case Handled => AcceptAddressed(s, fd, false);
      case Directed => AcceptAddressed(s, fd, true);
      case Tidied => AcceptConnTidy(s, fd);
      case Indexed => AcceptConsistent(s, fd);
      case Fitted => AcceptFits(s, fd);
    }
  }

  lemma AcceptConsistent(s: State, fd: int)
    requires Safe(s) && Consistent(s) && fd !in s.reg.byFd
    ensures Sized(s.reg.timer) && Consistent(AcceptConn(s, fd))
  {
    hide Safe, Tidy, RegInv, UinInv, Accepted, Emptied;
    SafeBasics(s);
    ConsistentBasics(s);
    AcceptKeeps(s.reg, fd);
    AcceptConnTidy(s, fd);
    AcceptConnSafe(s, fd);
    ConsistentBasics(AcceptConn(s, fd));
  }

  /** Closing an open connection after an error. */
  lemma ErrorExact(a: Aim, s: State, who: Ref)
    requires Safe(s) && Meets(a, s) && Open(s, who)
    ensures who.Client? ==> who.id in s.reg.conns
    ensures Meets(a, ErrorHandler(s, who)) <==> !ErrorBreaks(a, s, who)
  {
    SafeBasics(s);
    hide Safe, Addressed, Tidy, Fitting, UinInv, ErrorHandler, Backed, IndexKnown, Owned, Placed, LeavesEntry, Live;
    match a {
      case Handled => ErrorAddressed(s, who, false);
      case Directed => ErrorAddressed(s, who, true);
      case Tidied => ErrorTidy(s, who);
      case Indexed => ErrorConsistent(s, who);
      case Fitted => ErrorFits(s, who);
    }
  }

  lemma ErrorConsistent(s: State, who: Ref)
    requires Safe(s) && Consistent(s) && Open(s, who)
    ensures who.Client? ==> who.id in s.reg.conns
    ensures Consistent(ErrorHandler(s, who))
  {
    if who.Client? {
      hide Safe, Tidy, RegInv, UinInv, Live, LeavesEntry, Dropped, ReleaseAll, Settles;
      ConsistentBasics(s);
      LeavesNone(s.reg, who.id);
      DropKeeps(s.reg, who.id);
      ErrorTidy(s, who);
      ErrorSafe(s, who);
      ConsistentBasics(ErrorHandler(s, who));
    }
  }

  /** Closing an open connection that has timed out. */
  lemma CloseOneExact(a: Aim, s: State, c: ConnId)
    requires Safe(s) && Meets(a, s) && Holds(s.reg.timer, c)
    ensures c in s.reg.conns && (Meets(a, CloseOne(s, c)) <==> !(a.Tidied? && LeavesEntry(s.reg, c)))
  {
    CloseOneSafe(s, c);
    SafeBasics(s);
    hide Safe, Addressed, Fitting, UinInv, CloseOne, Backed, IndexKnown, Owned, Placed, LeavesEntry, Live, Holds, Loose;
    hide QueuesLive, EntriesLive;
    match a {
      case Handled => CloseOneAddressed(s, c, false);
      case Directed => CloseOneAddressed(s, c, true);
      case Tidied => CloseOneTidy(s, c);
      case Indexed => CloseOneConsistent(s, c);
      case Fitted => CloseOneFits(s, c);
    }
  }

  lemma CloseOneConsistent(s: State, c: ConnId)
    requires Safe(s) && Consistent(s) && Live(s.reg, c)
    ensures c in s.reg.conns && Consistent(CloseOne(s, c))
  {
    hide Safe, Tidy, RegInv, UinInv, Live, LeavesEntry, Holds, CloseOne, Dropped;
    ConsistentBasics(s);
    SafeBasics(s);
    LeavesNone(s.reg, c);
    DropKeeps(s.reg, c);
    CloseOneTidy(s, c);
    CloseOneSafe(s, c);
    ConsistentBasics(CloseOne(s, c));
  }

  /** Closing the connections one by one keeps the aim from closing to closing exactly if none leaves an
      index entry behind, where that matters. */
  lemma {:induction false} ClosingsExact(a: Aim, s: State, cs: seq<ConnId>)
    requires Safe(s) && Meets(a, s) && AllHeld(s.reg, cs) && NoDup(cs) && AllInConns(s.reg, cs)
    ensures ClosingsStay(a, s, cs) <==> !(a.Tidied? && ClosingsLeave(s.reg, cs))
    ensures ClosingsStay(a, s, cs) ==> Meets(a, CloseAll(s, cs))
    decreases |cs|
  {
    if cs != [] {
      CloseOneExact(a, s, cs[0]);
      CloseOneSafe(s, cs[0]);
      SafeBasics(s);
      DropPlaced(s.reg, cs[0]);
      TailMembers(cs);
      var r := CloseOne(s, cs[0]);
      hide Safe, Meets, Holds, NoDup, Placed, Loose, Dropped, CloseOne, LeavesEntry;
      forall i | 0 <= i < |cs[1..]| ensures Holds(r.reg.timer, cs[1..][i]) {
        assert cs[1..][i] == cs[i + 1] && cs[1..][i] in cs[1..];
      }
      if Meets(a, r) {
        ClosingsExact(a, r, cs[1..]);
      }
    }
  }

  lemma BeforeClosingMeets(a: Aim, s: State, interval: nat)
    requires Safe(s) && Timed(s.reg) && Meets(a, s) && 1 <= interval <= CLIENT_TIMEOUT
    ensures Sized(s.reg.timer) && Backed(s.pool) && Meets(a, BeforeClosing(s, interval))
  {
    SafeBasics(s);
    hide Safe, Addressed, Tidy, Fitting, UinInv, KeepAllAlive, Timed, Placed, Live, Owned, IndexKnown, Backed;
    var ticked := s.(reg := Ticked(s.reg, interval));
    match a {
      case Handled => SamePacketsAddressed(s, ticked, false); KeepAllAddressed(ticked, false);
      case Directed => SamePacketsAddressed(s, ticked, true); KeepAllAddressed(ticked, true);
      case Tidied => BeforeClosingTidy(s, interval);
      case Indexed => BeforeClosingTidy(s, interval); BeforeClosingSafe(s, interval);
      case Fitted => KeepAllLogs(ticked);
    }
  }

  /** The ages are history. */
  lemma AgesMeet(a: Aim, s: State, ages: map<ConnId, nat>)
    requires Meets(a, s)
    ensures Meets(a, s.(reg := s.reg.(ages := ages)))
  {
    var r := s.(reg := s.reg.(ages := ages));
    hide Addressed, Tidy, Fitting;
    match a {
      case Handled => SamePacketsAddressed(s, r, false);
      case Directed => SamePacketsAddressed(s, r, true);
      case Tidied => AgesTidy(s, ages);
      case Indexed => AgesTidy(s, ages); assert forall c :: Live(r.reg, c) <==> Live(s.reg, c);
      case Fitted =>
    }
  }

  lemma ReorderMeets(a: Aim, s: State, entries: seq<UinEntry>)
    requires Safe(s) && Meets(a, s) && multiset(entries) == multiset(s.reg.byUin)
    ensures Meets(a, s.(reg := Reordered(s.reg, entries)))
  {
    var r := s.(reg := Reordered(s.reg, entries));
    ConsistentBasics(s);
    hide Safe, Addressed, Tidy, Fitting, RegInv;
    match a {
      case Handled => SamePacketsAddressed(s, r, false);
      case Directed => SamePacketsAddressed(s, r, true);
      case Tidied => ReorderTidy(s, entries);
      case Indexed =>
        ReorderTidy(s, entries);
        ReorderKeeps(s.reg, entries);
        ReorderSafe(s, entries);
        ConsistentBasics(r);
      case Fitted =>
    }
  }

  /** A pass. */
  lemma PassExact(a: Aim, s: State, interval: nat)
    requires Safe(s) && Timed(s.reg) && Meets(a, s) && 1 <= interval <= CLIENT_TIMEOUT
    ensures PassStays(a, s, interval) <==> !PassBreaks(a, s, interval)
    ensures PassStays(a, s, interval) ==> Meets(a, AfterPass(s, interval))
  {
    BeforeClosingSafe(s, interval);
    BeforeClosingMeets(a, s, interval);
    AfterPassIsExpiry(s, interval);
    var r := BeforeClosing(s, interval);
    var cs := TimeoutList(r.reg.timer);
    hide Safe, Timed, Meets, KeepAllAlive, CloseAll, TimeoutList, AgesAfter, AliveList, AfterPass, ClosingsLeave;
    hide ClosingsStay, BeforeClosing, Holds, AllHeld, NoDup;
    ClosingsExact(a, r, cs);
    if ClosingsStay(a, r, cs) {
      AgesMeet(a, CloseAll(r, cs), AgesAfter(s.reg.ages, interval, AliveList(s)));
    }
  }

  // ---------------------------------------------------------------- steps and runs

  lemma ReadExact(a: Aim, s: State, who: Ref, packets: seq<Packet>, err: bool)
    requires Safe(s) && Timed(s.reg) && Meets(a, s) && Open(s, who)
    ensures var i := Readable(who, packets, err);
            && (StepStays(a, s, i) <==> !StepBreaks(a, s, i))
            && (StepStays(a, s, i) ==> Meets(a, Next(s, i)))
  {
    SafeBasics(s);
    ReceivedSafe(s, who, packets);
    ReceiveMeets(a, s, who, packets);
    var r := Received(s, who, packets);
    hide Safe, Timed, Meets, Live, LeavesEntry, Processable, Backed, IndexKnown, Owned, Holds, Stays, Breaks;
    if err {
      ErrorExact(a, r, who);
    } else {
      ProcessExact(a, r, who);
    }
  }

  lemma WriteExact(a: Aim, s: State, who: Ref, results: seq<WriteResult>)
    requires Safe(s) && Timed(s.reg) && Meets(a, s) && Open(s, who)
    ensures var i := Writable(who, results); StepStays(a, s, i) <==> !StepBreaks(a, s, i)
  {
    hide Safe, Timed, Meets, Live, LeavesEntry, Backed, IndexKnown, Owned, Holds, WriteFails, WriteAll, ErrorHandler;
    SafeBasics(s);
    WriteSafe(s, who, results);
    WriteMeets(a, s, who, results);
    ErrorExact(a, WriteAll(s, who, results), who);
  }

  /** From a state that meets an aim, a step keeps it throughout exactly if it does not break it. */
  lemma StepExact(a: Aim, s: State, i: Input)
    requires Safe(s) && Timed(s.reg) && Meets(a, s) && Possible(s, i)
    ensures StepStays(a, s, i) <==> !StepBreaks(a, s, i)
  {
    SafeBasics(s);
    hide Safe, Timed, Meets, Live, LeavesEntry, Backed, IndexKnown, Owned, Holds, Placed, WriteFails, WriteAll;
    hide PassStays, PassBreaks, Stays, Breaks;
    match i {
      case Connect(fd) => AcceptMeets(a, s, fd);
      case Readable(who, packets, err) => ReadExact(a, s, who, packets, err);
      case Writable(who, results) => WriteExact(a, s, who, results);
      case Fault(who) => ErrorExact(a, s, who);
      case Seconds(interval) =>
        if interval > 0 {
          PassExact(a, s, interval);
          AfterPassIsStep(s, interval);
        }
      case Rehashed(entries) => ReorderMeets(a, s, entries);
    }
  }

  lemma {:induction false} RunExactFrom(a: Aim, s: State, run: seq<Input>, r: State)
    requires Safe(s) && Timed(s.reg) && Meets(a, s) && Leads(s, run, r)
    ensures RunStays(a, s, run, r) <==> !RunBreaks(a, s, run, r)
    ensures RunStays(a, s, run, r) ==> Meets(a, r)
    decreases |run|
  {
    hide Safe, Timed, Meets, Possible, StepBreaks, Next;
    if run != [] {
      StepSafe(s, run[0]);
      StepExact(a, s, run[0]);
      if StepStays(a, s, run[0]) {
        StayingMeets(a, s, run[0]);
        RunExactFrom(a, Next(s, run[0]), run[1..], r);
      }
    }
  }

  lemma StayingMeets(a: Aim, s: State, i: Input)
    requires Safe(s) && Timed(s.reg) && Possible(s, i) && StepStays(a, s, i)
    ensures Meets(a, Next(s, i))
  {
    hide Safe, Timed, Meets, Possible, Next, Stays, PassStays;
  }

  lemma StartMeets(a: Aim, ip: nat, port: nat)
    ensures Meets(a, Start(ip, port))
  {
    StartAddressed(ip, port, false);
    StartAddressed(ip, port, true);
    EmptyRegInv();
    EmptyPlaced();
    var p := Pool(map[], map[], 0);
    assert forall h: Head, b: Block :: !On(p, h, b);
    EnqueueOwned(p, Send(Backend(Message)), ConnInfoPacket(ip, port));
  }

  /** Every state that a run of the server passes through meets an aim if and only if no step breaks it. */
  lemma {:induction false} RunExact(a: Aim, ip: nat, port: nat, run: seq<Input>, r: State)
    requires Leads(Start(ip, port), run, r)
    ensures RunStays(a, Start(ip, port), run, r) <==> !RunBreaks(a, Start(ip, port), run, r)
    ensures RunStays(a, Start(ip, port), run, r) ==> Meets(a, r)
  {
    hide Meets, Start, Safe, Timed, Leads, RunStays, RunBreaks;
    StartSafe(ip, port);
    StartMeets(a, ip, port);
    RunExactFrom(a, Start(ip, port), run, r);
  }

  // ---------------------------------------------------------------- aims that other aims include

  lemma {:induction false} HandledProcess(s: State, who: Ref)
    requires Safe(s) && Processable(s, who)
    ensures !Breaks(Handled, s, who)
    decreases |List(s.pool, Recv(who))|
  {
    SafeBasics(s);
    if List(s.pool, Recv(who)) != [] {
      PacketSafe(s, who);
      hide Safe, Loose, PacketOf, Processable;
      HandledProcess(PacketOf(PopFrom(s, Recv(who)), who, List(s.pool, Recv(who))[0]), who);
    }
  }

  /** Nothing makes a packet wait for a module that does not handle it. */
  lemma {:induction false} HandledRun(s: State, run: seq<Input>, r: State)
    requires Safe(s) && Timed(s.reg) && Leads(s, run, r)
    ensures !RunBreaks(Handled, s, run, r)
    decreases |run|
  {
    hide Safe, Timed, Next, Live, Processable;
    if run != [] {
      StepSafe(s, run[0]);
      if run[0].Readable? {
        ReceivedSafe(s, run[0].who, run[0].packets);
        HandledProcess(Received(s, run[0].who, run[0].packets), run[0].who);
      }
      HandledRun(Next(s, run[0]), run[1..], r);
    }
  }

  /** If the indexes agree, a packet that keeps them so keeps every aim. */
  lemma IndexedPacket(a: Aim, s: State, who: Ref, b: Block)
    requires Safe(s) && Backed(s.pool) && IndexKnown(s.reg) && b in s.pool.mem && Open(s, who)
    requires Meets(Indexed, s) && Meets(a, s)
    ensures who.Client? ==> who.id in s.reg.conns
    ensures !PacketBreaks(Indexed, s, who, b) ==> !PacketBreaks(a, s, who, b)
  {
    ConsistentBasics(s);
    IndexesAgree(s.reg, s.pool.mem[b].uin);
    hide Safe, Tidy, UinInv, Addressed, RegInv, CmdMisdirects, SrvMisdirects, Fitting, LeavesEntry, LoginOnce;
    if who.Client? {
      LeavesNone(s.reg, who.id);
    }
    if a.Directed? {
      LoginOnceDirects(s, if who.Client? then who.id else 0, b);
    }
  }

  lemma {:induction false} IndexedProcess(a: Aim, s: State, who: Ref)
    requires Safe(s) && Processable(s, who) && Meets(Indexed, s) && Meets(a, s) && !Breaks(Indexed, s, who)
    ensures !Breaks(a, s, who)
    decreases |List(s.pool, Recv(who))|
  {
    SafeBasics(s);
    if List(s.pool, Recv(who)) != [] {
      PacketSafe(s, who);
      PacketExact(Indexed, s, who);
      PacketExact(a, s, who);
      PopMeets(Indexed, s, Recv(who));
      PopMeets(a, s, Recv(who));
      var b, popped := List(s.pool, Recv(who))[0], PopFrom(s, Recv(who));
      SafeBasics(popped);
      hide Safe, Meets, Loose, PacketOf, Processable, PacketBreaks, Live;
      IndexedPacket(a, popped, who, b);
      IndexedProcess(a, PacketOf(popped, who, b), who);
    }
  }

  lemma IndexedError(s: State, who: Ref)
    requires Safe(s) && Meets(Indexed, s) && Open(s, who)
    ensures who.Client? ==> who.id in s.reg.conns && !LeavesEntry(s.reg, who.id)
  {
    ConsistentBasics(s);
    hide Safe, Consistent, RegInv, LeavesEntry;
    if who.Client? {
      LeavesNone(s.reg, who.id);
    }
  }

  /** The closings of a pass leave no entry behind if the indexes agree. */
  lemma {:induction false} IndexedClosings(s: State, cs: seq<ConnId>)
    requires Safe(s) && Meets(Indexed, s) && AllHeld(s.reg, cs) && NoDup(cs) && AllInConns(s.reg, cs)
    ensures !ClosingsLeave(s.reg, cs)
    decreases |cs|
  {
    if cs != [] {
      CloseOneExact(Indexed, s, cs[0]);
      CloseOneSafe(s, cs[0]);
      SafeBasics(s);
      DropPlaced(s.reg, cs[0]);
      TailMembers(cs);
      IndexedHeld(s, cs[0]);
      var r := CloseOne(s, cs[0]);
      hide Safe, Meets, Holds, NoDup, Placed, Loose, Dropped, CloseOne, LeavesEntry;
      forall i | 0 <= i < |cs[1..]| ensures Holds(r.reg.timer, cs[1..][i]) {
        assert cs[1..][i] == cs[i + 1] && cs[1..][i] in cs[1..];
      }
      IndexedClosings(r, cs[1..]);
    }
  }

  lemma IndexedHeld(s: State, c: ConnId)
    requires Safe(s) && Meets(Indexed, s) && Holds(s.reg.timer, c)
    ensures Open(s, Client(c)) && c in s.reg.conns && !LeavesEntry(s.reg, c)
  {
    assert Live(s.reg, c) by {
      hide Holds, Live;
    }
    hide Safe, LeavesEntry, Meets, Live, Holds;
    IndexedError(s, Client(c));
  }

  lemma IndexedStep(a: Aim, s: State, i: Input)
    requires Safe(s) && Timed(s.reg) && Possible(s, i) && Meets(Indexed, s) && Meets(a, s)
    requires !StepBreaks(Indexed, s, i)
    ensures !StepBreaks(a, s, i)
  {
    hide Safe, Timed, Meets, Live, LeavesEntry, Processable, Breaks, WriteFails, Holds, Owned, Backed;
    match i {
      case Connect(_) =>
      case Readable(who, packets, err) =>
        ReceivedSafe(s, who, packets);
        ReceiveMeets(Indexed, s, who, packets);
        ReceiveMeets(a, s, who, packets);
        IndexedError(s, who);
        if !err {
          IndexedProcess(a, Received(s, who, packets), who);
        }
      case Writable(who, _) => IndexedError(s, who);
      case Fault(who) => IndexedError(s, who);
      case Seconds(interval) =>
        if interval > 0 {
          BeforeClosingSafe(s, interval);
          BeforeClosingMeets(Indexed, s, interval);
          IndexedClosings(BeforeClosing(s, interval), TimeoutList(BeforeClosing(s, interval).reg.timer));
        }
      case Rehashed(_) =>
    }
  }

  /** A run that keeps the indexes in agreement keeps every aim. */
  lemma {:induction false} IndexedRun(a: Aim, s: State, run: seq<Input>, r: State)
    requires Safe(s) && Timed(s.reg) && Leads(s, run, r) && Meets(Indexed, s) && Meets(a, s)
    requires !RunBreaks(Indexed, s, run, r)
    ensures !RunBreaks(a, s, run, r)
    decreases |run|
  {
    hide Safe, Timed, Meets, Possible, StepBreaks, Next;
    if run != [] {
      StepSafe(s, run[0]);
      StepExact(Indexed, s, run[0]);
      IndexedStep(a, s, run[0]);
      StepExact(a, s, run[0]);
      StayingMeets(Indexed, s, run[0]);
      StayingMeets(a, s, run[0]);
      IndexedRun(a, Next(s, run[0]), run[1..], r);
    }
  }

  // ---------------------------------------------------------------- what the aims are for

  /** s is the outcome of a run that does not break the aim. */
  ghost predicate ReachedWith(a: Aim, s: State) {
    exists ip, port, run :: Leads(Start(ip, port), run, s) && !RunBreaks(a, Start(ip, port), run, s)
  }

  lemma ReachedMeets(a: Aim, s: State)
    requires ReachedWith(a, s)
    ensures Safe(s) && Timed(s.reg) && Meets(a, s) && Reachable(s)
  {
    hide Meets, Start, Safe, Timed, Leads, RunStays, RunBreaks;
    var ip, port, run :| Leads(Start(ip, port), run, s) && !RunBreaks(a, Start(ip, port), run, s);
    RunExact(a, ip, port, run, s);
    assert Reachable(s);
    ReachableIsSafe(s);
  }

  /** A run in which every client logs in once, as a user who is not logged in elsewhere, breaks no aim. */
  lemma LoggingInOnceSuffices(a: Aim, s: State)
    requires ReachedWith(Indexed, s)
    ensures ReachedWith(a, s)
  {
    hide Meets, Start, Safe, Timed, Leads, RunBreaks;
    var ip, port, run :| Leads(Start(ip, port), run, s) && !RunBreaks(Indexed, Start(ip, port), run, s);
    StartSafe(ip, port);
    StartMeets(Indexed, ip, port);
    StartMeets(a, ip, port);
    IndexedRun(a, Start(ip, port), run, s);
  }

  /** In every reachable state, a packet queued for a back-end module carries a command of that module,
      and what waits for the timer is a keep-alive. */
  lemma PacketsReachTheirModule(s: State, side: Side, b: Block)
    requires Reachable(s)
    ensures b in List(s.pool, Send(Backend(side))) ==> b in s.pool.mem && Handles(side, s.pool.mem[b].command)
    ensures b in List(s.pool, KeepAlive) ==> b in s.pool.mem && s.pool.mem[b].command == CMD_KEEP_ALIVE
  {
    hide Leads, Start, Safe, Timed, RunBreaks, RunStays, Addressed;
    var ip, port, run :| Leads(Start(ip, port), run, s);
    StartSafe(ip, port);
    HandledRun(Start(ip, port), run, s);
    RunExact(Handled, ip, port, run, s);
    ListedIsProper(s, Send(Backend(side)), b, false);
    ListedIsProper(s, KeepAlive, b, false);
  }

  /** While nothing misdirects, a packet queued for a client is addressed to the user whose login that
      client's connection carries: no user's packets are queued for another. */
  lemma PacketsReachTheirUser(s: State, c: ConnId, b: Block)
    requires ReachedWith(Directed, s) && b in List(s.pool, Send(Client(c)))
    ensures b in s.pool.mem && c in s.reg.conns && s.pool.mem[b].uin == s.reg.conns[c].uin
  {
    hide ReachedWith, Reachable, Safe, Timed, Addressed;
    ReachedMeets(Directed, s);
    ListedIsProper(s, Send(Client(c)), b, true);
  }

  lemma ReachedTidy(s: State)
    requires ReachedWith(Tidied, s)
    ensures Safe(s) && Timed(s.reg) && Tidy(s) && Placed(s.reg) && TidyReg(s.reg) && Backed(s.pool)
  {
    hide ReachedWith, Reachable, Timed, Placed;
    ReachedMeets(Tidied, s);
    SafeBasics(s);
  }

  /** While no closing leaves an entry behind, nothing leads to a connection that is not open: no index, no
      timer slot, no queue. */
  lemma NothingLeadsToClosed(s: State, c: ConnId)
    requires ReachedWith(Tidied, s) && !Live(s.reg, c)
    ensures c !in s.reg.byFd.Values && !Reaches(s.reg.byUin, c) && !Holds(s.reg.timer, c)
    ensures List(s.pool, Recv(Client(c))) == [] && List(s.pool, Send(Client(c))) == []
  {
    hide ReachedWith, Safe, Tidy, Live, Holds, Reaches, Timed;
    ReachedTidy(s);
    TidyIsApart(s, c);
  }

  /** Nor does then a new connection get a structure whose queues still hold packets. */
  lemma NewConnectionsLoseNothing(s: State, fd: int)
    requires ReachedWith(Tidied, s) && fd !in s.reg.byFd
    ensures Safe(s) && !Loses(s, Connect(fd))
  {
    hide ReachedWith, Safe, Tidy, Timed, Loses;
    ReachedTidy(s);
    AcceptConnTidy(s, fd);
  }

  /** And a pass that is due then closes an open connection exactly if it has been silent for CLIENT_TIMEOUT
      seconds by then, or if it is refreshed in a pass that covers more than one second. */
  lemma PassClosesConnections(s: State, interval: nat, c: ConnId)
    requires ReachedWith(Tidied, s) && 1 <= interval <= CLIENT_TIMEOUT && Live(s.reg, c)
    ensures Safe(s) && Timed(s.reg) && Backed(s.pool) && c in s.reg.ages
    ensures Live(Next(s, Seconds(interval)).reg, c)
        <==> if KeptAlive(s, c) then interval == 1 else s.reg.ages[c] + interval < CLIENT_TIMEOUT
  {
    hide *;
    ReachedTidy(s);
    AfterPassIsStep(s, interval);
    HeldExactlyIfLive(s.reg, c);
    HeldIsAgedHere(s.reg, c);
    PassLeavesOpen(s, interval, c);
    StaysYoung(s.reg.ages, interval, AliveList(s), c);
    AliveIsKept(s, c);
  }

  /** The registry after a pass. */
  lemma PassReg(s: State, interval: nat)
    requires Safe(s) && Timed(s.reg) && Backed(s.pool) && 1 <= interval <= CLIENT_TIMEOUT
    ensures var r := BeforeClosing(s, interval).reg;
            && Sized(s.reg.timer) && AllInConns(r, TimeoutList(r.timer))
            && AfterPass(s, interval).reg ==
                 DroppedAll(r, TimeoutList(r.timer)).(ages := AgesAfter(s.reg.ages, interval, AliveList(s)))
  {
    hide Safe, Timed, Holds, AgesAfter, AliveList, TimeoutList, BeforeClosing, CloseAll, AfterPass, AllHeld, NoDup;
    BeforeClosingSafe(s, interval);
    AfterPassIsExpiry(s, interval);
    CloseAllSafe(BeforeClosing(s, interval), TimeoutList(BeforeClosing(s, interval).reg.timer));
  }

  /** An open connection is collected exactly if the pass drops its age. */
  lemma PassCollects(s: State, interval: nat, c: ConnId)
    requires Safe(s) && Timed(s.reg) && Backed(s.pool) && 1 <= interval <= CLIENT_TIMEOUT && Live(s.reg, c)
    ensures var r := BeforeClosing(s, interval).reg;
            && Live(r, c) && NoDup(TimeoutList(r.timer))
            && (c in TimeoutList(r.timer) <==> c !in AgesAfter(s.reg.ages, interval, AliveList(s)))
  {
    SafeBasics(s);
    hide Safe, Timed, Holds, AgesAfter, AliveList, TimeoutList, BeforeClosing, AllHeld, NoDup, Expired, Placed;
    LiveIsHeld(s.reg, c);
    BeforeClosingSafe(s, interval);
    ExpiredAreHeld(s.reg, interval, AliveList(s));
  }

  lemma PassLeavesOpen(s: State, interval: nat, c: ConnId)
    requires Safe(s) && Tidy(s) && Timed(s.reg) && Backed(s.pool) && 1 <= interval <= CLIENT_TIMEOUT && Live(s.reg, c)
    ensures Live(AfterPass(s, interval).reg, c) <==> c in AgesAfter(s.reg.ages, interval, AliveList(s))
  {
    hide Safe, Tidy, Timed, Placed, Live, AgesAfter, AliveList, TimeoutList, BeforeClosing, AfterPass, AllLive, NoDup;
    hide AllInConns, HeldIsLive;
    SafeBasics(s);
    var r := BeforeClosing(s, interval);
    PassReg(s, interval);
    PassCollects(s, interval, c);
    BeforeClosingTidy(s, interval);
    BeforeClosingSafe(s, interval);
    SafeBasics(r);
    TidyHolds(r);
    DropAllLive(r.reg, TimeoutList(r.reg.timer));
    AgesLive(DroppedAll(r.reg, TimeoutList(r.reg.timer)), AgesAfter(s.reg.ages, interval, AliveList(s)), c);
  }

  lemma TidyHolds(s: State)
    requires Tidy(s)
    ensures HeldIsLive(s.reg)
  {
  }

  lemma AgesLive(r: Registry, ages: map<ConnId, nat>, c: ConnId)
    ensures Live(r.(ages := ages), c) <==> Live(r, c)
  {
  }

  /** While every client logs in once, a lookup by user finds the open connection that has logged in as that
      user, and no other connection has. */
  lemma {:induction false} UsersAreIndexed(s: State, uin: nat, c: ConnId)
    requires ReachedWith(Indexed, s) && Live(s.reg, c)
    ensures FindUin(s.reg.byUin, uin) == Found(c) <==> s.reg.conns[c].kind != NotLogin && s.reg.conns[c].uin == uin
    ensures FindUin(s.reg.byUin, uin).Found? ==> Live(s.reg, FindUin(s.reg.byUin, uin).conn)
  {
    hide ReachedWith, Reachable, Safe, Timed, Consistent;
    ReachedMeets(Indexed, s);
    LookupsAgree(s, uin, c);
  }

  /** Then a connection is kept alive exactly by keep-alives in the name of its own user. */
  lemma OwnKeepAlives(s: State, c: ConnId)
    requires ReachedWith(Indexed, s) && Live(s.reg, c)
    ensures Backed(s.pool)
    ensures KeptAlive(s, c) <==>
              && s.reg.conns[c].kind != NotLogin
              && exists b: Block :: On(s.pool, KeepAlive, b) && s.pool.mem[b].uin == s.reg.conns[c].uin
  {
    hide ReachedWith, Reachable, Safe, Timed, Consistent, Backed;
    ReachedMeets(Indexed, s);
    SafeBasics(s);
    forall b: Block | On(s.pool, KeepAlive, b)
      ensures b in s.pool.mem
      ensures FindUin(s.reg.byUin, s.pool.mem[b].uin) == Found(c)
         <==> s.reg.conns[c].kind != NotLogin && s.reg.conns[c].uin == s.pool.mem[b].uin
    {
      OnIsBlock(s.pool, KeepAlive, b);
      LookupsAgree(s, s.pool.mem[b].uin, c);
    }
  }

  lemma OnIsBlock(p: Pool, h: Head, b: Block)
    requires Backed(p) && On(p, h, b)
    ensures b in p.mem
  {
  }

  /** While verdicts fit, a packet is forwarded for a client, other than a request to log in, only while that
      client's latest login is granted. */
  lemma OnlyGrantedIsForwarded(s: State, i: nat)
    requires ReachedWith(Fitted, s) && i < |s.log| && s.log[i].Forwarded? && s.log[i].command != CMD_LOGIN
    ensures Standing(s.log[..i], s.log[i].conn) == LoginOk
  {
    hide ReachedWith, Reachable, Safe, Timed, Noted, Standing, Fits;
    ReachedMeets(Fitted, s);
    OnlyLoggedInIsForwarded(s, i);
    FittingPrefix(s.log, i);
    StandingIsNoted(s.log[..i], s.log[i].conn);
  }

  lemma FittingPrefix(log: seq<Event>, n: nat)
    requires Fitting(log) && n <= |log|
    ensures Fitting(log[..n])
  {
    forall i | 0 <= i < n ensures Fits(log[..n][..i], log[..n][i]) {
      assert log[..n][..i] == log[..i] && log[..n][i] == log[i];
    }
  }
}
