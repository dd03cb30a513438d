/** The message and the status module together: two processes joined by a channel in each direction,
    which deliver in order. A message is queued and its receiver's status asked for; the answer, whenever
    it comes, settles the receiver's whole queue. */
module ChatProtocol {
  import opened Sequences
  import opened StatusPool
  import opened MessageQueues

  /** Messages are numbered in the order in which the message module accepts them. */
  datatype Entry = Entry(id: nat, msg: Message)
  datatype Acceptance = Acceptance(uin: nat, msg: Message)

  /** A status question and its answer, with the number of the message that caused it. */
  datatype Question = Question(id: nat, uin: nat)
  datatype Answered = Answered(id: nat, uin: nat, status: Status)

  datatype Settled = Settled(uin: nat, flush: Flush<Entry>)

  /** Both modules, the two channels, what the message module has written to connection servers and handed
      to the store, and the history: what was accepted, and what each answer did. */
  datatype Net = Net(core: Core<Entry>, online: map<nat, Address>, questions: seq<Question>, answers: seq<Answered>,
                     written: seq<Write>, stored: seq<Offline>,
                     accepted: seq<Acceptance>, settled: seq<Settled>)

  /** What happens. Where a message goes to the store, the database may refuse to insert it. */
  datatype Event =
    | Arrive(packet: Packet)
    | StatusServes
    | MessageSettles(refused: seq<bool>)
    | StatusChanges(uin: nat, address: Address, stat: nat)
    | Register(address: Address, sockfd: nat)
    | Disconnect(sockfd: nat)

  ghost function Start(): Net {
    Net(Core(seq(MAX_USER + 1, i => []), []), map[], [], [], [], [], [], [])
  }

  ghost predicate Sized(n: Net) {
    |n.core.queues| == MAX_USER + 1 && forall k :: 0 <= k < |n.answers| ==> n.answers[k].uin <= MAX_USER
  }

  ghost function Accept(n: Net, p: Packet): Net
    requires Sized(n) && IsAccepted(p)
  {
    var id := |n.accepted|;
    n.(core := Push(n.core, p.toUin, Entry(id, MessageOf(p))),
       accepted := n.accepted + [Acceptance(p.toUin, MessageOf(p))],
       questions := n.questions + [Question(id, p.toUin)])
  }

  ghost function Serve(n: Net): Net
    requires n.questions != []
  {
    var q := n.questions[0];
    var reply := Answer(n.online, GetStatus(q.uin));
    n.(questions := n.questions[1..],
       answers := n.answers + if reply.StatusReply? then [Answered(q.id, reply.uin, reply.status)] else [])
  }

  /** The messages without their numbers. */
  ghost function Plain(q: seq<Entry>): seq<Message> {
    seq(|q|, i requires 0 <= i < |q| => q[i].msg)
  }

  ghost function ErasedFlush(f: Flush<Entry>): Flush<Message> {
    match f
    case Idle => Idle
    case Sent(fd, msgs) => Sent(fd, Plain(msgs))
    case Stored(msgs) => Stored(Plain(msgs))
    case Unroutable => Unroutable
  }

  ghost function SettleNext(n: Net, refused: seq<bool>): Net
    requires Sized(n) && n.answers != []
  {
    var a := n.answers[0];
    var flush := FlushOf(n.core, a.uin, a.status);
    n.(answers := n.answers[1..],
       core := Settle(n.core, a.uin, a.status),
       written := n.written + FlushWrites(a.uin, ErasedFlush(flush)),
       stored := n.stored + FlushStores(a.uin, ErasedFlush(flush), refused),
       settled := n.settled + [Settled(a.uin, flush)])
  }

  /** One step; an event that cannot happen changes nothing. */
  ghost function Step(n: Net, e: Event): Net
    requires Sized(n)
  {
    match e
    case Arrive(p) => if IsAccepted(p) then Accept(n, p) else n
    case StatusServes => if n.questions != [] then Serve(n) else n
    case MessageSettles(refused) => if n.answers != [] then SettleNext(n, refused) else n
    case StatusChanges(uin, address, stat) => n.(online := Changed(n.online, uin, address, stat))
    case Register(address, sockfd) => n.(core := n.core.(conns := AddCon(n.core.conns, address, sockfd)))
    case Disconnect(sockfd) => n.(core := n.core.(conns := DelCon(n.core.conns, sockfd)))
  }

  // ---------------------------------------------------------------- the numbering

  /** Settled answers, answers and questions in flight carry the numbers of the accepted messages in
      order, without a gap. */
  ghost predicate Numbered(n: Net) {
    var s, a := |n.settled|, |n.answers|;
    && s + a + |n.questions| == |n.accepted|
    && (forall k :: 0 <= k < s ==> n.settled[k].uin == n.accepted[k].uin)
    && (forall k :: 0 <= k < a ==> n.answers[k].id == s + k && n.answers[k].uin == n.accepted[s + k].uin)
    && (forall k :: 0 <= k < |n.questions| ==>
          n.questions[k].id == s + a + k && n.questions[k].uin == n.accepted[s + a + k].uin)
    && (forall k :: 0 <= k < |n.accepted| ==> n.accepted[k].uin < MAX_USER)
  }

  ghost predicate Wellformed(n: Net) {
    |n.core.queues| == MAX_USER + 1 && Numbered(n)
  }

  lemma WellformedSized(n: Net)
    requires Wellformed(n)
    ensures Sized(n)
  {
  }

  lemma AcceptWellformed(n: Net, p: Packet)
    requires Wellformed(n) && Sized(n) && IsAccepted(p)
    ensures Wellformed(Accept(n, p))
  {
  }

  lemma ServeWellformed(n: Net)
    requires Wellformed(n) && n.questions != []
    ensures Wellformed(Serve(n)) && |Serve(n).answers| == |n.answers| + 1
  {
    assert n.questions[0].uin < MAX_USER;
  }

  lemma SettleWellformed(n: Net, refused: seq<bool>)
    requires Wellformed(n) && Sized(n) && n.answers != []
    ensures Wellformed(SettleNext(n, refused))
  {
  }

  lemma StepWellformed(n: Net, e: Event)
    requires Wellformed(n)
    ensures Sized(n) && Wellformed(Step(n, e))
  {
    WellformedSized(n);
    match e
    case Arrive(p) => if IsAccepted(p) { AcceptWellformed(n, p); }
    case StatusServes => if n.questions != [] { ServeWellformed(n); }
    case MessageSettles(refused) => if n.answers != [] { SettleWellformed(n, refused); }
    case StatusChanges(_, _, _) =>
    case Register(_, _) =>
    case Disconnect(_) =>
  }

  // ---------------------------------------------------------------- what a queue holds

  /** A queue's messages are accepted ones for its user, newest first. */
  ghost predicate Genuine(accepted: seq<Acceptance>, u: nat, q: seq<Entry>) {
    && (forall k :: 0 <= k < |q| ==> q[k].id < |accepted| && accepted[q[k].id] == Acceptance(u, q[k].msg))
    && (forall k, l :: 0 <= k < l < |q| ==> q[k].id > q[l].id)
  }

  /** As long as a message is queued, no answer settled since it came has been of any use: its own, and
      every later one for the same user, named an unregistered connection server. */
  ghost predicate Waiting(n: Net, u: nat, id: nat) {
    forall j :: id <= j < |n.settled| && n.settled[j].uin == u ==> n.settled[j].flush.Unroutable?
  }

  ghost predicate QueueInv(n: Net, u: nat)
    requires |n.core.queues| == MAX_USER + 1 && u <= MAX_USER
  {
    var q := n.core.queues[u];
    Genuine(n.accepted, u, q) && forall k :: 0 <= k < |q| ==> Waiting(n, u, q[k].id)
  }

  /** The messages accepted for a user, in order. */
  ghost function AcceptedFor(accepted: seq<Acceptance>, u: nat): seq<Entry> {
    if accepted == [] then []
    else
      var k := |accepted| - 1;
      AcceptedFor(accepted[..k], u) + if accepted[k].uin == u then [Entry(k, accepted[k].msg)] else []
  }

  ghost function Reverse<T>(s: seq<T>): (r: seq<T>)
    ensures |r| == |s| && forall k :: 0 <= k < |s| ==> r[k] == s[|s| - 1 - k]
  {
    if s == [] then [] else Reverse(s[1..]) + [s[0]]
  }

  /** The messages one settled answer disposed of, oldest first; the flush itself goes newest first. */
  ghost function Disposed(f: Flush<Entry>): seq<Entry> {
    match f
    case Sent(_, msgs) => Reverse(msgs)
    case Stored(msgs) => Reverse(msgs)
    case Idle => []
    case Unroutable => []
  }

  ghost function DisposedFor(settled: seq<Settled>, u: nat): seq<Entry> {
    if settled == [] then []
    else
      var k := |settled| - 1;
      DisposedFor(settled[..k], u) + if settled[k].uin == u then Disposed(settled[k].flush) else []
  }

  /** Everything accepted for a user was either disposed of or is still queued, in order and once each. */
  ghost predicate Conserved(n: Net, u: nat)
    requires |n.core.queues| == MAX_USER + 1 && u <= MAX_USER
  {
    AcceptedFor(n.accepted, u) == DisposedFor(n.settled, u) + Reverse(n.core.queues[u])
  }

  lemma AcceptConserves(n: Net, p: Packet, u: nat)
    requires Wellformed(n) && Sized(n) && IsAccepted(p) && u <= MAX_USER && Conserved(n, u)
    ensures Conserved(Accept(n, p), u)
  {
    var r := Accept(n, p);
    assert r.accepted[..|n.accepted|] == n.accepted;
    if p.toUin == u {
      var e := Entry(|n.accepted|, MessageOf(p));
      var q := n.core.queues[u];
      assert r.core.queues[u] == [e] + q && ([e] + q)[1..] == q;
      assert Reverse([e] + q) == Reverse(q) + [e];
    }
  }

  /** Waiting does not depend on what is accepted, and a message that has just come waits for nothing yet. */
  lemma NoneWaits(n: Net, r: Net)
    requires r.settled == n.settled
    ensures forall u, id :: Waiting(r, u, id) <==> Waiting(n, u, id)
    ensures forall u, id: nat :: id >= |n.settled| ==> Waiting(n, u, id)
  {
  }

  lemma SettledWereAccepted(n: Net)
    requires Wellformed(n)
    ensures |n.settled| <= |n.accepted|
  {
  }

  lemma AcceptGenuine(accepted: seq<Acceptance>, a: Acceptance, u: nat, q: seq<Entry>)
    requires Genuine(accepted, u, q)
    ensures Genuine(accepted + [a], u, if a.uin == u then [Entry(|accepted|, a.msg)] + q else q)
  {
  }

  lemma AcceptKeeps(n: Net, p: Packet, u: nat)
    requires Wellformed(n) && Sized(n) && IsAccepted(p) && u <= MAX_USER && QueueInv(n, u) && Conserved(n, u)
    ensures QueueInv(Accept(n, p), u) && Conserved(Accept(n, p), u)
  {
    hide Conserved, Reverse, AcceptedFor, DisposedFor, Numbered, MessageOf, Waiting;
    AcceptConserves(n, p, u);
    var r, q := Accept(n, p), n.core.queues[u];
    var e := Entry(|n.accepted|, MessageOf(p));
    assert r.core.queues[u] == if p.toUin == u then [e] + q else q;
    NoneWaits(n, r);
    SettledWereAccepted(n);
    AcceptGenuine(n.accepted, Acceptance(p.toUin, MessageOf(p)), u, q);
  }

  lemma ServeKeeps(n: Net, u: nat)
    requires Wellformed(n) && n.questions != [] && u <= MAX_USER && QueueInv(n, u) && Conserved(n, u)
    ensures QueueInv(Serve(n), u) && Conserved(Serve(n), u)
  {
  }

  lemma SettleConserves(n: Net, u: nat, refused: seq<bool>)
    requires Wellformed(n) && Sized(n) && n.answers != [] && u <= MAX_USER && Conserved(n, u)
    ensures Conserved(SettleNext(n, refused), u)
  {
    hide Numbered, AcceptedFor, FlushWrites, FlushStores, ErasedFlush;
    assert SettleNext(n, refused).settled[..|n.settled|] == n.settled;
  }

  lemma SettleWaits(n: Net, u: nat, id: nat, refused: seq<bool>)
    requires Sized(n) && n.answers != [] && u <= MAX_USER && Waiting(n, u, id)
    requires n.answers[0].uin == u ==> FlushOf(n.core, u, n.answers[0].status).Unroutable?
    ensures Waiting(SettleNext(n, refused), u, id)
  {
    hide FlushOf;
  }

  lemma SettleShape(n: Net, u: nat, refused: seq<bool>)
    requires Sized(n) && n.answers != [] && u <= MAX_USER
    ensures var r := SettleNext(n, refused);
            && r.accepted == n.accepted && |r.core.queues| == |n.core.queues|
            && (r.core.queues[u] == []
                || (r.core.queues[u] == n.core.queues[u]
                    && (n.answers[0].uin == u ==> FlushOf(n.core, u, n.answers[0].status).Unroutable?)))
  {
  }

  lemma SettleKeeps(n: Net, u: nat, refused: seq<bool>)
    requires Wellformed(n) && Sized(n) && n.answers != [] && u <= MAX_USER && QueueInv(n, u) && Conserved(n, u)
    ensures QueueInv(SettleNext(n, refused), u) && Conserved(SettleNext(n, refused), u)
  {
    SettleConserves(n, u, refused);
    SettleShape(n, u, refused);
    EmptyIsGenuine(n.accepted, u);
    var r, q := SettleNext(n, refused), n.core.queues[u];
    hide Numbered, Conserved, Waiting, Genuine, SettleNext, Settle, FlushOf;
    if r.core.queues[u] != [] {
      forall k | 0 <= k < |q| ensures Waiting(r, u, q[k].id) {
        SettleWaits(n, u, q[k].id, refused);
      }
    }
  }

  lemma EmptyIsGenuine(accepted: seq<Acceptance>, u: nat)
    ensures Genuine(accepted, u, [])
  {
  }

  ghost predicate Inv(n: Net) {
    Wellformed(n) && forall u :: 0 <= u <= MAX_USER ==> QueueInv(n, u) && Conserved(n, u)
  }

  lemma StartInv()
    ensures Inv(Start())
  {
  }

  /** Every step of either module, and of the world around them, keeps the invariant. */
  lemma StepKeeps(n: Net, e: Event)
    requires Inv(n)
    ensures Sized(n) && Inv(Step(n, e))
  {
    StepWellformed(n, e);
    var r := Step(n, e);
    hide Wellformed, QueueInv, Conserved, Numbered;
    forall u | 0 <= u <= MAX_USER ensures Wellformed(r) && QueueInv(r, u) && Conserved(r, u) {
      StepKeepsQueue(n, e, u);
    }
  }

  lemma StepKeepsQueue(n: Net, e: Event, u: nat)
    requires Wellformed(n) && Sized(n) && u <= MAX_USER && QueueInv(n, u) && Conserved(n, u)
    ensures Wellformed(Step(n, e)) && QueueInv(Step(n, e), u) && Conserved(Step(n, e), u)
  {
    StepWellformed(n, e);
    match e
    case Arrive(p) => if IsAccepted(p) { AcceptKeeps(n, p, u); }
    case StatusServes => if n.questions != [] { ServeKeeps(n, u); }
    case MessageSettles(refused) => if n.answers != [] { SettleKeeps(n, u, refused); }
    case StatusChanges(_, _, _) =>
    case Register(_, _) =>
    case Disconnect(_) =>
  }

  // ---------------------------------------------------------------- runs

  ghost predicate Reaches(n: Net, run: seq<Event>, r: Net)
    decreases |run|
  {
    if run == [] then n == r else Sized(n) && Reaches(Step(n, run[0]), run[1..], r)
  }

  lemma {:induction false} RunKeeps(n: Net, run: seq<Event>, r: Net)
    requires Inv(n) && Reaches(n, run, r)
    ensures Inv(r)
    decreases |run|
  {
    if run != [] {
      StepKeeps(n, run[0]);
      RunKeeps(Step(n, run[0]), run[1..], r);
    }
  }

  /** n is the outcome of some run, whatever the interleaving. */
  ghost predicate Reachable(n: Net) {
    exists run :: Reaches(Start(), run, n)
  }

  lemma ReachableInv(n: Net)
    requires Reachable(n)
    ensures Inv(n)
  {
    var run :| Reaches(Start(), run, n);
    StartInv();
    RunKeeps(Start(), run, n);
  }

  /** In every reachable state: everything accepted for a user is, in the order of its
      acceptance, what the settled answers sent or stored followed by what is still queued. */
  lemma {:induction false} Conservation(n: Net, u: nat)
    requires Reachable(n) && u <= MAX_USER
    ensures Wellformed(n) && AcceptedFor(n.accepted, u) == DisposedFor(n.settled, u) + Reverse(n.core.queues[u])
  {
    ReachableInv(n);
    assert Conserved(n, u);
  }

  lemma {:induction false} AcceptedInOrder(accepted: seq<Acceptance>, u: nat)
    ensures forall i, j :: 0 <= i < j < |AcceptedFor(accepted, u)| ==>
              AcceptedFor(accepted, u)[i].id < AcceptedFor(accepted, u)[j].id
    ensures forall i :: 0 <= i < |AcceptedFor(accepted, u)| ==> AcceptedFor(accepted, u)[i].id < |accepted|
  {
    if accepted != [] {
      AcceptedInOrder(accepted[..|accepted| - 1], u);
    }
  }

  /** No message is disposed of twice, and none that is disposed of is still queued. */
  lemma {:induction false} AtMostOnce(n: Net, u: nat)
    requires Reachable(n) && u <= MAX_USER
    ensures Wellformed(n) && NoDup(DisposedFor(n.settled, u) + n.core.queues[u])
  {
    Conservation(n, u);
    AcceptedInOrder(n.accepted, u);
    var d, q := DisposedFor(n.settled, u), n.core.queues[u];
    var all := AcceptedFor(n.accepted, u);
    ReversedTail(d, q, all);
  }

  lemma {:induction false} ReversedTail(d: seq<Entry>, q: seq<Entry>, all: seq<Entry>)
    requires all == d + Reverse(q) && forall i, j :: 0 <= i < j < |all| ==> all[i].id < all[j].id
    ensures NoDup(d + q)
  {
    var s := d + q;
    forall i, j | 0 <= i < j < |s| ensures s[i] != s[j] {
      var i', j' := if i < |d| then i else |d| + |s| - 1 - i, if j < |d| then j else |d| + |s| - 1 - j;
      assert s[i] == all[i'] && s[j] == all[j'];
    }
  }

  /** While a user's queue is not empty, the question its newest message caused is in flight, or the
      answer to it is, or that answer named a connection server that is not registered. */
  lemma PendingIsInFlight(n: Net, u: nat)
    requires Reachable(n) && u <= MAX_USER && |n.core.queues| > u && n.core.queues[u] != []
    ensures var id := n.core.queues[u][0].id;
            || (exists k :: 0 <= k < |n.questions| && n.questions[k] == Question(id, u))
            || (exists k :: 0 <= k < |n.answers| && n.answers[k].id == id && n.answers[k].uin == u)
            || (id < |n.settled| && n.settled[id] == Settled(u, Unroutable))
  {
    ReachableInv(n);
    var e := n.core.queues[u][0];
    var s, a := |n.settled|, |n.answers|;
    assert QueueInv(n, u) && Waiting(n, u, e.id);
    if e.id < s {
    } else if e.id < s + a {
      assert n.answers[e.id - s].id == e.id && n.answers[e.id - s].uin == u;
    } else {
      assert n.questions[e.id - s - a] == Question(e.id, u);
    }
  }

  // ---------------------------------------------------------------- what is written and stored

  /** The messages among the packets written to connection servers that are for a user. */
  ghost function WrittenFor(w: seq<Write>, u: nat): seq<Message> {
    if w == [] then []
    else
      var k := |w| - 1;
      WrittenFor(w[..k], u) + if w[k].uin == u then [w[k].msg] else []
  }

  /** The messages handed to the store for a user. */
  ghost function StoredFor(t: seq<Offline>, u: nat): seq<Message> {
    if t == [] then []
    else
      var k := |t| - 1;
      StoredFor(t[..k], u) + if t[k].uin == u then [t[k].msg] else []
  }

  /** The messages that settled answers say were sent for a user, and those that they say were stored. */
  ghost function SentBy(settled: seq<Settled>, u: nat): seq<Message> {
    if settled == [] then []
    else
      var k := |settled| - 1;
      SentBy(settled[..k], u)
      + if settled[k].uin == u && settled[k].flush.Sent? then Plain(settled[k].flush.msgs) else []
  }

  ghost function StoredBy(settled: seq<Settled>, u: nat): seq<Message> {
    if settled == [] then []
    else
      var k := |settled| - 1;
      StoredBy(settled[..k], u)
      + if settled[k].uin == u && settled[k].flush.Stored? then Plain(settled[k].flush.msgs) else []
  }

  ghost predicate HandsOver(n: Net, u: nat) {
    WrittenFor(n.written, u) == SentBy(n.settled, u) && StoredFor(n.stored, u) == StoredBy(n.settled, u)
  }

  lemma {:induction false} WrittenAppend(w: seq<Write>, v: seq<Write>, u: nat)
    ensures WrittenFor(w + v, u) == WrittenFor(w, u) + WrittenFor(v, u)
  {
    if v == [] {
      assert w + v == w;
    } else {
      var k := |v| - 1;
      assert (w + v)[..|w + v| - 1] == w + v[..k];
      WrittenAppend(w, v[..k], u);
    }
  }

  lemma {:induction false} StoredAppend(t: seq<Offline>, v: seq<Offline>, u: nat)
    ensures StoredFor(t + v, u) == StoredFor(t, u) + StoredFor(v, u)
  {
    if v == [] {
      assert t + v == t;
    } else {
      var k := |v| - 1;
      assert (t + v)[..|t + v| - 1] == t + v[..k];
      StoredAppend(t, v[..k], u);
    }
  }

  lemma {:induction false} WritesAreFor(fd: nat, uin: nat, msgs: seq<Message>, u: nat)
    ensures WrittenFor(Writes(fd, uin, msgs), u) == if uin == u then msgs else []
  {
    if msgs != [] {
      var k := |msgs| - 1;
      assert Writes(fd, uin, msgs)[..k] == Writes(fd, uin, msgs[..k]);
      WritesAreFor(fd, uin, msgs[..k], u);
    }
  }

  lemma {:induction false} StoresAreFor(uin: nat, msgs: seq<Message>, refused: seq<bool>, u: nat)
    ensures StoredFor(Stores(uin, msgs, refused), u) == if uin == u then msgs else []
  {
    if msgs != [] {
      var k := |msgs| - 1;
      assert Stores(uin, msgs, refused)[..k] == Stores(uin, msgs[..k], refused);
      StoresAreFor(uin, msgs[..k], refused, u);
    }
  }

  lemma SettleHandsOver(n: Net, u: nat, refused: seq<bool>)
    requires Sized(n) && n.answers != [] && HandsOver(n, u)
    ensures HandsOver(SettleNext(n, refused), u)
  {
    var a, r := n.answers[0], SettleNext(n, refused);
    var flush := FlushOf(n.core, a.uin, a.status);
    var erased := ErasedFlush(flush);
    WrittenAppend(n.written, FlushWrites(a.uin, erased), u);
    StoredAppend(n.stored, FlushStores(a.uin, erased, refused), u);
    if flush.Sent? {
      WritesAreFor(flush.sockfd, a.uin, Plain(flush.msgs), u);
    } else if flush.Stored? {
      StoresAreFor(a.uin, Plain(flush.msgs), refused, u);
    }
    assert r.settled[..|n.settled|] == n.settled;
    hide FlushOf, Settle, Writes, Stores, Plain;
  }

  lemma {:induction false} RunHandsOver(n: Net, run: seq<Event>, r: Net, u: nat)
    requires Reaches(n, run, r) && HandsOver(n, u)
    ensures HandsOver(r, u)
    decreases |run|
  {
    hide HandsOver, Sized;
    if run != [] {
      StepHandsOver(n, run[0], u);
      RunHandsOver(Step(n, run[0]), run[1..], r, u);
    }
  }

  lemma StepHandsOver(n: Net, e: Event, u: nat)
    requires Sized(n) && HandsOver(n, u)
    ensures HandsOver(Step(n, e), u)
  {
    if e.MessageSettles? && n.answers != [] {
      SettleHandsOver(n, u, e.refused);
    }
    hide WrittenFor, StoredFor, SentBy, StoredBy;
  }

  /** In every reachable state, the messages written to connection servers for a user, and those handed to
      the store, are in order those of the answers settled. */
  lemma {:induction false} HandedOver(n: Net, u: nat)
    requires Reachable(n)
    ensures WrittenFor(n.written, u) == SentBy(n.settled, u) && StoredFor(n.stored, u) == StoredBy(n.settled, u)
  {
    var run :| Reaches(Start(), run, n);
    RunHandsOver(Start(), run, n, u);
  }

  lemma {:induction false} ReversedPlain(q: seq<Entry>)
    ensures multiset(Plain(Reverse(q))) == multiset(Plain(q))
  {
    if q != [] {
      ReversedPlain(q[1..]);
      PlainAppend(Reverse(q[1..]), [q[0]]);
      PlainAppend([q[0]], q[1..]);
      assert q == [q[0]] + q[1..];
    }
  }

  lemma PlainAppend(q: seq<Entry>, r: seq<Entry>)
    ensures Plain(q + r) == Plain(q) + Plain(r)
  {
  }

  lemma NonePlain()
    ensures Plain([]) == []
  {
  }

  lemma DisposedPlain(f: Flush<Entry>)
    ensures multiset(Plain(Disposed(f))) == if f.Sent? || f.Stored? then multiset(Plain(f.msgs)) else multiset{}
  {
    if f.Sent? || f.Stored? {
      ReversedPlain(f.msgs);
    }
  }

  lemma {:induction false} DisposedIsHandedOver(settled: seq<Settled>, u: nat)
    ensures multiset(Plain(DisposedFor(settled, u))) == multiset(SentBy(settled, u)) + multiset(StoredBy(settled, u))
  {
    hide Plain, Reverse, Disposed;
    if settled != [] {
      var k := |settled| - 1;
      var f := settled[k].flush;
      DisposedIsHandedOver(settled[..k], u);
      if settled[k].uin == u {
        PlainAppend(DisposedFor(settled[..k], u), Disposed(f));
        DisposedPlain(f);
      } else {
        assert DisposedFor(settled[..k], u) + [] == DisposedFor(settled[..k], u);
      }
    } else {
      NonePlain();
    }
  }

  /** In every reachable state, every message accepted for a user has been written to a connection server or
      handed to the store, once, or is still queued; and nothing else has been for that user. */
  lemma {:induction false} NothingIsLost(n: Net, u: nat)
    requires Reachable(n) && u <= MAX_USER
    ensures |n.core.queues| > u
    ensures multiset(Plain(AcceptedFor(n.accepted, u)))
         == multiset(WrittenFor(n.written, u)) + multiset(StoredFor(n.stored, u)) + multiset(Plain(n.core.queues[u]))
  {
    Conservation(n, u);
    HandedOver(n, u);
    DisposedIsHandedOver(n.settled, u);
    PlainAppend(DisposedFor(n.settled, u), Reverse(n.core.queues[u]));
    ReversedPlain(n.core.queues[u]);
    hide Reachable, Reverse, Plain, AcceptedFor, DisposedFor, WrittenFor, StoredFor, SentBy, StoredBy;
  }

  // ---------------------------------------------------------------- what the messages are

  /** The chat and friend packets that arrive in a run for a user number in range. */
  ghost function Arrivals(run: seq<Event>): (ps: seq<Packet>)
    ensures forall k :: 0 <= k < |ps| ==> ps[k].Chat? || ps[k].Friend?
  {
    if run == [] then []
    else
      var e := run[0];
      (if e.Arrive? && (e.packet.Chat? || e.packet.Friend?) && e.packet.toUin < MAX_USER then [e.packet] else [])
      + Arrivals(run[1..])
  }

  /** Those among packets that are for a user. */
  ghost function ArrivedFor(ps: seq<Packet>, u: nat): seq<Packet>
    requires forall k :: 0 <= k < |ps| ==> ps[k].Chat? || ps[k].Friend?
  {
    if ps == [] then []
    else
      var k := |ps| - 1;
      ArrivedFor(ps[..k], u) + if ps[k].toUin == u then [ps[k]] else []
  }

  ghost predicate AllCarry(ms: seq<Message>, ps: seq<Packet>) {
    |ms| == |ps| && forall k :: 0 <= k < |ms| ==> Carries(ms[k], ps[k])
  }

  /** What was accepted is, from number i on, what the packets carry. */
  ghost predicate AcceptedFrom(accepted: seq<Acceptance>, i: nat, ps: seq<Packet>)
    requires forall k :: 0 <= k < |ps| ==> ps[k].Chat? || ps[k].Friend?
  {
    |accepted| == i + |ps|
    && forall k :: 0 <= k < |ps| ==> accepted[i + k].uin == ps[k].toUin && Carries(accepted[i + k].msg, ps[k])
  }

  lemma StepAccepts(n: Net, e: Event)
    requires Sized(n)
    ensures var a := Step(n, e).accepted;
            n.accepted <= a && AcceptedFrom(a, |n.accepted|, Arrivals([e]))
  {
    hide Push, Settle, FlushOf, FlushWrites, FlushStores, ErasedFlush, Changed, AddCon, DelCon, Answer;
    assert [e][1..] == [] && Arrivals([]) == [];
  }

  lemma AcceptedMore(a: seq<Acceptance>, b: seq<Acceptance>, i: nat, ps: seq<Packet>, qs: seq<Packet>)
    requires forall k :: 0 <= k < |ps| ==> ps[k].Chat? || ps[k].Friend?
    requires forall k :: 0 <= k < |qs| ==> qs[k].Chat? || qs[k].Friend?
    requires AcceptedFrom(a, i, ps) && a <= b && AcceptedFrom(b, |a|, qs)
    ensures AcceptedFrom(b, i, ps + qs)
  {
    hide Carries;
    forall k | 0 <= k < |ps + qs|
      ensures b[i + k].uin == (ps + qs)[k].toUin && Carries(b[i + k].msg, (ps + qs)[k])
    {
      if k < |ps| {
        assert b[i + k] == a[i + k];
      } else {
        assert b[i + k] == b[|a| + (k - |ps|)];
      }
    }
  }

  lemma {:induction false} ArrivalsSplit(e: Event, rest: seq<Event>)
    ensures Arrivals([e] + rest) == Arrivals([e]) + Arrivals(rest)
  {
    assert ([e] + rest)[1..] == rest && [e][1..] == [];
  }

  lemma {:induction false} ArrivalsAreAccepted(n: Net, run: seq<Event>, r: Net)
    requires Reaches(n, run, r)
    ensures n.accepted <= r.accepted && AcceptedFrom(r.accepted, |n.accepted|, Arrivals(run))
    decreases |run|
  {
    if run != [] {
      hide Step, AcceptedFrom, Arrivals, Sized;
      var m := Step(n, run[0]);
      StepAccepts(n, run[0]);
      ArrivalsAreAccepted(m, run[1..], r);
      AcceptedMore(m.accepted, r.accepted, |n.accepted|, Arrivals([run[0]]), Arrivals(run[1..]));
      assert [run[0]] + run[1..] == run;
      ArrivalsSplit(run[0], run[1..]);
    }
  }

  lemma {:induction false} AcceptedCarry(accepted: seq<Acceptance>, ps: seq<Packet>, u: nat)
    requires (forall k :: 0 <= k < |ps| ==> ps[k].Chat? || ps[k].Friend?) && AcceptedFrom(accepted, 0, ps)
    ensures AllCarry(Plain(AcceptedFor(accepted, u)), ArrivedFor(ps, u))
  {
    if ps != [] {
      var k := |ps| - 1;
      AcceptedCarry(accepted[..k], ps[..k], u);
      PlainAppend(AcceptedFor(accepted[..k], u), if accepted[k].uin == u then [Entry(k, accepted[k].msg)] else []);
      hide Carries;
    }
  }

  /** Over every run: the messages of the packets that arrived for a user, each with its packet's sender, time,
      kind, length and text, are those written for the user, those stored and those still queued. */
  lemma EveryPacketIsHandedOver(run: seq<Event>, n: Net, u: nat) returns (ms: seq<Message>)
    requires Reaches(Start(), run, n) && u <= MAX_USER
    ensures AllCarry(ms, ArrivedFor(Arrivals(run), u)) && |n.core.queues| > u
    ensures multiset(ms)
         == multiset(WrittenFor(n.written, u)) + multiset(StoredFor(n.stored, u)) + multiset(Plain(n.core.queues[u]))
  {
    ms := Plain(AcceptedFor(n.accepted, u));
    assert Reachable(n);
    ArrivalsAreAccepted(Start(), run, n);
    hide Reaches, Reachable, Plain, AcceptedFor, Arrivals, ArrivedFor, AllCarry, AcceptedFrom;
    NothingIsLost(n, u);
    AcceptedCarry(n.accepted, Arrivals(run), u);
  }

  /** No message is made up: what is written or stored for a user is carried by a packet that arrived for
      that user. */
  lemma {:induction false} EveryMessageHasArrived(run: seq<Event>, n: Net, u: nat, m: Message)
    requires Reaches(Start(), run, n) && u <= MAX_USER && (m in WrittenFor(n.written, u) || m in StoredFor(n.stored, u))
    ensures exists p :: p in ArrivedFor(Arrivals(run), u) && Carries(m, p)
  {
    hide Reaches, WrittenFor, StoredFor, Arrivals, ArrivedFor, Carries, Plain;
    var ms := EveryPacketIsHandedOver(run, n, u);
    assert m in multiset(WrittenFor(n.written, u)) || m in multiset(StoredFor(n.stored, u));
    assert m in multiset(ms) && m in ms;
    var k :| 0 <= k < |ms| && ms[k] == m;
    assert ArrivedFor(Arrivals(run), u)[k] in ArrivedFor(Arrivals(run), u);
  }

  // ---------------------------------------------------------------- delivery

  ghost predicate Registered(conns: seq<ConInfo>, status: Status) {
    status.stat != 0 ==> ConToFd(conns, status.address) >= 0
  }

  /** Every connection server a user is at, or was at when an answer was sent, is registered. */
  ghost predicate Routable(n: Net) {
    && (forall u :: u in n.online ==> ConToFd(n.core.conns, n.online[u]) >= 0)
    && (forall k :: 0 <= k < |n.answers| ==> Registered(n.core.conns, n.answers[k].status))
  }

  /** Lets both modules run until the channels are empty. */
  ghost function Drain(n: Net, refused: seq<bool>): Net
    requires Wellformed(n)
    decreases 2 * |n.questions| + |n.answers|
  {
    WellformedSized(n);
    if n.answers != [] then SettleWellformed(n, refused); Drain(SettleNext(n, refused), refused)
    else if n.questions != [] then ServeWellformed(n); Drain(Serve(n), refused)
    else n
  }

  /** From answer number s on, every answer could be routed. */
  ghost predicate RoutedFrom(n: Net, s: nat) {
    forall k :: s <= k < |n.settled| ==> !n.settled[k].flush.Unroutable?
  }

  lemma SettleRoutes(n: Net, s: nat, refused: seq<bool>)
    requires Sized(n) && n.answers != [] && Routable(n) && s <= |n.settled| && RoutedFrom(n, s)
    ensures Routable(SettleNext(n, refused)) && RoutedFrom(SettleNext(n, refused), s)
  {
    var r := SettleNext(n, refused);
    assert Registered(n.core.conns, n.answers[0].status);
    forall k | 0 <= k < |r.answers| ensures Registered(r.core.conns, r.answers[k].status) {
      assert r.answers[k] == n.answers[k + 1];
    }
  }

  lemma {:induction false} DrainRoutes(n: Net, s: nat, refused: seq<bool>)
    requires Inv(n) && Routable(n) && s <= |n.settled| && RoutedFrom(n, s)
    ensures var r := Drain(n, refused); Inv(r) && r.questions == [] && r.answers == [] && RoutedFrom(r, s)
    ensures Drain(n, refused).accepted == n.accepted
    decreases 2 * |n.questions| + |n.answers|
  {
    hide Inv, Numbered, FlushOf;
    if n.answers != [] {
      StepKeeps(n, MessageSettles(refused));
      var r := SettleNext(n, refused);
      SettleRoutes(n, s, refused);
      DrainRoutes(r, s, refused);
    } else if n.questions != [] {
      StepKeeps(n, StatusServes);
      DrainRoutes(Serve(n), s, refused);
    }
  }

  /** Once the channels have drained, every message whose own status question was still to be answered
      has been disposed of, provided the connection servers concerned are registered. */
  lemma {:induction false} Delivered(n: Net, u: nat, refused: seq<bool>)
    requires Reachable(n) && Wellformed(n) && Routable(n) && u <= MAX_USER
    ensures Wellformed(Drain(n, refused))
    ensures var q := Drain(n, refused).core.queues[u];
            forall k :: 0 <= k < |q| ==> q[k].id < |n.settled|
  {
    ReachableInv(n);
    DrainRoutes(n, |n.settled|, refused);
    var r := Drain(n, refused);
    assert QueueInv(r, u);
    forall k | 0 <= k < |r.core.queues[u]| ensures r.core.queues[u][k].id < |n.settled| {
      var id := r.core.queues[u][k].id;
      assert Waiting(r, u, id) && r.settled[id].uin == u;
    }
  }

  // ---------------------------------------------------------------- users who stay away

  /** Nothing has been sent for a user, and nothing in flight would send it. */
  ghost predicate Away(n: Net, u: nat) {
    && u !in n.online
    && (forall k :: 0 <= k < |n.answers| && n.answers[k].uin == u ==> n.answers[k].status.stat == 0)
    && (forall k :: 0 <= k < |n.settled| && n.settled[k].uin == u ==>
          n.settled[k].flush.Idle? || n.settled[k].flush.Stored?)
  }

  lemma AwayStep(n: Net, e: Event, u: nat)
    requires Wellformed(n) && Sized(n) && Away(n, u) && !(e.StatusChanges? && e.uin == u && e.stat != 0)
    ensures Away(Step(n, e), u)
  {
  }

  lemma AwaySettles(n: Net, u: nat, id: nat)
    requires Wellformed(n) && Away(n, u) && id < |n.settled| && n.accepted[id].uin == u
    ensures !Waiting(n, u, id)
  {
    assert n.settled[id].uin == u;
  }

  /** Messages for a user who never comes online are never sent to a connection server: they are stored,
      all those whose question has been settled and none left queued behind them. */
  lemma {:induction false} StaysAway(n: Net, run: seq<Event>, r: Net, u: nat)
    requires Inv(n) && Away(n, u) && Reaches(n, run, r) && u <= MAX_USER
    requires forall k :: 0 <= k < |run| ==> !(run[k].StatusChanges? && run[k].uin == u && run[k].stat != 0)
    ensures Inv(r) && Away(r, u)
    ensures forall k :: 0 <= k < |r.core.queues[u]| ==> r.core.queues[u][k].id >= |r.settled|
    decreases |run|
  {
    if run == [] {
      assert QueueInv(r, u);
      forall k | 0 <= k < |r.core.queues[u]| ensures r.core.queues[u][k].id >= |r.settled| {
        var id := r.core.queues[u][k].id;
        if id < |r.settled| {
          AwaySettles(r, u, id);
        }
      }
    } else {
      StepKeeps(n, run[0]);
      AwayStep(n, run[0], u);
      StaysAway(Step(n, run[0]), run[1..], r, u);
    }
  }

  // ---------------------------------------------------------------- users who stay at one server

  /** The user is at an address whose server is registered, every answer on its way says so, and since
      answer number since was settled messages have gone to that server's socket only. */
  ghost predicate StaysWith(n: Net, u: nat, address: Address, sockfd: nat, since: nat) {
    && u in n.online && n.online[u] == address && ConToFd(n.core.conns, address) == sockfd
    && (forall k :: 0 <= k < |n.answers| && n.answers[k].uin == u ==> n.answers[k].status == Status(1, address))
    && (forall k :: since <= k < |n.settled| && n.settled[k].uin == u ==>
          n.settled[k].flush.Idle? || (n.settled[k].flush.Sent? && n.settled[k].flush.sockfd == sockfd))
  }

  /** The event leaves the user where it is, and the server's registration alone. */
  ghost predicate LeavesInPlace(e: Event, u: nat, address: Address, sockfd: nat) {
    match e
    case StatusChanges(uin, _, _) => uin != u
    case Register(a, fd) => a == address ==> fd == sockfd
    case Disconnect(fd) => fd != sockfd
    case _ => true
  }

  lemma StaysWithStep(n: Net, e: Event, u: nat, address: Address, sockfd: nat, since: nat)
    requires Wellformed(n) && Sized(n) && since <= |n.settled|
    requires StaysWith(n, u, address, sockfd, since) && LeavesInPlace(e, u, address, sockfd)
    ensures StaysWith(Step(n, e), u, address, sockfd, since) && since <= |Step(n, e).settled|
  {
    if e.Register? {
      AddConUpdates(n.core.conns, e.address, e.sockfd, address);
    } else if e.Disconnect? {
      DelConKeepsOthers(n.core.conns, e.sockfd, address);
    }
  }

  /** While a user stays at one registered connection server, whatever else happens, messages are sent to
      that server's socket, and none is stored or left unroutable. */
  lemma {:induction false} SentWhereTheUserIs(n: Net, run: seq<Event>, r: Net, u: nat, address: Address,
                                               sockfd: nat, since: nat)
    requires Inv(n) && Reaches(n, run, r) && since <= |n.settled| && StaysWith(n, u, address, sockfd, since)
    requires forall k :: 0 <= k < |run| ==> LeavesInPlace(run[k], u, address, sockfd)
    ensures StaysWith(r, u, address, sockfd, since)
    decreases |run|
  {
    if run != [] {
      StepKeeps(n, run[0]);
      StaysWithStep(n, run[0], u, address, sockfd, since);
      SentWhereTheUserIs(Step(n, run[0]), run[1..], r, u, address, sockfd, since);
    }
  }

  // ---------------------------------------------------------------- the modules take these steps

  /** The message module's own state: the protocol's without the numbers. */
  ghost function Erase(c: Core<Entry>): Core<Message> {
    Core(seq(|c.queues|, u requires 0 <= u < |c.queues| => Plain(c.queues[u])), c.conns)
  }

  /** The packet with which an event reaches the message module, and the socket it comes from. */
  ghost function PacketFor(n: Net, e: Event): Packet
    requires Sized(n)
  {
    match e
    case Arrive(p) => p
    case MessageSettles(_) => if n.answers != [] then RepStatus(n.answers[0].uin, n.answers[0].status) else OtherPacket
    case Register(address, _) => ConnInfo(address)
    case _ => OtherPacket
  }

  ghost function SocketFor(e: Event): nat {
    if e.Register? then e.sockfd else 0
  }

  /** Settling an answer and leaving the numbers out can be done in either order. */
  lemma SettleErased(c: Core<Entry>, u: nat, status: Status)
    requires u < |c.queues|
    ensures Erase(Settle(c, u, status)) == Settle(Erase(c), u, status)
    ensures FlushOf(Erase(c), u, status) == ErasedFlush(FlushOf(c, u, status))
  {
    assert Plain([]) == [];
    assert Plain(c.queues[u]) == [] <==> c.queues[u] == [];
    assert Erase(Settle(c, u, status)).queues == Settle(Erase(c), u, status).queues;
  }

  /** Each protocol step of the message module is what its packet handler does, and disposes of the same
      messages. */
  lemma StepIsHandler(n: Net, e: Event)
    requires Wellformed(n) && Sized(n) && !e.Disconnect? && (e.Arrive? ==> e.packet.Chat? || e.packet.Friend?)
    ensures var p := PacketFor(n, e);
            && (p.RepStatus? ==> p.uin <= MAX_USER)
            && Erase(Step(n, e).core) == After(Erase(n.core), p, SocketFor(e))
            && (p.RepStatus? ==>
                  var f := FlushAfter(Erase(n.core), p);
                  && f == ErasedFlush(FlushOf(n.core, p.uin, p.status))
                  && Step(n, e).written == n.written + FlushWrites(p.uin, f)
                  && Step(n, e).stored == n.stored + FlushStores(p.uin, f, e.refused))
            && (!p.RepStatus? ==> Step(n, e).written == n.written && Step(n, e).stored == n.stored)
            && (e.Arrive? ==>
                  Step(n, e).questions ==
                  n.questions + if p.toUin < MAX_USER then [Question(|n.accepted|, p.toUin)] else [])
  {
    if e.Arrive? && IsAccepted(e.packet) {
      var p := e.packet;
      var q := n.core.queues[p.toUin];
      assert Plain([Entry(|n.accepted|, MessageOf(p))] + q) == [MessageOf(p)] + Plain(q);
      assert Erase(Step(n, e).core).queues == After(Erase(n.core), p, 0).queues;
    } else if e.MessageSettles? && n.answers != [] {
      SettleErased(n.core, n.answers[0].uin, n.answers[0].status);
    }
  }
}
