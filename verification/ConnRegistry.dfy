/** The connection server's registry: the connection structures and their allocator, the index by socket,
    the index by user, and the timer. */
module ConnRegistry {
  import opened Sequences
  import opened TimerSpec
  import opened PacketPool

  datatype LoginType = NotLogin | LoginOk | LoginUncomplete | LoginError

  datatype Connection = Connection(uin: nat, sfd: int, kind: LoginType)

  datatype UinEntry = UinEntry(uin: nat, conn: ConnId)

  datatype Lookup = Missing | Found(conn: ConnId)

  /** conns holds every connection structure ever allocated, the released ones included. ages is history:
      for each connection, the seconds since it was last put into the timer. */
  datatype Registry = Registry(conns: map<ConnId, Connection>, free: seq<ConnId>, next: ConnId,
                               byFd: map<int, ConnId>, byUin: seq<UinEntry>,
                               timer: Wheel<ConnId>, ages: map<ConnId, nat>)

  // ---------------------------------------------------------------- the index by user

  /** The index as a sequence with the newest entry first, which is where the hash table puts it: a
      lookup finds the newest entry of a user, and nothing keeps a user from having several. */
  function FindUin(es: seq<UinEntry>, uin: nat): (r: Lookup)
    ensures r.Found? ==> UinEntry(uin, r.conn) in es
  {
    if es == [] then Missing else if es[0].uin == uin then Found(es[0].conn) else FindUin(es[1..], uin)
  }

  /** Removes the entry that a lookup finds. */
  function DropUin(es: seq<UinEntry>, uin: nat): (r: seq<UinEntry>)
    ensures forall e :: e in r ==> e in es
  {
    if es == [] then [] else if es[0].uin == uin then es[1..] else [es[0]] + DropUin(es[1..], uin)
  }

  function EntriesOf(es: seq<UinEntry>, c: ConnId): nat {
    if es == [] then 0 else (if es[0].conn == c then 1 else 0) + EntriesOf(es[1..], c)
  }

  ghost predicate Reaches(es: seq<UinEntry>, c: ConnId) {
    exists i :: 0 <= i < |es| && es[i].conn == c
  }

  lemma {:induction false} ReachesIfCounted(es: seq<UinEntry>, c: ConnId)
    ensures Reaches(es, c) <==> EntriesOf(es, c) > 0
  {
    if es != [] {
      ReachesIfCounted(es[1..], c);
      if i :| 0 <= i < |es| && es[i].conn == c {
        assert i > 0 ==> es[1..][i - 1].conn == c;
      }
      if i :| 0 <= i < |es[1..]| && es[1..][i].conn == c {
        assert es[i + 1].conn == c;
      }
    }
  }

  lemma {:induction false} DropCounts(es: seq<UinEntry>, uin: nat, c: ConnId)
    ensures EntriesOf(DropUin(es, uin), c) == EntriesOf(es, c) - if FindUin(es, uin) == Found(c) then 1 else 0
  {
    if es != [] && es[0].uin != uin {
      DropCounts(es[1..], uin, c);
      assert ([es[0]] + DropUin(es[1..], uin))[1..] == DropUin(es[1..], uin);
    }
  }

  /** Closing a connection removes what a lookup of its user finds. Afterwards no entry leads to the
      connection exactly if none did before, or there was one and the lookup found it. */
  lemma {:induction false} CloseForgets(es: seq<UinEntry>, uin: nat, c: ConnId)
    ensures !Reaches(DropUin(es, uin), c)
        <==> EntriesOf(es, c) == 0 || (EntriesOf(es, c) == 1 && FindUin(es, uin) == Found(c))
  {
    DropCounts(es, uin, c);
    ReachesIfCounted(DropUin(es, uin), c);
  }

  /** Two connections logged in as the same user: closing the first one leaves an entry that leads to it. */
  lemma SecondLoginLeavesEntry(first: ConnId, second: ConnId)
    requires first != second
    ensures FindUin(DropUin([UinEntry(7, second), UinEntry(7, first)], 7), 7) == Found(first)
  {
  }

  ghost predicate DistinctUins(es: seq<UinEntry>) {
    forall i, j :: 0 <= i < j < |es| ==> es[i].uin != es[j].uin
  }

  lemma {:induction false} FindIsEntry(es: seq<UinEntry>, uin: nat)
    ensures FindUin(es, uin).Missing? ==> forall i :: 0 <= i < |es| ==> es[i].uin != uin
  {
    if es != [] && es[0].uin != uin {
      FindIsEntry(es[1..], uin);
    }
  }

  /** A lookup finds the first entry of the user, and none exactly if there is none. */
  lemma {:induction false} FindsFirst(es: seq<UinEntry>, uin: nat, i: nat)
    requires i < |es| && es[i].uin == uin && forall j :: 0 <= j < i ==> es[j].uin != uin
    ensures FindUin(es, uin) == Found(es[i].conn)
  {
    if i > 0 {
      FindsFirst(es[1..], uin, i - 1);
    }
  }

  lemma {:induction false} FindsEntry(es: seq<UinEntry>, uin: nat, c: ConnId)
    requires DistinctUins(es) && UinEntry(uin, c) in es
    ensures FindUin(es, uin) == Found(c)
  {
    FindIsEntry(es, uin);
    var i :| 0 <= i < |es| && es[i] == UinEntry(uin, c);
    if FindUin(es, uin).Found? {
      var j :| 0 <= j < |es| && es[j] == UinEntry(uin, FindUin(es, uin).conn);
    }
  }

  lemma {:induction false} DropMembers(es: seq<UinEntry>, uin: nat)
    requires DistinctUins(es)
    ensures DistinctUins(DropUin(es, uin))
    ensures forall e :: e in DropUin(es, uin) <==> e in es && e.uin != uin
  {
    if es != [] {
      assert es == [es[0]] + es[1..];
      if es[0].uin == uin {
        forall e | e in es[1..] ensures e.uin != uin {
          var i :| 0 <= i < |es[1..]| && es[1..][i] == e;
          assert es[0].uin != es[i + 1].uin;
        }
      } else {
        DropMembers(es[1..], uin);
        var rest := DropUin(es[1..], uin);
        forall i | 0 <= i < |rest| ensures rest[i].uin != es[0].uin {
          assert rest[i] in es[1..];
          var j :| 0 <= j < |es[1..]| && es[1..][j] == rest[i];
          assert es[0].uin != es[j + 1].uin;
        }
      }
    }
  }

  // ---------------------------------------------------------------- the timer

  /** Takes a connection out of whatever slot it is in. */
  function Unlink(w: Wheel<ConnId>, c: ConnId): Wheel<ConnId> {
    w.(slots := seq(|w.slots|, i requires 0 <= i < |w.slots| => Erase(w.slots[i], c)))
  }

  lemma {:induction false} EraseAbsent(s: seq<ConnId>, c: ConnId)
    requires c !in s
    ensures Erase(s, c) == s
  {
    if s != [] {
      EraseAbsent(s[1..], c);
    }
  }

  lemma UnlinkIsRemove(w: Wheel<ConnId>, c: ConnId)
    requires Inv(w)
    ensures Unlink(w, c) == Remove(w, c)
  {
    if Holds(w, c) {
      var k :| In(w, k, c);
      RemoveIsDel(w, k, c);
      forall i | 0 <= i < |w.slots| && i != k ensures Erase(w.slots[i], c) == w.slots[i] {
        assert !In(w, i, c);
        EraseAbsent(w.slots[i], c);
      }
    } else {
      forall i | 0 <= i < |w.slots| ensures Erase(w.slots[i], c) == w.slots[i] {
        assert !In(w, i, c);
        EraseAbsent(w.slots[i], c);
      }
    }
  }

  // ---------------------------------------------------------------- operations

  function NewConn(r: Registry): ConnId {
    if r.free != [] then r.free[0] else r.next
  }

  /** A connection is accepted on a socket. */
  function Accepted(r: Registry, fd: int): Registry
    requires Sized(r.timer)
  {
    var c := NewConn(r);
    r.(conns := r.conns[c := Connection(0, fd, NotLogin)],
       free := if r.free != [] then r.free[1..] else [],
       next := if r.free != [] then r.next else r.next + 1,
       byFd := r.byFd[fd := c],
       timer := Add(r.timer, c), ages := r.ages[c := 0])
  }

  /** A login is asked for: the user's number is entered before the user module has answered. */
  function LoggedIn(r: Registry, c: ConnId, uin: nat): Registry
    requires c in r.conns
  {
    r.(conns := r.conns[c := r.conns[c].(uin := uin, kind := LoginUncomplete)],
       byUin := [UinEntry(uin, c)] + r.byUin)
  }

  function Marked(r: Registry, c: ConnId, kind: LoginType): Registry
    requires c in r.conns
  {
    r.(conns := r.conns[c := r.conns[c].(kind := kind)])
  }

  /** A connection is closed. */
  function Dropped(r: Registry, c: ConnId): Registry
    requires c in r.conns
  {
    r.(byFd := r.byFd - {r.conns[c].sfd},
       byUin := DropUin(r.byUin, r.conns[c].uin),
       timer := Unlink(r.timer, c), ages := r.ages - {c},
       free := [c] + r.free)
  }

  /** The entries of the index by user come to stand in another order. */
  function Reordered(r: Registry, entries: seq<UinEntry>): Registry {
    r.(byUin := entries)
  }

  /** Index entries lead to connection structures. */
  ghost predicate IndexKnown(r: Registry) {
    forall e :: e in r.byUin ==> e.conn in r.conns
  }

  // ---------------------------------------------------------------- what every operation keeps

  /** c is open: the index by socket leads to it. */
  ghost predicate Live(r: Registry, c: ConnId) {
    c in r.conns && r.conns[c].sfd in r.byFd && r.byFd[r.conns[c].sfd] == c
  }

  /** Every structure ever handed out is either free, once, or in the timer. */
  ghost predicate Stored(r: Registry) {
    && NoDup(r.free)
    && (forall c: ConnId :: c in r.conns <==> c < r.next)
    && (forall c: ConnId :: c in r.conns <==> c in r.free || Holds(r.timer, c))
    && (forall c: ConnId :: c in r.free ==> !Holds(r.timer, c))
  }

  /** The index by socket leads to structures that have that socket and are in the timer. */
  ghost predicate FdInv(r: Registry) {
    forall fd :: fd in r.byFd ==>
      r.byFd[fd] in r.conns && r.conns[r.byFd[fd]].sfd == fd && Holds(r.timer, r.byFd[fd])
  }

  ghost predicate Placed(r: Registry) {
    Inv(r.timer) && Stored(r) && FdInv(r) && IndexKnown(r)
  }

  /** Between passes the timer also knows how long every connection has been silent. */
  ghost predicate Timed(r: Registry) {
    Ages(r.timer, r.ages)
  }

  ghost function EmptyRegistry(): Registry {
    Registry(map[], [], 0, map[], [], InitialWheel(), map[])
  }

  lemma EmptyPlaced()
    ensures Placed(EmptyRegistry()) && Timed(EmptyRegistry())
    ensures forall c: ConnId :: !Holds(EmptyRegistry().timer, c)
  {
    InitialAges<ConnId>();
    assert forall i, c :: !In(EmptyRegistry().timer, i, c);
  }

  lemma AddHolds(w: Wheel<ConnId>, c: ConnId, x: ConnId)
    requires Inv(w) && !Holds(w, c)
    ensures Holds(Add(w, c), x) <==> Holds(w, x) || x == c
  {
    AddPlaces(w, c);
    if Holds(w, x) {
      var i :| In(w, i, x);
      assert In(Add(w, c), i, x);
    }
    assert In(Add(w, c), InsertIndex(w.current), c);
  }

  lemma AcceptPlaced(r: Registry, fd: int)
    requires Placed(r) && fd !in r.byFd
    ensures Sized(r.timer) && Placed(Accepted(r, fd)) && !Holds(r.timer, NewConn(r))
    ensures forall x: ConnId :: Holds(Accepted(r, fd).timer, x) <==> Holds(r.timer, x) || x == NewConn(r)
  {
    var c, q := NewConn(r), Accepted(r, fd);
    assert r.free != [] ==> r.free[0] in r.free;
    AddPlaces(r.timer, c);
    forall x: ConnId ensures Holds(q.timer, x) <==> Holds(r.timer, x) || x == c {
      AddHolds(r.timer, c, x);
    }
    if r.free != [] {
      TailMembers(r.free);
    }
    hide Inv, Add, Holds;
  }

  lemma LoginPlaced(r: Registry, c: ConnId, uin: nat)
    requires Placed(r) && c in r.conns
    ensures Placed(LoggedIn(r, c, uin))
  {
    hide Inv, Holds, NoDup;
    assert forall e :: e in LoggedIn(r, c, uin).byUin ==> e in r.byUin || e == UinEntry(uin, c);
  }

  lemma MarkPlaced(r: Registry, c: ConnId, kind: LoginType)
    requires Placed(r) && c in r.conns
    ensures Placed(Marked(r, c, kind))
  {
    hide Inv, Holds, NoDup;
  }

  lemma SameEntries(es: seq<UinEntry>, fs: seq<UinEntry>)
    requires multiset(es) == multiset(fs)
    ensures forall e :: e in es <==> e in fs
  {
    assert forall e :: e in es <==> e in multiset(es);
    assert forall e :: e in fs <==> e in multiset(fs);
  }

  lemma ReorderPlaced(r: Registry, entries: seq<UinEntry>)
    requires Placed(r) && multiset(entries) == multiset(r.byUin)
    ensures Placed(Reordered(r, entries))
  {
    hide Inv, Holds, NoDup;
    SameEntries(r.byUin, entries);
  }

  lemma UnlinkPlaces(w: Wheel<ConnId>, c: ConnId)
    requires Inv(w)
    ensures Inv(Unlink(w, c)) && forall i: int, x: ConnId :: In(Unlink(w, c), i, x) <==> In(w, i, x) && x != c
    ensures forall x: ConnId :: Holds(Unlink(w, c), x) <==> Holds(w, x) && x != c
  {
    UnlinkIsRemove(w, c);
    RemovePlaces(w, c);
    forall x: ConnId ensures Holds(Unlink(w, c), x) <==> Holds(w, x) && x != c {
      if Holds(w, x) && x != c {
        var i :| In(w, i, x);
        assert In(Unlink(w, c), i, x);
      }
      if Holds(Unlink(w, c), x) {
        var i :| In(Unlink(w, c), i, x);
        assert In(w, i, x);
      }
    }
  }

  /** Closing puts the connection's structure, which was in the timer, on the free list, and leaves no
      entry of the index by socket and no timer slot that leads to it. */
  lemma DropPlaced(r: Registry, c: ConnId)
    requires Placed(r) && Holds(r.timer, c)
    ensures c in r.conns && Placed(Dropped(r, c))
    ensures forall i: int, x: ConnId :: In(Dropped(r, c).timer, i, x) <==> In(r.timer, i, x) && x != c
    ensures forall x: ConnId :: Holds(Dropped(r, c).timer, x) <==> Holds(r.timer, x) && x != c
    ensures var q := Dropped(r, c); c !in q.byFd.Values && c in q.free
  {
    UnlinkPlaces(r.timer, c);
    var q := Dropped(r, c);
    hide Holds, Inv, DropUin, Unlink;
    assert q.free[0] == c;
    assert forall x :: x in q.free <==> x == c || x in r.free;
    forall e | e in q.byUin ensures e.conn in q.conns {
      assert e in r.byUin;
    }
    forall f | f in q.byFd ensures q.byFd[f] != c {
      assert q.byFd[f] == r.byFd[f] && r.conns[r.byFd[f]].sfd == f;
    }
  }

  lemma AcceptTimed(r: Registry, fd: int)
    requires Placed(r) && Timed(r) && fd !in r.byFd
    ensures Sized(r.timer) && Timed(Accepted(r, fd))
  {
    AcceptPlaced(r, fd);
    HeldIsAged(r.timer, r.ages, NewConn(r));
    ArriveRefines(r.timer, r.ages, NewConn(r));
  }

  lemma DropTimed(r: Registry, c: ConnId)
    requires Timed(r) && c in r.conns
    ensures Timed(Dropped(r, c))
  {
    UnlinkIsRemove(r.timer, c);
    LeaveRefines(r.timer, r.ages, c);
  }

  // ---------------------------------------------------------------- the expiry pass

  function Ticked(r: Registry, interval: nat): Registry {
    r.(timer := Tick(r.timer, interval))
  }

  /** timer_mark_alive. Unlinking a structure that has been released takes it off the allocator's free
      list, whose links it shares with the timer. */
  function Refreshed(r: Registry, c: ConnId): Registry
    requires Sized(r.timer)
  {
    r.(timer := Add(Unlink(r.timer, c), c), free := Erase(r.free, c))
  }

  ghost function RefreshedAll(r: Registry, alive: seq<ConnId>): (q: Registry)
    requires Sized(r.timer)
    ensures Sized(q.timer) && q == r.(timer := q.timer, free := q.free)
    decreases |alive|
  {
    if alive == [] then r else RefreshedAll(Refreshed(r, alive[0]), alive[1..])
  }

  ghost function DroppedAll(r: Registry, cs: seq<ConnId>): Registry
    requires AllInConns(r, cs)
    decreases |cs|
  {
    if cs == [] then r else DroppedAll(Dropped(r, cs[0]), cs[1..])
  }

  ghost predicate AllInConns(r: Registry, cs: seq<ConnId>) {
    forall i :: 0 <= i < |cs| ==> cs[i] in r.conns
  }

  ghost predicate AllHeld(r: Registry, cs: seq<ConnId>) {
    forall i :: 0 <= i < |cs| ==> Holds(r.timer, cs[i])
  }

  lemma TickPlaced(r: Registry, interval: nat)
    requires Placed(r)
    ensures Placed(Ticked(r, interval))
    ensures forall c: ConnId :: Holds(Ticked(r, interval).timer, c) <==> Holds(r.timer, c)
  {
    var w, v := r.timer, Tick(r.timer, interval);
    assert forall i, c :: In(v, i, c) <==> In(w, i, c);
    forall c: ConnId ensures Holds(v, c) <==> Holds(w, c) {
      if Holds(w, c) {
        var i :| In(w, i, c);
        assert In(v, i, c);
      }
      if Holds(v, c) {
        var i :| In(v, i, c);
        assert In(w, i, c);
      }
    }
    assert Inv(v);
    hide Holds, Inv;
  }

  lemma RefreshPlaced(r: Registry, c: ConnId)
    requires Placed(r) && c in r.conns
    ensures Placed(Refreshed(r, c)) && Refreshed(r, c).timer == MarkAlive(r.timer, c)
    ensures forall x: ConnId :: Holds(Refreshed(r, c).timer, x) <==> Holds(r.timer, x) || x == c
  {
    UnlinkIsRemove(r.timer, c);
    MarkPlaces(r.timer, c);
    EraseMembers(r.free, c);
    forall x: ConnId ensures Holds(Refreshed(r, c).timer, x) <==> Holds(r.timer, x) || x == c {
      MarkHolds(r.timer, c, x);
    }
    hide Holds, Inv, Unlink, Add;
  }

  /** Working off the keep-alives is what the timer's own account of the pass does. */
  lemma {:induction false} RefreshAllPlaced(r: Registry, alive: seq<ConnId>)
    requires Placed(r) && AllInConns(r, alive)
    ensures Sized(r.timer) && Placed(RefreshedAll(r, alive))
    ensures RefreshedAll(r, alive).timer == MarkAll(r.timer, alive)
    ensures forall x: ConnId :: Holds(RefreshedAll(r, alive).timer, x) <==> Holds(r.timer, x) || x in alive
    decreases |alive|
  {
    if alive != [] {
      RefreshPlaced(r, alive[0]);
      assert Refreshed(r, alive[0]).conns == r.conns;
      hide Placed, Holds, MarkAlive, Refreshed;
      RefreshAllPlaced(Refreshed(r, alive[0]), alive[1..]);
      assert forall x :: x in alive <==> x == alive[0] || x in alive[1..];
    }
  }

  lemma {:induction false} DropAllPlaced(r: Registry, cs: seq<ConnId>)
    requires Placed(r) && AllHeld(r, cs) && NoDup(cs)
    ensures AllInConns(r, cs) && Placed(DroppedAll(r, cs))
    ensures forall x: ConnId :: Holds(DroppedAll(r, cs).timer, x) <==> Holds(r.timer, x) && x !in cs
    ensures forall i: int, x: ConnId :: In(DroppedAll(r, cs).timer, i, x) <==> In(r.timer, i, x) && x !in cs
    ensures var q := DroppedAll(r, cs);
            q.timer.prev == r.timer.prev && q.timer.current == r.timer.current && q.conns == r.conns
    decreases |cs|
  {
    if cs != [] {
      DropPlaced(r, cs[0]);
      TailMembers(cs);
      var q := Dropped(r, cs[0]);
      assert q.conns == r.conns && q.timer.prev == r.timer.prev && q.timer.current == r.timer.current;
      hide Placed, Holds, In, NoDup, Dropped;
      forall i | 0 <= i < |cs[1..]| ensures Holds(q.timer, cs[1..][i]) {
        assert cs[1..][i] == cs[i + 1] && cs[1..][i] in cs[1..];
      }
      DropAllPlaced(q, cs[1..]);
      assert forall x :: x in cs <==> x == cs[0] || x in cs[1..];
    }
  }

  /** The connections that a pass times out, and the registry it leaves. */
  ghost function Expired(r: Registry, interval: nat, alive: seq<ConnId>): seq<ConnId>
    requires Sized(r.timer)
  {
    TimeoutList(RefreshedAll(Ticked(r, interval), alive).timer)
  }

  ghost function Expire(r: Registry, interval: nat, alive: seq<ConnId>): Registry
    requires Sized(r.timer) && AllInConns(r, Expired(r, interval, alive))
  {
    DroppedAll(RefreshedAll(Ticked(r, interval), alive), Expired(r, interval, alive))
      .(ages := AgesAfter(r.ages, interval, alive))
  }

  lemma {:induction false} RefreshedTimer(r: Registry, interval: nat, alive: seq<ConnId>)
    requires Placed(r) && AllInConns(r, alive)
    ensures Sized(r.timer)
    ensures var q := RefreshedAll(Ticked(r, interval), alive);
            && Placed(q) && q.timer == MarkAll(Tick(r.timer, interval), alive)
            && (forall x: ConnId :: Holds(q.timer, x) <==> Holds(r.timer, x) || x in alive)
            && Expired(r, interval, alive) == TimedOut(r.timer, interval, alive)
  {
    TickPlaced(r, interval);
    hide Placed, Holds, MarkAll;
    RefreshAllPlaced(Ticked(r, interval), alive);
  }

  lemma {:induction false} ExpiredAreHeld(r: Registry, interval: nat, alive: seq<ConnId>)
    requires Placed(r) && Timed(r) && AllInConns(r, alive) && 1 <= interval <= CLIENT_TIMEOUT
    ensures var cs := Expired(r, interval, alive);
            && NoDup(cs) && AllHeld(RefreshedAll(Ticked(r, interval), alive), cs) && AllInConns(r, cs)
            && (forall c :: c in cs <==>
                  (Holds(r.timer, c) || c in alive) && c !in AgesAfter(r.ages, interval, alive))
  {
    RefreshedTimer(r, interval, alive);
    PassTimesOut(r.timer, r.ages, interval, alive);
    var cs, q := Expired(r, interval, alive), RefreshedAll(Ticked(r, interval), alive);
    assert forall c: ConnId :: Holds(r.timer, c) ==> c in r.conns;
    hide TimedOut, Expired, Inv, MarkAll, AgesAfter, Placed, Timed, RefreshedAll, Holds;
    forall c ensures c in cs <==> (Holds(r.timer, c) || c in alive) && c !in AgesAfter(r.ages, interval, alive) {
      HeldIsAgedHere(r, c);
    }
    forall i | 0 <= i < |cs| ensures Holds(q.timer, cs[i]) && cs[i] in r.conns {
      assert cs[i] in cs;
    }
  }

  lemma HeldIsAgedHere(r: Registry, c: ConnId)
    requires Timed(r)
    ensures Holds(r.timer, c) <==> c in r.ages
    ensures c in r.ages ==> r.ages[c] < CLIENT_TIMEOUT
  {
    HeldIsAged(r.timer, r.ages, c);
  }

  /** Taking the expired connections out one by one leaves every slot as the pass does. */
  lemma {:induction false} ExpirePlaces(r: Registry, interval: nat, alive: seq<ConnId>, i: int, x: ConnId)
    requires Timed(r) && 1 <= interval <= CLIENT_TIMEOUT
    ensures var v := MarkAll(Tick(r.timer, interval), alive);
            In(Pass(r.timer, interval, alive), i, x) <==> In(v, i, x) && x !in TimedOut(r.timer, interval, alive)
  {
    var v := MarkAll(Tick(r.timer, interval), alive);
    InvAfterMarks(r.timer, r.ages, interval, alive);
    DrainedPlaces(v);
    SpanEnd(v.prev, v.current);
    if In(v, i, x) {
      GatheredFromSlot(v, Span(v.prev, v.current), i, x);
    }
  }

  lemma AgesBySlots(v: Wheel<ConnId>, w: Wheel<ConnId>, m: map<ConnId, nat>)
    requires Ages(w, m) && Inv(v) && v.current == w.current && forall i: int, x: ConnId :: In(v, i, x) <==> In(w, i, x)
    ensures Ages(v, m)
  {
  }

  lemma {:induction false} ExpirePlaced(r: Registry, interval: nat, alive: seq<ConnId>)
    requires Placed(r) && Timed(r) && AllInConns(r, alive) && 1 <= interval <= CLIENT_TIMEOUT
    ensures AllInConns(r, Expired(r, interval, alive)) && Sized(r.timer)
    ensures var e := Expire(r, interval, alive);
            && Placed(e) && e.timer.current == Pass(r.timer, interval, alive).current
            && forall i: int, x: ConnId :: In(e.timer, i, x) <==>
                 In(MarkAll(Tick(r.timer, interval), alive), i, x) && x !in TimedOut(r.timer, interval, alive)
  {
    ExpiredAreHeld(r, interval, alive);
    RefreshedTimer(r, interval, alive);
    var q, cs := RefreshedAll(Ticked(r, interval), alive), Expired(r, interval, alive);
    DropAllPlaced(q, cs);
    AgesApart(DroppedAll(q, cs), AgesAfter(r.ages, interval, alive));
    hide Expired, TimedOut, MarkAll, Inv, RefreshedAll, DroppedAll, Placed, Timed, Holds, In;
  }

  lemma AgesApart(r: Registry, m: map<ConnId, nat>)
    requires Placed(r)
    ensures Placed(r.(ages := m))
  {
    hide Inv, Holds;
  }

  /** One whole pass over the registry: it closes exactly the connections that AgesAfter drops, and
      leaves indexes, allocator and timer consistent, every remaining connection with its new age. */
  lemma ExpireTimes(r: Registry, interval: nat, alive: seq<ConnId>)
    requires Placed(r) && Timed(r) && AllInConns(r, alive) && 1 <= interval <= CLIENT_TIMEOUT
    ensures AllInConns(r, Expired(r, interval, alive)) && Sized(r.timer)
    ensures Placed(Expire(r, interval, alive)) && Timed(Expire(r, interval, alive))
    ensures forall c: ConnId :: Holds(Expire(r, interval, alive).timer, c) <==> c in AgesAfter(r.ages, interval, alive)
  {
    ExpirePlaced(r, interval, alive);
    PassRefines(r.timer, r.ages, interval, alive);
    var e, w := Expire(r, interval, alive), Pass(r.timer, interval, alive);
    assert e.ages == AgesAfter(r.ages, interval, alive) && Inv(e.timer);
    hide Expire, Expired, TimedOut, MarkAll, Inv, AgesAfter, Pass, Ages, Placed, Holds;
    forall i: int, x: ConnId ensures In(e.timer, i, x) <==> In(w, i, x) {
      ExpirePlaces(r, interval, alive, i, x);
    }
    AgesBySlots(e.timer, w, e.ages);
    forall c: ConnId ensures Holds(e.timer, c) <==> c in e.ages {
      HeldIsAgedHere(e, c);
    }
  }

  // ---------------------------------------------------------------- what leads to open connections only

  /** What is in the timer is open. */
  ghost predicate HeldIsLive(r: Registry) {
    forall c: ConnId :: Holds(r.timer, c) ==> Live(r, c)
  }

  /** Every index entry leads to an open connection. */
  ghost predicate EntriesLive(r: Registry) {
    forall e :: e in r.byUin ==> Live(r, e.conn)
  }

  ghost predicate TidyReg(r: Registry) {
    EntriesLive(r) && HeldIsLive(r)
  }

  ghost predicate AllLive(r: Registry, cs: seq<ConnId>) {
    forall i :: 0 <= i < |cs| ==> Live(r, cs[i])
  }

  lemma LiveIsHeld(r: Registry, c: ConnId)
    requires Placed(r) && Live(r, c)
    ensures c in r.conns && Holds(r.timer, c)
  {
  }

  /** Closing the connection leaves an index entry that leads to it: another user's, or one of several. */
  ghost predicate LeavesEntry(r: Registry, c: ConnId)
    requires c in r.conns
  {
    EntriesOf(r.byUin, c) != 0 && !(EntriesOf(r.byUin, c) == 1 && FindUin(r.byUin, r.conns[c].uin) == Found(c))
  }

  lemma AcceptLive(r: Registry, fd: int)
    requires Placed(r) && fd !in r.byFd
    ensures Sized(r.timer) && !Live(r, NewConn(r))
    ensures forall c :: Live(Accepted(r, fd), c) <==> Live(r, c) || c == NewConn(r)
  {
    AcceptPlaced(r, fd);
    hide Holds, Inv, Add;
    if Live(r, NewConn(r)) {
      LiveIsHeld(r, NewConn(r));
      assert false;
    }
  }

  lemma DropLive(r: Registry, c: ConnId)
    requires FdInv(r) && c in r.conns
    ensures forall x :: Live(Dropped(r, c), x) ==> Live(r, x) && x != c
    ensures Live(r, c) ==> forall x :: Live(r, x) && x != c ==> Live(Dropped(r, c), x)
  {
    hide Holds;
  }

  lemma AcceptTidy(r: Registry, fd: int)
    requires Placed(r) && TidyReg(r) && fd !in r.byFd
    ensures Sized(r.timer) && TidyReg(Accepted(r, fd))
  {
    AcceptPlaced(r, fd);
    AcceptLive(r, fd);
    hide Inv, Add, Holds, Placed, Live;
  }

  lemma LoginTidy(r: Registry, c: ConnId, uin: nat)
    requires TidyReg(r) && Live(r, c)
    ensures TidyReg(LoggedIn(r, c, uin)) && forall x :: Live(LoggedIn(r, c, uin), x) <==> Live(r, x)
  {
    var q := LoggedIn(r, c, uin);
    hide Holds;
    assert forall x :: Live(q, x) <==> Live(r, x);
    assert forall e :: e in q.byUin <==> e in r.byUin || e == UinEntry(uin, c);
  }

  lemma MarkTidy(r: Registry, c: ConnId, kind: LoginType)
    requires TidyReg(r) && c in r.conns
    ensures TidyReg(Marked(r, c, kind)) && forall x :: Live(Marked(r, c, kind), x) <==> Live(r, x)
  {
    hide Holds;
    assert forall x :: Live(Marked(r, c, kind), x) <==> Live(r, x);
  }

  /** Closing leaves everything leading to open connections exactly if it leaves no entry behind. */
  lemma DropTidy(r: Registry, c: ConnId)
    requires Placed(r) && TidyReg(r) && Live(r, c)
    ensures c in r.conns && forall x :: Live(Dropped(r, c), x) <==> Live(r, x) && x != c
    ensures TidyReg(Dropped(r, c)) <==> !LeavesEntry(r, c)
  {
    LiveIsHeld(r, c);
    DropLive(r, c);
    DropPlaced(r, c);
    CloseForgets(r.byUin, r.conns[c].uin, c);
    var q := Dropped(r, c);
    hide Holds, Inv, DropUin, Unlink, Placed, Live;
    if LeavesEntry(r, c) {
      var i :| 0 <= i < |q.byUin| && q.byUin[i].conn == c;
      assert q.byUin[i] in q.byUin && !Live(q, c);
    } else {
      forall e | e in q.byUin ensures Live(q, e.conn) {
        assert e in r.byUin;
        var i :| 0 <= i < |q.byUin| && q.byUin[i] == e;
        assert q.byUin[i].conn != c;
      }
    }
  }

  /** Closing open connections one by one closes no other. */
  lemma {:induction false} DropAllLive(r: Registry, cs: seq<ConnId>)
    requires Placed(r) && HeldIsLive(r) && AllLive(r, cs) && NoDup(cs) && AllInConns(r, cs)
    ensures forall x :: Live(DroppedAll(r, cs), x) <==> Live(r, x) && x !in cs
    decreases |cs|
  {
    if cs != [] {
      var q := Dropped(r, cs[0]);
      LiveIsHeld(r, cs[0]);
      DropLive(r, cs[0]);
      DropPlaced(r, cs[0]);
      TailMembers(cs);
      hide Placed, Live, NoDup, Dropped, Holds;
      forall i | 0 <= i < |cs[1..]| ensures Live(q, cs[1..][i]) {
        assert cs[1..][i] == cs[i + 1] && cs[1..][i] in cs[1..];
      }
      DropAllLive(q, cs[1..]);
      assert forall x :: x in cs <==> x == cs[0] || x in cs[1..];
    }
  }

  /** Only the timer and the order of the index entries change. */
  lemma SameIndexesTidy(r: Registry, q: Registry)
    requires TidyReg(r) && q.conns == r.conns && q.byFd == r.byFd && forall e :: e in q.byUin <==> e in r.byUin
    requires forall c: ConnId :: Holds(q.timer, c) ==> Live(r, c)
    ensures TidyReg(q) && forall c :: Live(q, c) <==> Live(r, c)
  {
    hide Holds;
    assert forall c :: Live(q, c) <==> Live(r, c);
  }

  // ---------------------------------------------------------------- what is kept if clients log in once

  ghost predicate UinInv(r: Registry) {
    && DistinctUins(r.byUin)
    && (forall e :: e in r.byUin ==> e.uin != 0 && Live(r, e.conn) && r.conns[e.conn].uin == e.uin)
    && (forall c :: Live(r, c) ==>
          if r.conns[c].kind == NotLogin then r.conns[c].uin == 0 else UinEntry(r.conns[c].uin, c) in r.byUin)
  }

  ghost predicate RegInv(r: Registry) {
    Placed(r) && UinInv(r) && HeldIsLive(r)
  }

  lemma EmptyRegInv()
    ensures RegInv(EmptyRegistry()) && Timed(EmptyRegistry())
  {
    EmptyPlaced();
  }

  /** A login by a connection that has not asked before, as a user who is not logged in elsewhere. */
  ghost predicate FirstLogin(r: Registry, c: ConnId, uin: nat) {
    Live(r, c) && r.conns[c].kind == NotLogin && uin != 0 && FindUin(r.byUin, uin).Missing?
  }

  /** Both indexes are one-to-one, and a lookup by user is inverse to the connection's own field. */
  lemma {:induction false} IndexesAgree(r: Registry, uin: nat)
    requires RegInv(r)
    ensures FindUin(r.byUin, uin).Found? ==>
              var c := FindUin(r.byUin, uin).conn;
              Live(r, c) && r.conns[c].uin == uin != 0 && r.conns[c].kind != NotLogin
    ensures forall c :: Live(r, c) && r.conns[c].kind != NotLogin ==> FindUin(r.byUin, r.conns[c].uin) == Found(c)
    ensures forall f, g :: f in r.byFd && g in r.byFd && r.byFd[f] == r.byFd[g] ==> f == g
  {
    hide Inv, Holds, NoDup;
    FindIsEntry(r.byUin, uin);
    forall c | Live(r, c) && r.conns[c].kind != NotLogin ensures FindUin(r.byUin, r.conns[c].uin) == Found(c) {
      FindsEntry(r.byUin, r.conns[c].uin, c);
    }
  }

  lemma AcceptKeeps(r: Registry, fd: int)
    requires RegInv(r) && fd !in r.byFd
    ensures Sized(r.timer) && RegInv(Accepted(r, fd))
  {
    AcceptPlaced(r, fd);
    AcceptLive(r, fd);
    hide Inv, Add, Holds, Placed;
  }

  lemma LoginKeeps(r: Registry, c: ConnId, uin: nat)
    requires RegInv(r) && FirstLogin(r, c, uin)
    ensures RegInv(LoggedIn(r, c, uin))
  {
    var q := LoggedIn(r, c, uin);
    LoginPlaced(r, c, uin);
    hide Inv, Holds, Placed;
    assert forall x :: Live(q, x) <==> Live(r, x);
    FindIsEntry(r.byUin, uin);
    assert forall e :: e in q.byUin <==> e in r.byUin || e == UinEntry(uin, c);
    forall e | e in r.byUin ensures e.conn != c {
    }
  }

  /** A login keeps the indexes in agreement exactly if it is the connection's first, as a user not zero
      who is not logged in elsewhere. */
  lemma LoginKeepsExactly(r: Registry, c: ConnId, uin: nat)
    requires RegInv(r) && Live(r, c)
    ensures RegInv(LoggedIn(r, c, uin)) <==> FirstLogin(r, c, uin)
  {
    if FirstLogin(r, c, uin) {
      LoginKeeps(r, c, uin);
    } else if RegInv(LoggedIn(r, c, uin)) {
      NoSecondLogin(r, c, uin);
    }
  }

  lemma NoSecondLogin(r: Registry, c: ConnId, uin: nat)
    requires UinInv(r) && Live(r, c) && UinInv(LoggedIn(r, c, uin))
    ensures FirstLogin(r, c, uin)
  {
    var q := LoggedIn(r, c, uin);
    assert q.byUin[0] == UinEntry(uin, c) && q.byUin[0] in q.byUin;
    assert q.byUin[1..] == r.byUin;
  }

  lemma MarkKeeps(r: Registry, c: ConnId, kind: LoginType)
    requires RegInv(r) && Live(r, c) && r.conns[c].kind != NotLogin && kind != NotLogin
    ensures RegInv(Marked(r, c, kind))
  {
    MarkPlaced(r, c, kind);
    hide Inv, Holds, Placed;
    assert forall x :: Live(Marked(r, c, kind), x) <==> Live(r, x);
  }

  /** Closing leaves no index entry and no timer slot that leads to the connection, and the connection's
      structure free. */
  lemma DropKeeps(r: Registry, c: ConnId)
    requires RegInv(r) && Live(r, c)
    ensures RegInv(Dropped(r, c)) && forall x :: Live(Dropped(r, c), x) <==> Live(r, x) && x != c
    ensures var q := Dropped(r, c);
            && c !in q.byFd.Values && !Reaches(q.byUin, c) && !Holds(q.timer, c) && c in q.free
  {
    LiveIsHeld(r, c);
    DropLive(r, c);
    DropPlaced(r, c);
    DropMembers(r.byUin, r.conns[c].uin);
    var q := Dropped(r, c);
    hide Holds, Inv, DropUin, Unlink, Placed;
    forall e | e in q.byUin ensures e.conn != c {
      assert e in r.byUin;
    }
  }

  lemma OnceIfDistinct(es: seq<UinEntry>, k: nat)
    requires DistinctUins(es) && k < |es|
    ensures multiset(es)[es[k]] == 1
  {
    assert es == es[..k] + [es[k]] + es[k + 1..];
    assert es[k] !in multiset(es[..k]) && es[k] !in multiset(es[k + 1..]);
  }

  lemma DistinctInAnyOrder(es: seq<UinEntry>, fs: seq<UinEntry>)
    requires DistinctUins(es) && multiset(es) == multiset(fs)
    ensures DistinctUins(fs)
  {
    SameEntries(es, fs);
    forall i, j | 0 <= i < j < |fs| ensures fs[i].uin != fs[j].uin {
      assert fs[i] in es && fs[j] in es;
      var k :| 0 <= k < |es| && es[k] == fs[i];
      var l :| 0 <= l < |es| && es[l] == fs[j];
      OnceIfDistinct(es, k);
      assert fs == fs[..j] + fs[j..] && fs[i] in fs[..j] && fs[j] in fs[j..];
      assert multiset(fs) == multiset(fs[..j]) + multiset(fs[j..]);
    }
  }

  lemma ReorderKeeps(r: Registry, entries: seq<UinEntry>)
    requires RegInv(r) && multiset(entries) == multiset(r.byUin)
    ensures RegInv(Reordered(r, entries))
  {
    var q := Reordered(r, entries);
    SameEntries(r.byUin, entries);
    DistinctInAnyOrder(r.byUin, entries);
    ReorderPlaced(r, entries);
    hide Inv, Holds, Placed, DistinctUins;
    assert forall x :: Live(q, x) <==> Live(r, x);
  }
}
