/** The status module: which users are online and at which connection server, kept in a fixed pool of
    cache entries with a free list and a table from user number to cache entry. */
module StatusPool {
  import opened Sequences

  const MAX_USER := 100000
  const MAX_ONLINE_USER := 1000

  datatype Pointer = Null | Cell(index: nat)

  datatype Address = Address(ip: nat, port: nat)

  datatype UserStatus = UserStatus(uin: nat, stat: nat)

  /** The fields of a status reply. */
  datatype Status = Status(stat: nat, address: Address)

  const NOWHERE := Address(0, 0)

  // ---------------------------------------------------------------- what the tables mean

  /** Every table entry points into the pool, and to an entry that is not free. */
  ghost predicate Used(users: seq<Pointer>, free: seq<nat>) {
    forall u :: 0 <= u < |users| && users[u] != Null ==> users[u].index < MAX_ONLINE_USER && users[u].index !in free
  }

  ghost predicate Injective(users: seq<Pointer>) {
    forall u, v :: 0 <= u < v < |users| && users[u] != Null ==> users[u] != users[v]
  }

  /** Every pool entry is free or in use. */
  ghost predicate Covered(users: seq<Pointer>, free: seq<nat>) {
    forall i :: 0 <= i < MAX_ONLINE_USER ==> i in free || Cell(i) in users
  }

  /** The free list and the table partition the pool. */
  ghost predicate Partition(users: seq<Pointer>, free: seq<nat>) {
    && NoDup(free)
    && (forall k :: 0 <= k < |free| ==> free[k] < MAX_ONLINE_USER)
    && Used(users, free)
    && Injective(users)
    && Covered(users, free)
  }

  /** The users that are online, and where. */
  ghost function OnlineMap(users: seq<Pointer>, cache: seq<Address>): (m: map<nat, Address>)
    requires forall u :: 0 <= u < |users| && users[u] != Null ==> users[u].index < |cache|
    ensures forall u :: u in m <==> 0 <= u < |users| && users[u] != Null
    ensures forall u :: u in m ==> m[u] == cache[users[u].index]
  {
    map u | 0 <= u < |users| && users[u] != Null :: cache[users[u].index]
  }

  /** A status change on the plain map: put if absent, remove if present. */
  function Changed(m: map<nat, Address>, uin: nat, address: Address, stat: nat): map<nat, Address> {
    if !Accepts(m, uin, stat) then m
    else if stat != 0 then m[uin := address] else m - {uin}
  }

  /** A change is refused for a user out of range, and when it would change nothing. */
  predicate Accepts(m: map<nat, Address>, uin: nat, stat: nat) {
    uin < MAX_USER && (stat != 0 <==> uin !in m)
  }

  /** What the status module answers about a user. */
  function StatusOf(m: map<nat, Address>, uin: nat): Status {
    if uin in m then Status(1, m[uin]) else Status(0, NOWHERE)
  }

  /** The packets the module understands, and its answers. */
  datatype Request =
    | StatusChange(uin: nat, address: Address, stat: nat)
    | GetStatus(uin: nat)
    | MultiStatus(uins: seq<nat>)
    | OtherRequest

  datatype Reply =
    | NoReply
    | StatusChanged(uin: nat)
    | StatusReply(uin: nat, status: Status)
    | MultiStatusReply(stats: seq<UserStatus>)

  /** What a function of the module returns; NullEntry where it writes to the cache entry that an empty
      free list does not have, BeyondTable where it looks up a number that is no index of the table. */
  datatype Outcome = Returned(r: int) | NullEntry | BeyondTable

  /** A user who is offline comes online, and the pool is used up. */
  predicate Exhausted(m: map<nat, Address>, uin: nat, stat: nat) {
    Accepts(m, uin, stat) && stat != 0 && |m| == MAX_ONLINE_USER
  }

  /** What a status change returns. */
  function ChangeOutcome(m: map<nat, Address>, uin: nat, stat: nat): Outcome {
    if Exhausted(m, uin, stat) then NullEntry else if Accepts(m, uin, stat) then Returned(0) else Returned(-1)
  }

  /** The users online after a status change, whatever it returns. */
  function OnlineThen(m: map<nat, Address>, uin: nat, address: Address, stat: nat): map<nat, Address> {
    if Exhausted(m, uin, stat) then m else Changed(m, uin, address, stat)
  }

  /** The numbers are indexes of the table, which the module does not look into. */
  ghost predicate Indexes(uins: seq<nat>) {
    forall k :: 0 <= k < |uins| ==> uins[k] <= MAX_USER
  }

  ghost function Answer(m: map<nat, Address>, request: Request): Reply {
    match request
    case StatusChange(uin, address, stat) =>
      if Accepts(m, uin, stat) && !Exhausted(m, uin, stat) then StatusChanged(uin) else NoReply
    case GetStatus(uin) => if uin < MAX_USER then StatusReply(uin, StatusOf(m, uin)) else NoReply
    case MultiStatus(uins) =>
      if !Indexes(uins) then NoReply
      else MultiStatusReply(seq(|uins|, k requires 0 <= k < |uins| => UserStatus(uins[k], StatusOf(m, uins[k]).stat)))
    case OtherRequest => NoReply
  }

  // ---------------------------------------------------------------- the pool is used up

  lemma {:induction false} SetOfSeq<T>(s: seq<T>)
    requires NoDup(s)
    ensures |set x | x in s| == |s|
  {
    if s == [] {
      assert (set x | x in s) == {};
    } else {
      SetOfSeq(s[1..]);
      assert (set x | x in s) == {s[0]} + (set x | x in s[1..]);
    }
  }

  lemma OtherCell(users: seq<Pointer>, u: nat, v: nat)
    requires Injective(users) && u < |users| && v < |users| && u != v && users[u] != Null && users[v] != Null
    ensures users[u].index != users[v].index
  {
    assert if u < v then users[u] != users[v] else users[v] != users[u];
  }

  ghost function Image(users: seq<Pointer>, online: set<nat>): (r: set<nat>)
    requires forall u :: u in online ==> u < |users| && users[u] != Null
  {
    set u | u in online :: users[u].index
  }

  lemma ImageStep(users: seq<Pointer>, online: set<nat>, u: nat)
    requires Injective(users) && u in online && forall v :: v in online ==> v < |users| && users[v] != Null
    ensures Image(users, online) == {users[u].index} + Image(users, online - {u})
    ensures users[u].index !in Image(users, online - {u})
  {
    forall v | v in online && v != u ensures users[v].index != users[u].index {
      OtherCell(users, u, v);
    }
  }

  /** An injective table uses as many pool entries as it has users. */
  lemma {:induction false} ImageSize(users: seq<Pointer>, online: set<nat>)
    requires Injective(users) && forall u :: u in online ==> u < |users| && users[u] != Null
    ensures |Image(users, online)| == |online|
  {
    if online == {} {
      assert Image(users, online) == {};
    } else {
      var u :| u in online;
      ImageStep(users, online, u);
      hide Image, Injective;
      ImageSize(users, online - {u});
    }
  }

  ghost function Below(n: nat): (r: set<nat>)
    ensures |r| == n && forall i :: i in r <==> 0 <= i < n
  {
    if n == 0 then {} else Below(n - 1) + {n - 1}
  }

  lemma Halves(a: set<nat>, b: set<nat>, n: nat)
    requires a !! b && forall i :: i in a || i in b <==> 0 <= i < n
    ensures |a| + |b| == n
  {
    assert a + b == Below(n);
  }

  /** Free entries and online users always add up to the size of the pool, so that the free list is
      empty exactly when MAX_ONLINE_USER users are online. */
  lemma PoolCount(users: seq<Pointer>, cache: seq<Address>, free: seq<nat>)
    requires Partition(users, free) && |cache| == MAX_ONLINE_USER
    ensures |free| + |OnlineMap(users, cache)| == MAX_ONLINE_USER
    ensures free == [] <==> |OnlineMap(users, cache)| == MAX_ONLINE_USER
  {
    var m := OnlineMap(users, cache);
    var image := Image(users, m.Keys);
    var unused := set i | i in free;
    SetOfSeq(free);
    ImageSize(users, m.Keys);
    forall i: nat | i < MAX_ONLINE_USER ensures i in unused || i in image {
      if i !in free {
        var u :| 0 <= u < |users| && users[u] == Cell(i);
        assert u in m.Keys && users[u].index == i;
      }
    }
    forall i | i in image ensures i < MAX_ONLINE_USER && i !in unused {
      var u :| u in m.Keys && users[u].index == i;
    }
    Halves(unused, image, |cache|);
    assert |m.Keys| == |m|;
  }

  // ---------------------------------------------------------------- single table changes

  /** Taking the first free entry for a user. */
  lemma TakeKeepsPartition(users: seq<Pointer>, free: seq<nat>, uin: nat)
    requires Partition(users, free) && uin < |users| && users[uin] == Null && free != []
    ensures Partition(users[uin := Cell(free[0])], free[1..])
  {
    var r, f := users[uin := Cell(free[0])], free[1..];
    forall u | 0 <= u < |r| && r[u] != Null ensures r[u].index < MAX_ONLINE_USER && r[u].index !in f {
    }
    forall i | 0 <= i < MAX_ONLINE_USER ensures i in f || Cell(i) in r {
      if i == free[0] {
        assert r[uin] == Cell(i);
      } else if i in free {
        assert free == [free[0]] + f;
      } else {
        var u :| 0 <= u < |users| && users[u] == Cell(i);
        assert r[u] == Cell(i);
      }
    }
  }

  /** Returning a user's entry to the end of the free list. */
  lemma ReturnKeepsPartition(users: seq<Pointer>, free: seq<nat>, uin: nat)
    requires Partition(users, free) && uin < |users| && users[uin] != Null
    ensures Partition(users[uin := Null], free + [users[uin].index])
  {
    var r, k := users[uin := Null], users[uin].index;
    var f := free + [k];
    forall u | 0 <= u < |r| && r[u] != Null ensures r[u].index !in f {
      OtherCell(users, u, uin);
    }
    forall i | 0 <= i < MAX_ONLINE_USER ensures i in f || Cell(i) in r {
      if i == k {
        assert f[|free|] == i;
      } else if i in free {
        var j :| 0 <= j < |free| && free[j] == i;
        assert f[j] == i;
      } else {
        var u :| 0 <= u < |users| && users[u] == Cell(i);
        assert r[u] == Cell(i);
      }
    }
  }

  // ---------------------------------------------------------------- the module

  class StatusServer {
    /** The table from user number to cache entry, and the pool itself. Both live in a mapped file and
        outlive the process. */
    const users: array<Pointer>
    const cache: array<Address>
    var free: seq<nat>

    ghost predicate Sized()
      reads this
    {
      users.Length == MAX_USER + 1 && cache.Length == MAX_ONLINE_USER
    }

    ghost predicate Valid()
      reads this, users, cache
    {
      Sized() && Partition(users[..], free)
    }

    ghost function Online(): map<nat, Address>
      requires Valid()
      reads this, users, cache
    {
      OnlineMap(users[..], cache[..])
    }

    /** Maps the file. A new file has unspecified contents until status_list_init clears it. */
    constructor (users: array<Pointer>, cache: array<Address>)
      requires users.Length == MAX_USER + 1 && cache.Length == MAX_ONLINE_USER
      ensures this.users == users && this.cache == cache && Sized()
    {
      this.users, this.cache, this.free := users, cache, [];
    }

    /** Puts every cache entry on the free list, after clearing the tables if the file is new. An old
        file is used as it is: the partition then holds exactly if nobody was online in it. */
    method StatusListInit(init: bool)
      requires Sized()
      modifies this, users, cache
      ensures Sized()
      ensures init ==> Valid() && Online() == map[]
      ensures !init ==> users[..] == old(users[..]) && cache[..] == old(cache[..])
      ensures Valid() <==> forall u :: 0 <= u < users.Length ==> users[u] == Null
      ensures |free| == MAX_ONLINE_USER && forall k :: 0 <= k < MAX_ONLINE_USER ==> free[k] == MAX_ONLINE_USER - 1 - k
    {
      if init {
        for u := 0 to users.Length
          invariant forall v :: 0 <= v < u ==> users[v] == Null
        {
          users[u] := Null;
        }
        for i := 0 to cache.Length
          invariant forall u :: 0 <= u < users.Length ==> users[u] == Null
        {
          cache[i] := NOWHERE;
        }
      }
      free := [];
      for i := 0 to MAX_ONLINE_USER
        invariant |free| == i && forall k :: 0 <= k < i ==> free[k] == i - 1 - k
        invariant init ==> forall u :: 0 <= u < users.Length ==> users[u] == Null
        invariant !init ==> users[..] == old(users[..]) && cache[..] == old(cache[..])
      {
        free := [i] + free;
      }
      FullListPartition(users[..], free);
      assert forall u :: 0 <= u < users.Length ==> users[..][u] == users[u];
    }

    /** Takes a cache item from the free list, if there is one. */
    method StatusListGet() returns (info: Pointer)
      modifies this`free
      ensures old(free) == [] ==> info == Null && free == []
      ensures old(free) != [] ==> info == Cell(old(free)[0]) && free == old(free)[1..]
    {
      if free == [] {
        info := Null;
      } else {
        info := Cell(free[0]);
        free := free[1..];
      }
    }

    /** Recycles a cache item. */
    method StatusListPut(index: nat)
      modifies this`free
      ensures free == old(free) + [index]
    {
      free := free + [index];
    }

    /** Going online uses the pool's next entry without looking whether there is one: with the pool used
        up the function writes through a null pointer, and leaves the tables as they were. */
    method SetStatus(uin: nat, address: Address, stat: nat) returns (out: Outcome)
      requires Valid()
      modifies this`free, users, cache
      ensures Valid()
      ensures out == if uin >= MAX_USER || (stat != 0 <==> uin in old(Online())) then Returned(-1)
                     else if stat != 0 && |old(Online())| == MAX_ONLINE_USER then NullEntry
                     else Returned(0)
      ensures Online() == OnlineThen(old(Online()), uin, address, stat)
      ensures out == Returned(0) ==>
                && (stat != 0 ==> uin in Online() && Online()[uin] == address && |old(Online())| < MAX_ONLINE_USER)
                && (stat == 0 ==> uin !in Online())
      ensures forall u :: u != uin || out != Returned(0) ==>
                (u in Online() <==> u in old(Online())) && (u in Online() ==> Online()[u] == old(Online())[u])
      ensures out != Returned(0) ==>
                users[..] == old(users[..]) && cache[..] == old(cache[..]) && free == old(free)
    {
      hide OnlineMap, Used, Injective, Covered, NoDup;
      PoolCount(users[..], cache[..], free);
      if uin >= MAX_USER {
        return Returned(-1);
      }
      if stat != 0 {
        if users[uin] != Null {
          return Returned(-1);
        }
        out := GoOnline(uin, address);
      } else {
        if users[uin] == Null {
          return Returned(-1);
        }
        GoOffline(uin);
        out := Returned(0);
      }
    }

    /** Makes status changes one after the other, up to the first that reaches the null entry. */
    method ChangeAll(run: seq<Change>) returns (n: nat)
      requires Valid()
      modifies this`free, users, cache
      ensures Valid() && n <= |run| && Online() == OnlineAfter(old(Online()), run[..n])
      ensures n == |run| <==> WithinPool(old(Online()), run)
    {
      hide OnlineMap, Partition, Changed;
      n := 0;
      ghost var m := Online();
      assert run[0..] == run;
      while n < |run|
        invariant Valid() && n <= |run| && Online() == OnlineAfter(m, run[..n])
        invariant WithinPool(m, run) <==> WithinPool(Online(), run[n..])
      {
        var c := run[n];
        ChangeStep(m, run, n, Online());
        var out := SetStatus(c.uin, c.address, c.stat);
        if out == NullEntry {
          return;
        }
        n := n + 1;
      }
      assert run[..|run|] == run;
    }

    /** The online branch of a status change. */
    method GoOnline(uin: nat, address: Address) returns (out: Outcome)
      requires Valid() && uin < MAX_USER && users[uin] == Null
      modifies this`free, users, cache
      ensures Valid()
      ensures out == if |old(Online())| == MAX_ONLINE_USER then NullEntry else Returned(0)
      ensures Online() == if out == NullEntry then old(Online()) else old(Online())[uin := address]
      ensures out == NullEntry ==>
                users[..] == old(users[..]) && cache[..] == old(cache[..]) && free == old(free)
    {
      PoolCount(users[..], cache[..], free);
      if free != [] {
        TakeKeepsPartition(users[..], free, uin);
        TakeOnline(users[..], cache[..], free, uin, address);
        assert free[0] < MAX_ONLINE_USER;
      }
      hide Partition, OnlineMap;
      var info := StatusListGet();
      users[uin] := info;
      assert users[..] == old(users[..])[uin := info];
      if info == Null {
        assert users[..] == old(users[..]);
        return NullEntry;
      }
      cache[info.index] := address;
      assert cache[..] == old(cache[..])[info.index := address];
      out := Returned(0);
    }

    /** The offline branch of a status change. */
    method GoOffline(uin: nat)
      requires Valid() && uin < MAX_USER && users[uin] != Null
      modifies this`free, users, cache
      ensures Valid() && Online() == old(Online()) - {uin}
    {
      ReturnKeepsPartition(users[..], free, uin);
      ReturnOnline(users[..], cache[..], free, uin);
      assert users[uin].index < MAX_ONLINE_USER;
      hide Partition, OnlineMap;
      var info := users[uin];
      users[uin] := Null;
      cache[info.index] := NOWHERE;
      StatusListPut(info.index);
      assert users[..] == old(users[..])[uin := Null];
      assert cache[..] == old(cache[..])[info.index := NOWHERE];
    }

    /** Looks a user up; for a number out of range the reply's fields keep what they held. */
    method GetStatus(uin: nat, stale: Status) returns (r: int, reply: Status)
      requires Valid()
      ensures uin >= MAX_USER ==> r == -1 && reply == stale
      ensures uin < MAX_USER ==>
                r == 0 && reply == if uin in Online() then Status(1, Online()[uin]) else Status(0, NOWHERE)
    {
      if uin >= MAX_USER {
        return -1, stale;
      }
      if users[uin] != Null {
        reply := Status(1, cache[users[uin].index]);
      } else {
        reply := Status(0, NOWHERE);
      }
      r := 0;
    }

    /** Looks up the first num users of a list, the last one first, until a number is no index of the
        table. */
    method GetMultiStatus(uins: seq<nat>, num: nat, multiStat: array<UserStatus>) returns (out: Outcome)
      requires Valid() && num <= |uins| && num <= multiStat.Length
      modifies multiStat
      ensures out == if Indexes(uins[..num]) then Returned(0) else BeyondTable
      ensures forall k :: 0 <= k < num && Indexes(uins[k..num]) ==>
                multiStat[k] == UserStatus(uins[k], if uins[k] in Online() then 1 else 0)
      ensures multiStat[num..] == old(multiStat[num..])
    {
      var left: nat := num;
      while left > 0
        invariant left <= num && forall k :: left <= k < num ==> uins[k] <= MAX_USER
        invariant forall k :: left <= k < num ==>
                    multiStat[k] == UserStatus(uins[k], if uins[k] in Online() then 1 else 0)
        invariant multiStat[num..] == old(multiStat[num..])
      {
        var uin := uins[left - 1];
        if uin > MAX_USER {
          assert uins[..num][left - 1] == uin;
          forall k | 0 <= k < left ensures !Indexes(uins[k..num]) {
            assert uins[k..num][left - 1 - k] == uin;
          }
          return BeyondTable;
        }
        multiStat[left - 1] := UserStatus(uin, if users[uin] != Null then 1 else 0);
        left := left - 1;
      }
      out := Returned(0);
    }

    /** Processes one packet and answers it on the connection it came from. */
    method StatusPacket(request: Request) returns (out: Outcome, reply: Reply)
      requires Valid()
      modifies this`free, users, cache
      ensures Valid()
      ensures reply == Answer(old(Online()), request)
      ensures request.StatusChange? ==> reply == if out == Returned(0) then StatusChanged(request.uin) else NoReply
      ensures request.GetStatus? ==>
                var u, m := request.uin, old(Online());
                reply == if u >= MAX_USER then NoReply
                         else StatusReply(u, if u in m then Status(1, m[u]) else Status(0, NOWHERE))
      ensures request.MultiStatus? ==>
                && (reply != NoReply <==> forall k :: 0 <= k < |request.uins| ==> request.uins[k] <= MAX_USER)
                && (reply != NoReply ==>
                      && reply.MultiStatusReply? && |reply.stats| == |request.uins|
                      && forall k :: 0 <= k < |reply.stats| ==>
                           reply.stats[k] ==
                           UserStatus(request.uins[k], if request.uins[k] in old(Online()) then 1 else 0))
      ensures out == if reply != NoReply then Returned(0)
                     else if request.StatusChange? then ChangeOutcome(old(Online()), request.uin, request.stat)
                     else if request.MultiStatus? then BeyondTable
                     else Returned(-1)
      ensures Online() == if request.StatusChange?
                          then OnlineThen(old(Online()), request.uin, request.address, request.stat)
                          else old(Online())
    {
      out, reply := Returned(-1), NoReply;
      match request
      case StatusChange(uin, address, stat) =>
        out := SetStatus(uin, address, stat);
        if out == Returned(0) {
          reply := StatusChanged(uin);
        }
      case GetStatus(uin) =>
        var r, status := GetStatus(uin, Status(0, NOWHERE));
        if r == 0 {
          out, reply := Returned(0), StatusReply(uin, status);
        }
      case MultiStatus(uins) =>
        var stats := new UserStatus[|uins|];
        out := GetMultiStatus(uins, |uins|, stats);
        assert uins[..|uins|] == uins;
        if out == Returned(0) {
          AllIndexes(uins);
          reply := MultiStatusReply(stats[..]);
        }
      case OtherRequest =>
    }
  }

  lemma AllIndexes(uins: seq<nat>)
    requires Indexes(uins)
    ensures forall k :: 0 <= k < |uins| ==> Indexes(uins[k..|uins|])
  {
  }

  lemma FullListPartition(users: seq<Pointer>, free: seq<nat>)
    requires |free| == MAX_ONLINE_USER && forall k :: 0 <= k < MAX_ONLINE_USER ==> free[k] == MAX_ONLINE_USER - 1 - k
    ensures Partition(users, free) <==> forall u :: 0 <= u < |users| ==> users[u] == Null
  {
    forall i | 0 <= i < MAX_ONLINE_USER ensures i in free {
      assert free[MAX_ONLINE_USER - 1 - i] == i;
    }
  }

  lemma TakeOnline(users: seq<Pointer>, cache: seq<Address>, free: seq<nat>, uin: nat, address: Address)
    requires Partition(users, free) && |cache| == MAX_ONLINE_USER
    requires uin < |users| && users[uin] == Null && free != []
    requires Partition(users[uin := Cell(free[0])], free[1..])
    ensures OnlineMap(users[uin := Cell(free[0])], cache[free[0] := address]) == OnlineMap(users, cache)[uin := address]
  {
    forall u | 0 <= u < |users| && users[u] != Null ensures users[u].index != free[0] {
      assert free[0] in free;
    }
  }

  lemma ReturnOnline(users: seq<Pointer>, cache: seq<Address>, free: seq<nat>, uin: nat)
    requires Partition(users, free) && |cache| == MAX_ONLINE_USER && uin < |users| && users[uin] != Null
    ensures OnlineMap(users[uin := Null], cache[users[uin].index := NOWHERE]) == OnlineMap(users, cache) - {uin}
  {
    var k := users[uin].index;
    forall u | 0 <= u < |users| && u != uin && users[u] != Null ensures users[u].index != k {
      OtherCell(users, u, uin);
    }
  }

  // ---------------------------------------------------------------- runs

  datatype Change = Change(uin: nat, address: Address, stat: nat)

  ghost function OnlineAfter(m: map<nat, Address>, run: seq<Change>): map<nat, Address>
    decreases |run|
  {
    if run == [] then m
    else OnlineAfter(Changed(m, run[0].uin, run[0].address, run[0].stat), run[1..])
  }

  /** No change of the run finds the pool used up. */
  ghost predicate WithinPool(m: map<nat, Address>, run: seq<Change>)
    decreases |run|
  {
    run == [] ||
    (!Exhausted(m, run[0].uin, run[0].stat)
     && WithinPool(Changed(m, run[0].uin, run[0].address, run[0].stat), run[1..]))
  }

  lemma {:induction false} AfterOneMore(m: map<nat, Address>, run: seq<Change>, c: Change)
    ensures OnlineAfter(m, run + [c]) == Changed(OnlineAfter(m, run), c.uin, c.address, c.stat)
    decreases |run|
  {
    if run == [] {
      assert (run + [c])[1..] == [];
    } else {
      assert (run + [c])[1..] == run[1..] + [c];
      AfterOneMore(Changed(m, run[0].uin, run[0].address, run[0].stat), run[1..], c);
    }
  }

  lemma {:induction false} ChangeStep(m: map<nat, Address>, run: seq<Change>, n: nat, q: map<nat, Address>)
    requires n < |run| && q == OnlineAfter(m, run[..n])
    ensures var c := run[n];
            && OnlineAfter(m, run[..n + 1]) == Changed(q, c.uin, c.address, c.stat)
            && (WithinPool(q, run[n..]) <==>
                  !Exhausted(q, c.uin, c.stat)
                  && WithinPool(Changed(q, c.uin, c.address, c.stat), run[n + 1..]))
  {
    assert run[..n + 1] == run[..n] + [run[n]] && run[n..][1..] == run[n + 1..];
    AfterOneMore(m, run[..n], run[n]);
  }

  /** Change number k is the user's first since change number b - 1 took the user offline, or since the
      beginning, and the user has not gone offline since. */
  ghost predicate FirstOnlineSince(run: seq<Change>, uin: nat, b: nat, k: nat) {
    && b <= k < |run|
    && (b > 0 ==> run[b - 1].uin == uin && run[b - 1].stat == 0)
    && run[k].uin == uin
    && (forall j :: b <= j < |run| && run[j].uin == uin ==> run[j].stat != 0 && j >= k)
  }

  /** While the pool lasts, a user is online after a run from nobody online exactly if there is such a
      change, and then at that change's address. */
  lemma {:induction false} FirstAnnouncementCounts(run: seq<Change>, uin: nat)
    requires uin < MAX_USER
    ensures uin in OnlineAfter(map[], run) <==> exists b: nat, k: nat :: FirstOnlineSince(run, uin, b, k)
    ensures forall b: nat, k: nat :: FirstOnlineSince(run, uin, b, k) ==>
              uin in OnlineAfter(map[], run) && OnlineAfter(map[], run)[uin] == run[k].address
    decreases |run|
  {
    if run != [] {
      var l := |run| - 1;
      var was, c := run[..l], run[l];
      assert run == was + [c];
      FirstAnnouncementCounts(was, uin);
      AfterOneMore(map[], was, c);
      forall b: nat, k: nat | FirstOnlineSince(run, uin, b, k)
        ensures uin in OnlineAfter(map[], run) && OnlineAfter(map[], run)[uin] == run[k].address
      {
        EarlierAnnouncement(was, c, uin, b, k);
      }
      if uin in OnlineAfter(map[], run) {
        LaterAnnouncement(was, c, uin);
      }
    }
  }

  lemma EarlierAnnouncement(was: seq<Change>, c: Change, uin: nat, b: nat, k: nat)
    requires FirstOnlineSince(was + [c], uin, b, k)
    ensures c.uin == uin ==> c.stat != 0
    ensures k < |was| ==> FirstOnlineSince(was, uin, b, k)
    ensures k == |was| ==> c.uin == uin && forall d: nat, l: nat :: !FirstOnlineSince(was, uin, d, l)
  {
    var run := was + [c];
    assert forall j :: 0 <= j < |was| ==> run[j] == was[j];
    assert run[|was|] == c;
    if k == |was| {
      forall d: nat, l: nat ensures !FirstOnlineSince(was, uin, d, l) {
      }
    }
  }

  lemma {:induction false} LaterAnnouncement(was: seq<Change>, c: Change, uin: nat)
    requires uin < MAX_USER && uin in OnlineAfter(map[], was + [c])
    requires OnlineAfter(map[], was + [c]) == Changed(OnlineAfter(map[], was), c.uin, c.address, c.stat)
    requires uin in OnlineAfter(map[], was) <==> exists b: nat, k: nat :: FirstOnlineSince(was, uin, b, k)
    ensures exists b: nat, k: nat :: FirstOnlineSince(was + [c], uin, b, k)
  {
    var run := was + [c];
    if uin in OnlineAfter(map[], was) {
      var b: nat, k: nat :| FirstOnlineSince(was, uin, b, k);
      assert FirstOnlineSince(run, uin, b, k);
    } else {
      var b := LastOffline(was, uin);
      assert forall j :: 0 <= j < |was| ==> run[j] == was[j];
      if k :| b <= k < |was| && was[k].uin == uin {
        var f := FirstOwn(was, uin, b, k);
        assert FirstOnlineSince(was, uin, b, f);
        assert false;
      }
      assert FirstOnlineSince(run, uin, b, |was|);
    }
  }

  /** The position behind the user's last offline change, or the beginning. */
  lemma {:induction false} LastOffline(run: seq<Change>, uin: nat) returns (b: nat)
    ensures b <= |run| && (b > 0 ==> run[b - 1].uin == uin && run[b - 1].stat == 0)
    ensures forall j :: b <= j < |run| && run[j].uin == uin ==> run[j].stat != 0
  {
    b := |run|;
    while b > 0 && !(run[b - 1].uin == uin && run[b - 1].stat == 0)
      invariant b <= |run| && forall j :: b <= j < |run| && run[j].uin == uin ==> run[j].stat != 0
    {
      b := b - 1;
    }
  }

  lemma {:induction false} FirstOwn(run: seq<Change>, uin: nat, b: nat, k: nat) returns (f: nat)
    requires b <= k < |run| && run[k].uin == uin
    ensures b <= f < |run| && run[f].uin == uin && forall j :: b <= j < f ==> run[j].uin != uin
  {
    f := b;
    while run[f].uin != uin
      invariant b <= f <= k && forall j :: b <= j < f ==> run[j].uin != uin
      decreases k - f
    {
      f := f + 1;
    }
  }

  ghost function Own(run: seq<Change>, uin: nat): seq<Change> {
    if run == [] then []
    else if run[0].uin == uin then [run[0]] + Own(run[1..], uin)
    else Own(run[1..], uin)
  }

  /** Sharing one pool, users do not disturb each other: what the module answers about a user depends
      on that user's own changes only. */
  lemma {:induction false} UsersAreIndependent(m: map<nat, Address>, n: map<nat, Address>, run: seq<Change>, uin: nat)
    requires StatusOf(m, uin) == StatusOf(n, uin)
    ensures StatusOf(OnlineAfter(m, run), uin) == StatusOf(OnlineAfter(n, Own(run, uin)), uin)
    decreases |run|
  {
    if run != [] {
      var c := run[0];
      var m1 := Changed(m, c.uin, c.address, c.stat);
      if c.uin == uin {
        UsersAreIndependent(m1, Changed(n, c.uin, c.address, c.stat), run[1..], uin);
        assert Own(run, uin)[1..] == Own(run[1..], uin);
      } else {
        UsersAreIndependent(m1, n, run[1..], uin);
      }
    }
  }

  /** The first server to announce a user keeps it until the user goes offline: later announcements by
      other servers are refused. */
  lemma {:induction false} FirstAnnouncementWins(m: map<nat, Address>, run: seq<Change>, uin: nat)
    requires uin in m && forall k :: 0 <= k < |run| && run[k].uin == uin ==> run[k].stat != 0
    ensures uin in OnlineAfter(m, run) && OnlineAfter(m, run)[uin] == m[uin]
    decreases |run|
  {
    if run != [] {
      var c := run[0];
      FirstAnnouncementWins(Changed(m, c.uin, c.address, c.stat), run[1..], uin);
    }
  }
}
