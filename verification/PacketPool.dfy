/** The connection server's packet blocks: the allocator that hands them out, and the lists they move
    between. Blocks and connections are addresses; a block keeps its contents when it is released. */
module PacketPool {
  import opened Sequences
  import opened TimerSpec

  type Block = nat
  type ConnId = nat

  datatype Params = Bytes(data: seq<nat>) | StatusChange(uin: nat, stat: nat) | ConnInfo(ip: nat, port: nat)
  datatype Packet = Packet(length: nat, command: nat, uin: nat, params: Params)

  datatype Side = User | Contact | Status | Message
  datatype Ref = Backend(side: Side) | Client(id: ConnId)

  /** The list heads a packet block can be on. */
  datatype Head = Free | KeepAlive | Recv(who: Ref) | Send(who: Ref)

  /** The contents of all blocks, the lists, and the first address never handed out. */
  datatype Pool = Pool(mem: map<Block, Packet>, lists: map<Head, seq<Block>>, next: Block)

  function List(p: Pool, h: Head): seq<Block> {
    if h in p.lists then p.lists[h] else []
  }

  ghost predicate On(p: Pool, h: Head, b: Block) {
    b in List(p, h)
  }

  /** What is on a list is a block. */
  ghost predicate Backed(p: Pool) {
    forall h: Head, b: Block :: On(p, h, b) ==> b in p.mem
  }

  function Push(p: Pool, h: Head, b: Block): (r: Pool)
    ensures forall k: Head, x: Block :: On(r, k, x) <==> On(p, k, x) || (k == h && x == b)
  {
    p.(lists := p.lists[h := List(p, h) + [b]])
  }

  function Pop(p: Pool, h: Head): (r: Pool)
    requires List(p, h) != []
    ensures forall k: Head, x: Block :: On(r, k, x) ==> On(p, k, x)
  {
    p.(lists := p.lists[h := List(p, h)[1..]])
  }

  /** allocator_free: the block goes to the front of the free list, with its contents. */
  function Release(p: Pool, b: Block): (r: Pool)
    ensures forall k: Head, x: Block :: On(r, k, x) <==> On(p, k, x) || (k == Free && x == b)
  {
    p.(lists := p.lists[Free := [b] + List(p, Free)])
  }

  /** allocator_malloc: the first free block, or a new one. */
  function NewBlock(p: Pool): Block {
    if List(p, Free) != [] then List(p, Free)[0] else p.next
  }

  function Taken(p: Pool): Pool {
    if List(p, Free) != [] then Pop(p, Free) else p.(next := p.next + 1)
  }

  /** A new block with given contents, put at the end of a list. */
  function Enqueue(p: Pool, h: Head, packet: Packet): (r: Pool)
    ensures Backed(p) ==> Backed(r)
  {
    var b := NewBlock(p);
    var q := Taken(p).(mem := p.mem[b := packet]);
    assert forall k: Head, x: Block :: On(q, k, x) ==> On(p, k, x);
    Push(q, h, b)
  }

  function EnqueueAll(p: Pool, h: Head, packets: seq<Packet>): (r: Pool)
    ensures Backed(p) ==> Backed(r)
    decreases |packets|
  {
    if packets == [] then p else EnqueueAll(Enqueue(p, h, packets[0]), h, packets[1..])
  }

  /** Releases all blocks of a list, from the front. */
  function ReleaseAll(p: Pool, h: Head): (r: Pool)
    requires h != Free
    ensures Backed(p) ==> Backed(r)
    ensures List(r, h) == [] && forall k: Head :: k != h && k != Free ==> List(r, k) == List(p, k)
    ensures r.mem == p.mem && r.next == p.next
    decreases |List(p, h)|
  {
    if List(p, h) == [] then p
    else
      assert On(p, h, List(p, h)[0]);
      ReleaseAll(Release(Pop(p, h), List(p, h)[0]), h)
  }

  function Emptied(p: Pool, h: Head): Pool {
    p.(lists := p.lists[h := []])
  }

  // ---------------------------------------------------------------- ownership

  /** No block is on two lists, or twice on one; all come from the allocator, which knows their contents. */
  ghost predicate Owned(p: Pool) {
    && (forall h: Head :: NoDup(List(p, h)))
    && (forall h: Head, k: Head, b: Block :: On(p, h, b) && On(p, k, b) ==> h == k)
    && (forall h: Head, b: Block :: On(p, h, b) ==> b < p.next)
    && (forall b: Block :: b < p.next ==> b in p.mem)
  }

  /** A block in nobody's list: in the hands of a handler, or lost. */
  ghost predicate Loose(p: Pool, b: Block) {
    b < p.next && b in p.mem && forall h :: !On(p, h, b)
  }

  lemma PushOwned(p: Pool, h: Head, b: Block)
    requires Owned(p) && Loose(p, b)
    ensures Owned(Push(p, h, b))
    ensures forall x: Block :: Loose(Push(p, h, b), x) <==> Loose(p, x) && x != b
  {
    var r := Push(p, h, b);
    assert !On(p, h, b) && On(r, h, b);
    forall k ensures NoDup(List(r, k)) {
      assert NoDup(List(p, k));
    }
  }

  lemma TailMembers(s: seq<Block>)
    requires NoDup(s) && s != []
    ensures NoDup(s[1..]) && forall x: Block :: x in s[1..] <==> x in s && x != s[0]
  {
    assert s == [s[0]] + s[1..];
    forall i | 0 <= i < |s[1..]| ensures s[1..][i] != s[0] {
      assert s[i + 1] != s[0];
    }
  }

  lemma PopOwned(p: Pool, h: Head)
    requires Owned(p) && List(p, h) != []
    ensures Owned(Pop(p, h)) && Loose(Pop(p, h), List(p, h)[0])
    ensures forall k: Head, x: Block :: On(Pop(p, h), k, x) <==> On(p, k, x) && x != List(p, h)[0]
    ensures forall x: Block :: Loose(Pop(p, h), x) <==> Loose(p, x) || x == List(p, h)[0]
  {
    var r, s := Pop(p, h), List(p, h);
    assert On(p, h, s[0]) && NoDup(s);
    TailMembers(s);
    forall k: Head, x: Block ensures On(r, k, x) <==> On(p, k, x) && x != s[0] {
      if k == h {
        assert List(r, k) == s[1..];
      } else {
        assert List(r, k) == List(p, k);
        assert On(p, k, x) && On(p, h, s[0]) ==> x != s[0];
      }
    }
    forall k ensures NoDup(List(r, k)) {
      assert NoDup(List(p, k));
    }
  }

  lemma ReleaseOwned(p: Pool, b: Block)
    requires Owned(p) && Loose(p, b)
    ensures Owned(Release(p, b))
    ensures forall x: Block :: Loose(Release(p, b), x) <==> Loose(p, x) && x != b
  {
    var r := Release(p, b);
    assert !On(p, Free, b) && On(r, Free, b);
    forall k ensures NoDup(List(r, k)) {
      assert NoDup(List(p, k));
    }
  }

  lemma TakenOwned(p: Pool, packet: Packet)
    requires Owned(p)
    ensures var r := Taken(p).(mem := p.mem[NewBlock(p) := packet]);
            && Owned(r) && Loose(r, NewBlock(p))
            && (forall k: Head, x: Block :: On(r, k, x) <==> On(p, k, x) && x != NewBlock(p))
            && (forall x: Block :: Loose(r, x) <==> Loose(p, x) || x == NewBlock(p))
            && !Loose(p, NewBlock(p))
  {
    var b, q := NewBlock(p), Taken(p);
    if List(p, Free) != [] {
      PopOwned(p, Free);
      assert On(p, Free, b);
    }
    var r := q.(mem := p.mem[b := packet]);
    assert forall k: Head :: List(r, k) == List(q, k);
    assert forall k: Head, x: Block :: On(r, k, x) <==> On(q, k, x);
    if List(p, Free) == [] {
      assert forall k: Head :: List(r, k) == List(p, k);
      assert forall k: Head, x: Block :: On(r, k, x) <==> On(p, k, x);
    }
  }

  /** An allocated block ends up on the one list it is put on, all others stay where they are, and none is
      lost or found. */
  lemma EnqueueOwned(p: Pool, h: Head, packet: Packet)
    requires Owned(p)
    ensures Owned(Enqueue(p, h, packet))
    ensures forall k: Head, x: Block ::
              On(Enqueue(p, h, packet), k, x) <==> if x == NewBlock(p) then k == h else On(p, k, x)
    ensures forall x: Block :: Loose(Enqueue(p, h, packet), x) <==> Loose(p, x)
  {
    TakenOwned(p, packet);
    hide Owned, Loose;
    PushOwned(Taken(p).(mem := p.mem[NewBlock(p) := packet]), h, NewBlock(p));
  }

  /** The allocator never hands out a block that is on a list of its users. */
  lemma NewBlockIsUnused(p: Pool, h: Head)
    requires Owned(p) && h != Free
    ensures !On(p, h, NewBlock(p))
  {
    if List(p, Free) != [] {
      assert On(p, Free, NewBlock(p));
    }
  }

  lemma {:induction false} EnqueueAllOwned(p: Pool, h: Head, packets: seq<Packet>)
    requires Owned(p) && h != Free
    ensures Owned(EnqueueAll(p, h, packets))
    ensures forall k: Head, x: Block :: k != Free && k != h ==> (On(EnqueueAll(p, h, packets), k, x) <==> On(p, k, x))
    ensures forall x: Block :: Loose(EnqueueAll(p, h, packets), x) <==> Loose(p, x)
    decreases |packets|
  {
    if packets != [] {
      var q := Enqueue(p, h, packets[0]);
      EnqueueOwned(p, h, packets[0]);
      EnqueueAllOwned(q, h, packets[1..]);
      hide Owned, Loose, Enqueue;
      forall k: Head, x: Block | k != Free && k != h ensures On(q, k, x) <==> On(p, k, x) {
        NewBlockIsUnused(p, k);
      }
    }
  }

  /** Releasing a list's blocks moves them to the free list, and moves, loses and finds no other. */
  lemma {:induction false} ReleaseAllOwned(p: Pool, h: Head)
    requires Owned(p) && h != Free
    ensures Owned(ReleaseAll(p, h))
    ensures forall k: Head, x: Block :: On(ReleaseAll(p, h), k, x) <==>
              if k == Free then On(p, Free, x) || On(p, h, x) else k != h && On(p, k, x)
    ensures forall x: Block :: Loose(ReleaseAll(p, h), x) <==> Loose(p, x)
    decreases |List(p, h)|
  {
    if List(p, h) == [] {
      assert forall x: Block :: !On(p, h, x);
    } else {
      var b := List(p, h)[0];
      var q := Pop(p, h);
      PopOwned(p, h);
      ReleaseOwned(q, b);
      assert On(p, h, b);
      ReleaseAllOwned(Release(q, b), h);
    }
  }

  /** Re-initialising a list loses exactly the blocks that are on it. */
  lemma EmptiedOwned(p: Pool, h: Head)
    requires Owned(p)
    ensures Owned(Emptied(p, h))
    ensures forall k: Head, x: Block :: On(Emptied(p, h), k, x) <==> On(p, k, x) && k != h
    ensures forall x: Block :: Loose(Emptied(p, h), x) <==> Loose(p, x) || On(p, h, x)
  {
    var r := Emptied(p, h);
    forall k: Head ensures List(r, k) == if k == h then [] else List(p, k) {
    }
    forall k: Head, x: Block ensures On(r, k, x) <==> On(p, k, x) && k != h {
    }
    forall x: Block ensures Loose(r, x) <==> Loose(p, x) || On(p, h, x) {
      if On(p, h, x) {
        forall k: Head ensures !On(r, k, x) {
        }
      }
    }
  }
}
