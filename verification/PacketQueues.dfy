/** The connection server's packet blocks in memory: every block has one list node, and every list head
    links the nodes of its blocks into a ring. Because no block is on two lists, moving a node from ring to
    ring does what PacketPool says of the lists. */
module PacketQueues {
  import opened CircularList
  import opened PacketPool
  import opened Sequences

  type Heads = map<Head, ListHead>
  type Nodes = map<Block, ListHead>

  /** All blocks of a list have a node. */
  ghost predicate Known(nodes: Nodes, s: seq<Block>) {
    forall i :: 0 <= i < |s| ==> s[i] in nodes
  }

  /** The nodes of the blocks on a list. */
  ghost function NodesOf(nodes: Nodes, s: seq<Block>): (r: seq<ListHead>)
    requires Known(nodes, s)
    ensures |r| == |s| && forall i :: 0 <= i < |s| ==> r[i] == nodes[s[i]]
  {
    seq(|s|, i requires 0 <= i < |s| => nodes[s[i]])
  }

  /** No two heads or nodes share memory. */
  ghost predicate Distinct(heads: Heads, nodes: Nodes) {
    && (forall h, k :: h in heads && k in heads && heads[h] == heads[k] ==> h == k)
    && (forall b, d :: b in nodes && d in nodes && nodes[b] == nodes[d] ==> b == d)
    && (forall h, b :: h in heads && b in nodes ==> heads[h] != nodes[b])
  }

  /** Everything is in memory: a node for every block, and a head for every list with a block on it. */
  ghost predicate Stocked(heads: Heads, nodes: Nodes, p: Pool) {
    && Distinct(heads, nodes)
    && nodes.Keys == p.mem.Keys
    && (forall h: Head :: Known(nodes, List(p, h)))
    && (forall h: Head :: List(p, h) != [] ==> h in heads)
  }

  /** A node belongs to the block whose node it is. */
  ghost predicate Contained(nodes: Nodes, blockOf: map<ListHead, Block>) {
    forall b :: b in nodes ==> nodes[b] in blockOf && blockOf[nodes[b]] == b
  }

  ghost predicate Within(heads: Heads, nodes: Nodes, repr: set<ListHead>) {
    (forall h :: h in heads ==> heads[h] in repr) && (forall b :: b in nodes ==> nodes[b] in repr)
  }

  /** Every head links the nodes of its list. */
  ghost predicate Linked(heads: Heads, nodes: Nodes, p: Pool, repr: set<ListHead>)
    requires Stocked(heads, nodes, p) && Within(heads, nodes, repr)
    reads repr
  {
    forall h :: h in heads ==> Ring(heads[h], NodesOf(nodes, List(p, h)))
  }

  ghost predicate InMemory(heads: Heads, nodes: Nodes, p: Pool, repr: set<ListHead>)
    reads repr
  {
    Owned(p) && Stocked(heads, nodes, p) && Within(heads, nodes, repr) && Linked(heads, nodes, p, repr)
  }

  // ---------------------------------------------------------------- what has no node in common

  /** Two lists' rings have no node in common, because they have no block in common. */
  lemma RingsApart(heads: Heads, nodes: Nodes, p: Pool, h: Head, k: Head)
    requires Owned(p) && Stocked(heads, nodes, p) && h in heads && k in heads && h != k
    ensures Separate(heads[h], NodesOf(nodes, List(p, h)), heads[k], NodesOf(nodes, List(p, k)))
  {
    var s, t := List(p, h), List(p, k);
    forall i | 0 <= i < |s| ensures NodesOf(nodes, s)[i] !in NodesOf(nodes, t) {
      forall j | 0 <= j < |t| ensures NodesOf(nodes, t)[j] != NodesOf(nodes, s)[i] {
        assert On(p, h, s[i]) && On(p, k, t[j]);
      }
    }
  }

  /** A loose block's node is in no ring. */
  lemma LooseApart(heads: Heads, nodes: Nodes, p: Pool, h: Head, b: Block)
    requires Stocked(heads, nodes, p) && Loose(p, b) && h in heads
    ensures b in nodes && nodes[b] != heads[h] && nodes[b] !in NodesOf(nodes, List(p, h))
  {
    var s := List(p, h);
    forall i | 0 <= i < |s| ensures NodesOf(nodes, s)[i] != nodes[b] {
      assert On(p, h, s[i]) && !On(p, h, b);
    }
  }

  lemma PushStocked(heads: Heads, nodes: Nodes, p: Pool, h: Head, b: Block)
    requires Stocked(heads, nodes, p) && h in heads && b in nodes
    ensures Stocked(heads, nodes, Push(p, h, b)) && Known(nodes, List(p, h))
    ensures NodesOf(nodes, List(Push(p, h, b), h)) == NodesOf(nodes, List(p, h)) + [nodes[b]]
    ensures forall k :: k != h ==> List(Push(p, h, b), k) == List(p, k)
  {
    var q := Push(p, h, b);
    forall k: Head ensures Known(nodes, List(q, k)) {
      assert Known(nodes, List(p, k));
    }
  }

  lemma ReleaseStocked(heads: Heads, nodes: Nodes, p: Pool, b: Block)
    requires Stocked(heads, nodes, p) && Free in heads && b in nodes
    ensures Stocked(heads, nodes, Release(p, b)) && Known(nodes, List(p, Free))
    ensures NodesOf(nodes, List(Release(p, b), Free)) == [nodes[b]] + NodesOf(nodes, List(p, Free))
    ensures forall k :: k != Free ==> List(Release(p, b), k) == List(p, k)
  {
    var q := Release(p, b);
    forall k: Head ensures Known(nodes, List(q, k)) {
      assert Known(nodes, List(p, k));
    }
  }

  lemma PopStocked(heads: Heads, nodes: Nodes, p: Pool, h: Head)
    requires Stocked(heads, nodes, p) && List(p, h) != []
    ensures h in heads && Stocked(heads, nodes, Pop(p, h)) && Known(nodes, List(p, h))
    ensures NodesOf(nodes, List(Pop(p, h), h)) == RemoveAt(NodesOf(nodes, List(p, h)), 0)
    ensures forall k :: k != h ==> List(Pop(p, h), k) == List(p, k)
  {
    var q := Pop(p, h);
    forall k: Head ensures Known(nodes, List(q, k)) {
      assert Known(nodes, List(p, k));
    }
  }

  /** No node of a ring is one of x. */
  ghost predicate Avoids(h: ListHead, s: seq<ListHead>, g: ListHead, x: seq<ListHead>) {
    h != g && h !in x && forall i :: 0 <= i < |s| ==> s[i] != g && s[i] !in x
  }

  /** The ring of h has no node in common with any other. */
  ghost predicate Alone(heads: Heads, nodes: Nodes, p: Pool, h: Head)
    requires h in heads && forall k: Head :: Known(nodes, List(p, k))
  {
    forall k :: k in heads && k != h ==>
      Avoids(heads[k], NodesOf(nodes, List(p, k)), heads[h], NodesOf(nodes, List(p, h)))
  }

  lemma RingAlone(heads: Heads, nodes: Nodes, p: Pool, h: Head)
    requires Owned(p) && Stocked(heads, nodes, p) && h in heads
    ensures Alone(heads, nodes, p, h)
  {
    forall k | k in heads && k != h
      ensures Avoids(heads[k], NodesOf(nodes, List(p, k)), heads[h], NodesOf(nodes, List(p, h)))
    {
      RingsApart(heads, nodes, p, k, h);
      var t := NodesOf(nodes, List(p, k));
      assert forall i :: 0 <= i < |t| ==> t[i] in t;
    }
  }

  /** A node in no ring. */
  ghost predicate Unlinked(heads: Heads, nodes: Nodes, p: Pool, n: ListHead)
    requires forall k: Head :: Known(nodes, List(p, k))
  {
    forall k :: k in heads ==> n != heads[k] && n !in NodesOf(nodes, List(p, k))
  }

  lemma LooseUnlinked(heads: Heads, nodes: Nodes, p: Pool, b: Block)
    requires Stocked(heads, nodes, p) && Loose(p, b)
    ensures b in nodes && Unlinked(heads, nodes, p, nodes[b])
  {
    forall k | k in heads ensures nodes[b] != heads[k] && nodes[b] !in NodesOf(nodes, List(p, k)) {
      LooseApart(heads, nodes, p, k, b);
    }
  }

  lemma EmptiedStocked(heads: Heads, nodes: Nodes, p: Pool, h: Head)
    requires Stocked(heads, nodes, p)
    ensures Stocked(heads, nodes, Emptied(p, h)) && List(Emptied(p, h), h) == []
    ensures forall k :: k != h ==> List(Emptied(p, h), k) == List(p, k)
  {
    var q := Emptied(p, h);
    forall k: Head ensures Known(nodes, List(q, k)) {
      assert Known(nodes, List(p, k));
    }
  }

  /** A block that has just been given a node. */
  lemma GrownStocked(heads: Heads, nodes: Nodes, p: Pool, n: ListHead, packet: Packet)
    requires Owned(p) && Stocked(heads, nodes, p)
    requires (forall h :: h in heads ==> heads[h] != n) && forall b :: b in nodes ==> nodes[b] != n
    ensures var q := p.(next := p.next + 1, mem := p.mem[p.next := packet]);
            && Stocked(heads, nodes[p.next := n], q)
            && (forall h: Head :: List(q, h) == List(p, h) && Known(nodes, List(p, h)))
            && (forall h: Head :: NodesOf(nodes[p.next := n], List(p, h)) == NodesOf(nodes, List(p, h)))
  {
    var q, m := p.(next := p.next + 1, mem := p.mem[p.next := packet]), nodes[p.next := n];
    forall h: Head ensures List(q, h) == List(p, h) && Known(m, List(p, h)) {
      assert Known(nodes, List(p, h));
    }
    forall h: Head, i | 0 <= i < |List(p, h)| ensures m[List(p, h)[i]] == nodes[List(p, h)[i]] {
      assert On(p, h, List(p, h)[i]);
    }
    forall h: Head ensures NodesOf(m, List(p, h)) == NodesOf(nodes, List(p, h)) {
    }
  }

  /** A list that has just been given a head. */
  lemma HeadStocked(heads: Heads, nodes: Nodes, p: Pool, h: Head, n: ListHead)
    requires Stocked(heads, nodes, p) && h !in heads
    requires (forall k :: k in heads ==> heads[k] != n) && forall b :: b in nodes ==> nodes[b] != n
    ensures Stocked(heads[h := n], nodes, p) && List(p, h) == []
  {
  }

  // ---------------------------------------------------------------- moving nodes

  /** list_add_tail on the ring of h. */
  method LinkTail(heads: Heads, nodes: Nodes, h: Head, b: Block, ghost p: Pool, ghost repr: set<ListHead>)
    requires InMemory(heads, nodes, p, repr) && h in heads && Loose(p, b)
    modifies repr
    ensures InMemory(heads, nodes, Push(p, h, b), repr)
  {
    PushOwned(p, h, b);
    PushStocked(heads, nodes, p, h, b);
    RingAlone(heads, nodes, p, h);
    LooseUnlinked(heads, nodes, p, b);
    ghost var s := NodesOf(nodes, List(p, h));
    assert Ring(heads[h], s);
    hide Owned, Stocked, Loose, List, Push, NodesOf, NoDup, At, Within;
    AddTail(nodes[b], heads[h], s);
    forall k | k in heads && k != h ensures Ring(heads[k], NodesOf(nodes, List(p, k))) {
      var t := NodesOf(nodes, List(p, k));
      assert Avoids(heads[k], t, heads[h], s) && nodes[b] !in t && old(Ring(heads[k], t));
    }
  }

  /** list_add on the ring of the free list. */
  method LinkFront(heads: Heads, nodes: Nodes, b: Block, ghost p: Pool, ghost repr: set<ListHead>)
    requires InMemory(heads, nodes, p, repr) && Free in heads && Loose(p, b)
    modifies repr
    ensures InMemory(heads, nodes, Release(p, b), repr)
  {
    ReleaseOwned(p, b);
    ReleaseStocked(heads, nodes, p, b);
    RingAlone(heads, nodes, p, Free);
    LooseUnlinked(heads, nodes, p, b);
    ghost var s := NodesOf(nodes, List(p, Free));
    assert Ring(heads[Free], s);
    ghost var t := NodesOf(nodes, List(Release(p, b), Free));
    hide Owned, Stocked, Loose, List, Release, NodesOf;
    Add(nodes[b], heads[Free], s);
    assert Ring(heads[Free], t);
    hide Ring;
    forall k | k in heads && k != Free ensures Ring(heads[k], NodesOf(nodes, List(p, k))) {
      assert old(Ring(heads[k], NodesOf(nodes, List(p, k))));
    }
  }

  /** list_del of the first node of the ring of h. */
  method UnlinkFirst(heads: Heads, nodes: Nodes, h: Head, ghost p: Pool, ghost repr: set<ListHead>)
    requires InMemory(heads, nodes, p, repr) && List(p, h) != []
    requires h in heads && heads[h].next != null && heads[h].next == nodes[List(p, h)[0]]
    modifies repr
    ensures InMemory(heads, nodes, Pop(p, h), repr) && Loose(Pop(p, h), List(p, h)[0])
  {
    PopOwned(p, h);
    PopStocked(heads, nodes, p, h);
    RingAlone(heads, nodes, p, h);
    ghost var s := NodesOf(nodes, List(p, h));
    assert Ring(heads[h], s) && s[0] == heads[h].next;
    hide Owned, Stocked, Loose, List, Pop;
    Del(heads[h].next, heads[h], s, 0);
    hide NodesOf;
    forall k | k in heads && k != h ensures Ring(heads[k], NodesOf(nodes, List(p, k))) {
      assert old(Ring(heads[k], NodesOf(nodes, List(p, k))));
    }
  }

  /** INIT_LIST_HEAD on the node of a loose block. */
  method InitNode(heads: Heads, nodes: Nodes, b: Block, ghost p: Pool, ghost repr: set<ListHead>)
    requires InMemory(heads, nodes, p, repr) && Loose(p, b)
    modifies repr
    ensures InMemory(heads, nodes, p, repr)
  {
    LooseUnlinked(heads, nodes, p, b);
    hide Owned, Stocked, Loose, List;
    nodes[b].next := nodes[b];
    nodes[b].prev := nodes[b];
    hide NodesOf;
    forall k | k in heads ensures Ring(heads[k], NodesOf(nodes, List(p, k))) {
      assert old(Ring(heads[k], NodesOf(nodes, List(p, k))));
    }
  }

  /** INIT_LIST_HEAD on a head. What was linked to it is linked nowhere from then on. */
  method InitHead(heads: Heads, nodes: Nodes, h: Head, ghost p: Pool, ghost repr: set<ListHead>)
    requires InMemory(heads, nodes, p, repr) && h in heads
    modifies repr
    ensures InMemory(heads, nodes, Emptied(p, h), repr)
  {
    EmptiedOwned(p, h);
    EmptiedStocked(heads, nodes, p, h);
    RingAlone(heads, nodes, p, h);
    hide Owned, Stocked, List, Emptied;
    heads[h].next := heads[h];
    heads[h].prev := heads[h];
    forall k | k in heads && k != h ensures Ring(heads[k], NodesOf(nodes, List(p, k))) {
      assert old(Ring(heads[k], NodesOf(nodes, List(p, k))));
    }
  }

  // ---------------------------------------------------------------- the queues as an object

  class Queues {
    /** The list heads that are set up, every block's node, and the block that a node belongs to. */
    var heads: Heads
    var nodes: Nodes
    var blockOf: map<ListHead, Block>
    /** The packets in the blocks, and the first address never handed out. */
    var mem: map<Block, Packet>
    var next: Block
    /** What the rings stand for. */
    ghost var lists: map<Head, seq<Block>>
    ghost var repr: set<ListHead>

    ghost function View(): Pool
      reads this
    {
      Pool(mem, lists, next)
    }

    ghost predicate Valid()
      reads this, repr
    {
      InMemory(heads, nodes, View(), repr) && Contained(nodes, blockOf) && Free in heads
    }

    lemma ValidOwned()
      requires Valid()
      ensures Owned(View()) && Backed(View()) && nodes.Keys == mem.Keys && Free in heads
    {
    }

    /** An allocator without blocks. */
    constructor ()
      ensures Valid() && fresh(repr) && View() == Pool(map[], map[], 0) && heads.Keys == {Free}
    {
      var n := new ListHead();
      heads, nodes, blockOf, mem, next := map[Free := n], map[], map[], map[], 0;
      lists, repr := map[], {n};
      new;
      assert forall h: Head, b: Block :: !On(View(), h, b);
      assert NodesOf(nodes, List(View(), Free)) == [];
    }

    /** A new head links nothing, and disturbs no other. */
    lemma LinkNew(h: Head, n: ListHead, p: Pool)
      requires InMemory(heads, nodes, p, repr) && h !in heads && n !in repr && Ring(n, [])
      ensures InMemory(heads[h := n], nodes, p, repr + {n})
    {
      HeadStocked(heads, nodes, p, h, n);
      var g := heads[h := n];
      assert NodesOf(nodes, List(p, h)) == [];
      hide Ring, Stocked, Owned;
      forall k | k in g ensures Ring(g[k], NodesOf(nodes, List(p, k))) {
      }
    }

    /** Sets up a list head for the first time. */
    method FirstHead(h: Head)
      requires Valid() && h !in heads
      modifies this`heads, this`repr
      ensures Valid() && fresh(repr - old(repr)) && heads.Keys == old(heads.Keys) + {h} && View() == old(View())
    {
      hide InMemory, Contained, Ring;
      var n := new ListHead();
      LinkNew(h, n, View());
      heads := heads[h := n];
      repr := repr + {n};
    }

    /** Sets up a list head, be it for the first time or again; the list is empty then. */
    method NewHead(h: Head)
      requires Valid() && h != Free
      modifies this`heads, this`lists, this`repr, repr
      ensures Valid() && fresh(repr - old(repr)) && heads.Keys == old(heads.Keys) + {h}
      ensures View() == Emptied(old(View()), h)
    {
      hide InMemory, Contained;
      if h !in heads {
        FirstHead(h);
      }
      InitHead(heads, nodes, h, View(), repr);
      lists := lists[h := []];
    }

    /** list_add_tail. */
    method AddTail(h: Head, b: Block)
      requires Valid() && h in heads && Loose(View(), b)
      modifies this`lists, repr
      ensures Valid() && View() == Push(old(View()), h, b)
    {
      ghost var p := View();
      hide InMemory, Contained, Loose;
      LinkTail(heads, nodes, h, b, p, repr);
      lists := Push(p, h, b).lists;
    }

    method IsEmpty(h: Head) returns (empty: bool)
      requires Valid() && h in heads
      ensures empty <==> List(View(), h) == []
    {
      assert Ring(heads[h], NodesOf(nodes, List(View(), h)));
      empty := CircularList.IsEmpty(heads[h], NodesOf(nodes, List(View(), h)));
    }

    /** The first block of a list: the one whose node the head links to. */
    lemma FrontNode(h: Head)
      requires Valid() && List(View(), h) != []
      ensures h in heads && heads[h].next != null && heads[h].next in blockOf
      ensures List(View(), h)[0] in nodes && heads[h].next == nodes[List(View(), h)[0]]
      ensures blockOf[heads[h].next] == List(View(), h)[0]
    {
      assert Ring(heads[h], NodesOf(nodes, List(View(), h)));
    }

    /** list_first_entry followed by list_del. */
    method PopFirst(h: Head) returns (b: Block)
      requires Valid() && List(View(), h) != []
      modifies this`lists, repr
      ensures Valid() && b == List(old(View()), h)[0] && View() == Pop(old(View()), h) && Loose(View(), b)
    {
      hide InMemory, Contained, Loose, List;
      FrontNode(h);
      ghost var p := View();
      b := blockOf[heads[h].next];
      UnlinkFirst(heads, nodes, h, p, repr);
      lists := Pop(p, h).lists;
    }

    /** allocator_free: the node goes to the front of the free list; the contents stay. */
    method FreeBlock(b: Block)
      requires Valid() && Loose(View(), b)
      modifies this`lists, repr
      ensures Valid() && View() == Release(old(View()), b)
    {
      ghost var p := View();
      hide InMemory, Contained, Loose;
      LinkFront(heads, nodes, b, p, repr);
      lists := Release(p, b).lists;
    }

    /** A block that has never been handed out gets a node. */
    lemma NodeNew(p: Pool, n: ListHead, packet: Packet)
      requires InMemory(heads, nodes, p, repr) && n !in repr && List(p, Free) == []
      ensures var q := Taken(p).(mem := p.mem[p.next := packet]);
              && InMemory(heads, nodes[p.next := n], q, repr + {n})
              && q == Pool(p.mem[p.next := packet], p.lists, p.next + 1) && Loose(q, p.next)
    {
      TakenOwned(p, packet);
      GrownStocked(heads, nodes, p, n, packet);
      var m, q := nodes[p.next := n], Taken(p).(mem := p.mem[p.next := packet]);
      assert q == p.(next := p.next + 1, mem := p.mem[p.next := packet]);
      hide Ring, Stocked, Owned, Loose;
      forall k | k in heads ensures Ring(heads[k], NodesOf(m, List(q, k))) {
        assert NodesOf(m, List(p, k)) == NodesOf(nodes, List(p, k));
      }
    }

    lemma NodeNewContained(b: Block, n: ListHead)
      requires Contained(nodes, blockOf) && Within(heads, nodes, repr) && n !in repr
      ensures Contained(nodes[b := n], blockOf[n := b])
    {
      assert forall d :: d in nodes ==> nodes[d] != n;
    }

    /** Filling a block moves no node. */
    lemma Refilled(p: Pool, b: Block, packet: Packet)
      requires InMemory(heads, nodes, p, repr) && b in p.mem
      ensures InMemory(heads, nodes, p.(mem := p.mem[b := packet]), repr)
      ensures Loose(p, b) ==> Loose(p.(mem := p.mem[b := packet]), b)
    {
      var q := p.(mem := p.mem[b := packet]);
      assert forall h: Head :: List(q, h) == List(p, h);
      assert forall h: Head, x: Block :: On(q, h, x) <==> On(p, h, x);
      hide Ring;
    }

    /** Records a new block: its node and its packet. */
    method Record(n: ListHead, packet: Packet, ghost q: Pool)
      requires InMemory(heads, nodes[next := n], q, repr + {n}) && Contained(nodes[next := n], blockOf[n := next])
      requires Free in heads && q == Pool(mem[next := packet], lists, next + 1)
      modifies this
      ensures Valid() && View() == q && heads == old(heads) && repr == old(repr) + {n}
    {
      hide InMemory, Contained;
      nodes, blockOf := nodes[next := n], blockOf[n := next];
      mem, next := mem[next := packet], next + 1;
      repr := repr + {n};
    }

    /** malloc: a block with an address never used before. */
    method NewNode(packet: Packet) returns (b: Block)
      requires Valid() && List(View(), Free) == []
      modifies this
      ensures Valid() && fresh(repr - old(repr)) && heads == old(heads)
      ensures b == old(View()).next && Loose(View(), b)
      ensures View() == Taken(old(View())).(mem := old(View()).mem[b := packet])
    {
      assert Within(heads, nodes, repr);
      hide InMemory, Contained, Ring, List, Within, Taken, Loose;
      b := next;
      var n := new ListHead();
      NodeNew(View(), n, packet);
      NodeNewContained(b, n);
      ghost var q := Taken(View()).(mem := mem[b := packet]);
      Record(n, packet, q);
      hide Valid;
    }

    /** The first free block, with its node set up anew and its packet filled in. */
    method ReuseBlock(packet: Packet) returns (b: Block)
      requires Valid() && List(View(), Free) != []
      modifies this`lists, this`mem, repr
      ensures Valid() && b == List(old(View()), Free)[0] && Loose(View(), b)
      ensures View() == Pop(old(View()), Free).(mem := old(View()).mem[b := packet])
      ensures heads == old(heads) && repr == old(repr)
    {
      hide InMemory, Contained, Ring, List, Loose;
      b := PopFirst(Free);
      ghost var p := View();
      LooseInMem(p, b);
      InitNode(heads, nodes, b, p, repr);
      Refilled(p, b, packet);
      mem := mem[b := packet];
    }

    /** allocator_malloc and packet_init: the first free block, or a new one; its packet is filled in. */
    method Malloc(packet: Packet) returns (b: Block)
      requires Valid()
      modifies this, repr
      ensures Valid() && fresh(repr - old(repr)) && heads == old(heads)
      ensures b == NewBlock(old(View())) && Loose(View(), b)
      ensures View() == Taken(old(View())).(mem := old(View()).mem[b := packet])
    {
      ValidOwned();
      hide Valid, View, List, Pop, Loose, Owned, Backed;
      var empty := IsEmpty(Free);
      if empty {
        b := NewNode(packet);
      } else {
        b := ReuseBlock(packet);
      }
    }

    /** Takes a block, fills it, and puts it at the end of a list. */
    method NewPacket(h: Head, packet: Packet)
      requires Valid() && h in heads
      modifies this, repr
      ensures Valid() && fresh(repr - old(repr)) && heads == old(heads)
      ensures View() == Enqueue(old(View()), h, packet)
    {
      hide InMemory, Contained, Ring, List, Loose;
      var b := Malloc(packet);
      AddTail(h, b);
    }
  }

  lemma LooseInMem(p: Pool, b: Block)
    requires Loose(p, b)
    ensures b in p.mem
  {
  }
}
