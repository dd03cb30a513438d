/** The circular doubly linked list: a head node and the entries linked between its two sides. */
module CircularList {
  import opened Sequences

  class ListHead {
    var prev: ListHead?
    var next: ListHead?

    /** A node linked to itself, the empty list. */
    constructor ()
      ensures Ring(this, [])
    {
      prev, next := this, this;
    }
  }

  /** The entry at an index; on either side of the entries comes the head. */
  ghost function At(h: ListHead, s: seq<ListHead>, i: int): ListHead {
    if 0 <= i < |s| then s[i] else h
  }

  /** h heads the ring that visits exactly the entries of s, in order. */
  ghost predicate Ring(h: ListHead, s: seq<ListHead>)
    reads h, s
  {
    && NoDup(s) && h !in s
    && h.next == At(h, s, 0) && h.prev == At(h, s, |s| - 1)
    && (forall i {:trigger s[i].next} :: 0 <= i < |s| ==> s[i].next == At(h, s, i + 1))
    && (forall i {:trigger s[i].prev} :: 0 <= i < |s| ==> s[i].prev == At(h, s, i - 1))
  }

  /** Links e in between two neighbours. */
  method AddBetween(e: ListHead, prev: ListHead, next: ListHead)
    modifies e, prev, next
    ensures e != prev && e != next ==> e.prev == prev && e.next == next
    ensures e != prev && e != next && prev != next ==>
              prev.next == e && next.prev == e && prev.prev == old(prev.prev) && next.next == old(next.next)
    ensures e != prev && prev == next ==> prev.next == e == prev.prev
  {
    next.prev := e;
    e.next := next;
    e.prev := prev;
    prev.next := e;
  }

  /** Adds an entry at the front. */
  method Add(e: ListHead, head: ListHead, ghost s: seq<ListHead>)
    requires Ring(head, s) && e !in s && e != head
    modifies e, head, s
    ensures Ring(head, [e] + s)
  {
    AddBetween(e, head, head.next);
    ghost var t := [e] + s;
    forall i {:trigger t[i].next} | 0 <= i < |t| ensures t[i].next == At(head, t, i + 1) {
      if i > 0 { assert t[i] == s[i - 1]; }
    }
    forall i {:trigger t[i].prev} | 0 <= i < |t| ensures t[i].prev == At(head, t, i - 1) {
      if i > 0 { assert t[i] == s[i - 1]; }
    }
  }

  /** Adds an entry at the back. */
  method AddTail(e: ListHead, head: ListHead, ghost s: seq<ListHead>)
    requires Ring(head, s) && e !in s && e != head
    modifies e, head, s
    ensures Ring(head, s + [e])
  {
    AddBetween(e, head.prev, head);
    ghost var t := s + [e];
    forall i {:trigger t[i].next} | 0 <= i < |t| ensures t[i].next == At(head, t, i + 1) {
      if i < |s| { assert t[i] == s[i]; }
    }
    forall i {:trigger t[i].prev} | 0 <= i < |t| ensures t[i].prev == At(head, t, i - 1) {
      if i < |s| { assert t[i] == s[i]; }
    }
  }

  /** The links of the head and of every entry but s[k] skip over s[k]. */
  ghost predicate Bypasses(h: ListHead, s: seq<ListHead>, k: nat)
    requires k < |s|
    reads h, s
  {
    && h.next == At(h, s, if k == 0 then 1 else 0)
    && h.prev == At(h, s, if k == |s| - 1 then k - 1 else |s| - 1)
    && (forall i {:trigger s[i].next} :: 0 <= i < |s| && i != k ==>
          s[i].next == At(h, s, if i + 1 == k then k + 1 else i + 1))
    && (forall i {:trigger s[i].prev} :: 0 <= i < |s| && i != k ==>
          s[i].prev == At(h, s, if i == k + 1 then k - 1 else i - 1))
  }

  lemma BypassLink(h: ListHead, s: seq<ListHead>, k: nat, i: nat)
    requires k < |s| && Bypasses(h, s, k) && i < |s| - 1
    ensures var t := RemoveAt(s, k); t[i].next == At(h, t, i + 1) && t[i].prev == At(h, t, i - 1)
  {
    var j := if i < k then i else i + 1;
    assert s[j] == RemoveAt(s, k)[i];
  }

  lemma Bypassed(h: ListHead, s: seq<ListHead>, k: nat)
    requires k < |s| && NoDup(s) && h !in s && Bypasses(h, s, k)
    ensures Ring(h, RemoveAt(s, k))
  {
    RemoveAtNoDup(s, k);
    var t := RemoveAt(s, k);
    forall i {:trigger t[i].next} | 0 <= i < |t| ensures t[i].next == At(h, t, i + 1) {
      BypassLink(h, s, k, i);
    }
    forall i {:trigger t[i].prev} | 0 <= i < |t| ensures t[i].prev == At(h, t, i - 1) {
      BypassLink(h, s, k, i);
    }
  }

  /** Deletes the k-th entry of a list; only the entry and its list are given, not the list's head. */
  method Del(e: ListHead, ghost h: ListHead, ghost s: seq<ListHead>, ghost k: nat)
    requires Ring(h, s) && k < |s| && s[k] == e
    modifies h, s
    ensures Ring(h, RemoveAt(s, k)) && e.prev == e.next == null
  {
    e.next.prev := e.prev;
    e.prev.next := e.next;
    e.prev := null;
    e.next := null;
    Bypassed(h, s, k);
  }

  /** Puts new in the place of the k-th entry. */
  method Replace(old0: ListHead, new0: ListHead, ghost h: ListHead, ghost s: seq<ListHead>, ghost k: nat)
    requires Ring(h, s) && k < |s| && s[k] == old0 && new0 !in s && new0 != h
    modifies h, s, new0
    ensures Ring(h, s[k := new0])
  {
    new0.next := old0.next;
    new0.next.prev := new0;
    new0.prev := old0.prev;
    new0.prev.next := new0;
  }

  method IsEmpty(head: ListHead, ghost s: seq<ListHead>) returns (r: bool)
    requires Ring(head, s)
    ensures r <==> s == []
  {
    r := head.next == head;
  }

  method IsSingular(head: ListHead, ghost s: seq<ListHead>) returns (r: bool)
    requires Ring(head, s)
    ensures r <==> |s| == 1
  {
    var empty := IsEmpty(head, s);
    r := !empty && head.next == head.prev;
  }

  // ---------------------------------------------------------------- splicing

  /** Two rings without a node in common. */
  ghost predicate Separate(h: ListHead, s: seq<ListHead>, g: ListHead, u: seq<ListHead>) {
    h != g && h !in u && g !in s && forall i :: 0 <= i < |s| ==> s[i] !in u
  }

  /** Appends the entries u of list to the entries s of head and leaves list empty. */
  method SpliceTailInit(list: ListHead, head: ListHead, ghost u: seq<ListHead>, ghost s: seq<ListHead>)
    requires Ring(list, u) && Ring(head, s) && Separate(head, s, list, u)
    modifies list, head, u, s
    ensures Ring(head, s + u) && Ring(list, [])
  {
    var empty := IsEmpty(list, u);
    if empty {
      assert s + u == s;
    } else {
      Splice(list, head.prev, head);
      list.prev, list.next := list, list;
      Spliced(head, s, u);
    }
  }

  /** Links the entries of list in between two neighbours. */
  method Splice(list: ListHead, prev: ListHead, next: ListHead)
    requires list.next != null && list.prev != null && list !in {list.next, list.prev, prev, next}
    requires list.next !in {prev, next} && list.prev !in {prev, next}
    modifies list.next`prev, list.prev`next, prev`next, next`prev
    ensures list.next == old(list.next) && list.prev == old(list.prev)
    ensures list.next != null && list.next.prev == prev && prev.next == list.next
    ensures list.prev != null && list.prev.next == next && next.prev == list.prev
  {
    var first, last := list.next, list.prev;
    first.prev := prev;
    prev.next := first;
    last.next := next;
    next.prev := last;
  }

  /** The outer links of two runs of entries joined behind one another. */
  lemma Spliced(h: ListHead, s: seq<ListHead>, u: seq<ListHead>)
    requires NoDup(s) && NoDup(u) && h !in s && h !in u && forall i :: 0 <= i < |s| ==> s[i] !in u
    requires u != []
    requires h.next == (if s == [] then u[0] else s[0]) && h.prev == u[|u| - 1]
    requires forall i {:trigger s[i].next} :: 0 <= i < |s| ==> s[i].next == if i + 1 < |s| then s[i + 1] else u[0]
    requires forall i {:trigger s[i].prev} :: 0 <= i < |s| ==> s[i].prev == At(h, s, i - 1)
    requires forall i {:trigger u[i].next} :: 0 <= i < |u| ==> u[i].next == At(h, u, i + 1)
    requires forall i {:trigger u[i].prev} :: 0 <= i < |u| ==>
               u[i].prev == if i > 0 then u[i - 1] else if s == [] then h else s[|s| - 1]
    ensures Ring(h, s + u)
  {
    var t := s + u;
    forall i {:trigger t[i].next} | 0 <= i < |t| ensures t[i].next == At(h, t, i + 1) {
      if i < |s| { assert t[i] == s[i]; } else { assert t[i] == u[i - |s|]; }
    }
    forall i {:trigger t[i].prev} | 0 <= i < |t| ensures t[i].prev == At(h, t, i - 1) {
      if i < |s| { assert t[i] == s[i]; } else { assert t[i] == u[i - |s|]; }
    }
  }

  lemma Apart(h: ListHead, s: seq<ListHead>, g: ListHead, u: seq<ListHead>)
    requires Separate(h, s, g, u)
    ensures forall i :: 0 <= i < |u| ==> u[i] !in s
    ensures forall i :: 0 <= i < |s| ==> s[i] !in u
  {
  }

  lemma SplicedFront(h: ListHead, u: seq<ListHead>, s: seq<ListHead>)
    requires NoDup(s) && NoDup(u) && h !in s && h !in u && forall i :: 0 <= i < |s| ==> s[i] !in u
    requires u != [] && h.next == u[0] && h.prev == if s == [] then u[|u| - 1] else s[|s| - 1]
    requires forall i {:trigger u[i].next} :: 0 <= i < |u| ==>
               u[i].next == if i + 1 < |u| then u[i + 1] else At(h, s, 0)
    requires forall i {:trigger u[i].prev} :: 0 <= i < |u| ==> u[i].prev == At(h, u, i - 1)
    requires forall i {:trigger s[i].next} :: 0 <= i < |s| ==> s[i].next == At(h, s, i + 1)
    requires forall i {:trigger s[i].prev} :: 0 <= i < |s| ==> s[i].prev == if i > 0 then s[i - 1] else u[|u| - 1]
    ensures Ring(h, u + s)
  {
    var t := u + s;
    forall i {:trigger t[i].next} | 0 <= i < |t| ensures t[i].next == At(h, t, i + 1) {
      if i < |u| { assert t[i] == u[i]; } else { assert t[i] == s[i - |u|]; }
    }
    forall i {:trigger t[i].prev} | 0 <= i < |t| ensures t[i].prev == At(h, t, i - 1) {
      if i < |u| { assert t[i] == u[i]; } else { assert t[i] == s[i - |u|]; }
    }
  }

  /** Puts the entries u of list in front of the entries s of head; list is left pointing into head. */
  method SpliceFront(list: ListHead, head: ListHead, ghost u: seq<ListHead>, ghost s: seq<ListHead>)
    requires Ring(list, u) && Ring(head, s) && Separate(head, s, list, u)
    modifies head, u, s
    ensures Ring(head, u + s)
    ensures list.next == old(list.next) && list.prev == old(list.prev)
  {
    var empty := IsEmpty(list, u);
    if empty {
      assert u + s == s;
    } else {
      Apart(head, s, list, u);
      ghost var n := |u| - 1;
      assert list.next == u[0] && u[0] in u && list.prev == u[n] && u[n] in u;
      assert head.next == At(head, s, 0) && (s != [] ==> s[0] in s);
      assert forall i :: 0 <= i < n ==> u[i] != u[n];
      assert forall i :: 1 <= i < |u| ==> u[i] != u[0];
      assert forall i :: 1 <= i < |s| ==> s[i] != s[0];
      hide NoDup, Separate;
      Splice(list, head, head.next);
      SplicedFront(head, u, s);
    }
  }

  /** Puts the entries u of list in front of the entries s of head and leaves list empty. */
  method SpliceInit(list: ListHead, head: ListHead, ghost u: seq<ListHead>, ghost s: seq<ListHead>)
    requires Ring(list, u) && Ring(head, s) && Separate(head, s, list, u)
    modifies list, head, u, s
    ensures Ring(head, u + s) && Ring(list, [])
  {
    SpliceFront(list, head, u, s);
    list.prev, list.next := list, list;
  }

  /** Cuts the first k entries, up to and including entry, off head and makes them the contents of
      list. With entry == head nothing is cut and list becomes empty. On an empty list, and for an
      entry that is not the single one of a list, nothing changes. */
  method CutPosition(list: ListHead, head: ListHead, entry: ListHead, ghost s: seq<ListHead>, ghost k: nat)
    requires Ring(head, s) && list != head && list !in s
    requires if entry == head || entry in s then k <= |s| && entry == At(head, s, k - 1) else |s| <= 1
    modifies list, head, s
    ensures s != [] && (entry == head || entry in s) ==> Ring(list, s[..k]) && Ring(head, s[k..])
    ensures s == [] || (entry != head && entry !in s) ==>
              Ring(head, s) && list.next == old(list.next) && list.prev == old(list.prev)
  {
    var empty := IsEmpty(head, s);
    if empty {
      return;
    }
    var singular := IsSingular(head, s);
    if singular && head.next != entry && head != entry {
      return;
    }
    if entry == head {
      list.prev, list.next := list, list;
      assert s[..k] == [] && s[k..] == s;
    } else {
      CutAfter(list, head, entry, s, k);
    }
  }

  method CutAfter(list: ListHead, head: ListHead, entry: ListHead, ghost s: seq<ListHead>, ghost k: nat)
    requires Ring(head, s) && list != head && list !in s
    requires 0 < k <= |s| && entry == s[k - 1]
    modifies list, head, s
    ensures Ring(list, s[..k]) && Ring(head, s[k..])
  {
    var newFirst := entry.next;
    list.next := head.next;
    list.next.prev := list;
    list.prev := entry;
    entry.next := list;
    head.next := newFirst;
    newFirst.prev := head;
    ghost var a, b := s[..k], s[k..];
    forall i {:trigger a[i].next} | 0 <= i < |a| ensures a[i].next == At(list, a, i + 1) {
      assert a[i] == s[i];
    }
    forall i {:trigger a[i].prev} | 0 <= i < |a| ensures a[i].prev == At(list, a, i - 1) {
      assert a[i] == s[i];
    }
    forall i {:trigger b[i].next} | 0 <= i < |b| ensures b[i].next == At(head, b, i + 1) {
      assert b[i] == s[k + i];
    }
    forall i {:trigger b[i].prev} | 0 <= i < |b| ensures b[i].prev == At(head, b, i - 1) {
      assert b[i] == s[k + i];
    }
  }
}
