/** The intrusive elements of the hash table and the two doubly linked lists that run through
    them: the bucket chains (hhPrev/hhNext) and the application order (prev/next). */
module HashElements {
  import opened Sequences

  /** A hashable structure with its embedded hash handle. The key and the fields that a sort
      comparator looks at do not change while the element is in a table. */
  class Element {
    const key: int
    const isOnline: int
    var hashv: nat
    var prev: Element?
    var next: Element?
    var hhPrev: Element?
    var hhNext: Element?

    constructor (key: int, isOnline: int)
      ensures this.key == key && this.isOnline == isOnline
    {
      this.key, this.isOnline := key, isOnline;
    }
  }

  datatype Bucket = Bucket(head: Element?, count: nat, expandMult: nat)

  const EMPTY_BUCKET := Bucket(null, 0, 0)

  /** The element at an index, or null outside the sequence. */
  ghost function At(s: seq<Element>, i: int): Element? {
    if 0 <= i < |s| then s[i] else null
  }

  ghost function Index(s: seq<Element>, x: Element): (k: nat)
    requires x in s
    ensures k < |s| && s[k] == x
  {
    if s[0] == x then 0 else 1 + Index(s[1..], x)
  }

  /** s without its first occurrence of x. */
  ghost function Without(s: seq<Element>, x: Element): seq<Element>
    requires x in s
  {
    RemoveAt(s, Index(s, x))
  }

  // ---------------------------------------------------------------- bucket chains

  /** h heads the null-terminated bucket chain that visits exactly the elements of s, in order. */
  ghost predicate Chain(h: Element?, s: seq<Element>)
    reads s`hhPrev, s`hhNext
  {
    && NoDup(s)
    && h == At(s, 0)
    && (forall i {:trigger s[i].hhNext} :: 0 <= i < |s| ==> s[i].hhNext == At(s, i + 1))
    && (forall i {:trigger s[i].hhPrev} :: 0 <= i < |s| ==> s[i].hhPrev == At(s, i - 1))
  }

  /** The links of every element but s[k] skip over s[k]. */
  ghost predicate ChainBypasses(s: seq<Element>, k: nat)
    requires k < |s|
    reads s`hhPrev, s`hhNext
  {
    && (forall i {:trigger s[i].hhNext} :: 0 <= i < |s| && i != k ==>
          s[i].hhNext == At(s, if i + 1 == k then k + 1 else i + 1))
    && (forall i {:trigger s[i].hhPrev} :: 0 <= i < |s| && i != k ==>
          s[i].hhPrev == At(s, if i == k + 1 then k - 1 else i - 1))
  }

  lemma ChainBypassLink(s: seq<Element>, k: nat, i: nat)
    requires k < |s| && ChainBypasses(s, k) && i < |s| - 1
    ensures var t := RemoveAt(s, k); t[i].hhNext == At(t, i + 1) && t[i].hhPrev == At(t, i - 1)
  {
    var j := if i < k then i else i + 1;
    assert s[j] == RemoveAt(s, k)[i];
  }

  lemma ChainBypassed(s: seq<Element>, k: nat)
    requires k < |s| && NoDup(s) && ChainBypasses(s, k)
    ensures Chain(At(s, if k == 0 then 1 else 0), RemoveAt(s, k))
  {
    RemoveAtNoDup(s, k);
    var t := RemoveAt(s, k);
    forall i {:trigger t[i].hhNext} | 0 <= i < |t| ensures t[i].hhNext == At(t, i + 1) {
      ChainBypassLink(s, k, i);
    }
    forall i {:trigger t[i].hhPrev} | 0 <= i < |t| ensures t[i].hhPrev == At(t, i - 1) {
      ChainBypassLink(s, k, i);
    }
  }

  /** Links e in at the front of a bucket chain and counts it. */
  method PushFront(b: Bucket, e: Element, ghost s: seq<Element>) returns (b': Bucket)
    requires Chain(b.head, s) && e !in s
    modifies e`hhPrev, e`hhNext, s`hhPrev
    ensures Chain(b'.head, [e] + s)
    ensures b'.count == b.count + 1 && b'.expandMult == b.expandMult
  {
    e.hhNext := b.head;
    e.hhPrev := null;
    if b.head != null {
      b.head.hhPrev := e;
    }
    b' := b.(head := e, count := b.count + 1);
    ghost var t := [e] + s;
    forall i | 0 <= i < |t| ensures t[i].hhNext == At(t, i + 1) && t[i].hhPrev == At(t, i - 1) {
      if i > 0 {
        assert t[i] == s[i - 1];
      }
    }
  }

  /** Unlinks d, the k-th element of a bucket chain, and counts it off. */
  method DelInBkt(b: Bucket, d: Element, ghost s: seq<Element>, ghost k: nat) returns (b': Bucket)
    requires Chain(b.head, s) && b.count == |s|
    requires k < |s| && s[k] == d
    modifies s`hhPrev, s`hhNext
    ensures Chain(b'.head, RemoveAt(s, k))
    ensures b'.count == b.count - 1 && b'.expandMult == b.expandMult
  {
    b' := b.(count := b.count - 1);
    if b'.head == d {
      b' := b'.(head := d.hhNext);
    }
    if d.hhPrev != null {
      d.hhPrev.hhNext := d.hhNext;
    }
    if d.hhNext != null {
      d.hhNext.hhPrev := d.hhPrev;
    }
    ChainBypassed(s, k);
  }

  // ---------------------------------------------------------------- application order

  /** h is the first and t the last element of the application-order list through s. */
  ghost predicate AppList(h: Element?, t: Element?, s: seq<Element>)
    reads s`prev, s`next
  {
    && NoDup(s)
    && h == At(s, 0)
    && t == At(s, |s| - 1)
    && (forall i {:trigger s[i].next} :: 0 <= i < |s| ==> s[i].next == At(s, i + 1))
    && (forall i {:trigger s[i].prev} :: 0 <= i < |s| ==> s[i].prev == At(s, i - 1))
  }

  ghost predicate AppBypasses(s: seq<Element>, k: nat)
    requires k < |s|
    reads s`prev, s`next
  {
    && (forall i {:trigger s[i].next} :: 0 <= i < |s| && i != k ==>
          s[i].next == At(s, if i + 1 == k then k + 1 else i + 1))
    && (forall i {:trigger s[i].prev} :: 0 <= i < |s| && i != k ==>
          s[i].prev == At(s, if i == k + 1 then k - 1 else i - 1))
  }

  lemma AppBypassLink(s: seq<Element>, k: nat, i: nat)
    requires k < |s| && AppBypasses(s, k) && i < |s| - 1
    ensures var t := RemoveAt(s, k); t[i].next == At(t, i + 1) && t[i].prev == At(t, i - 1)
  {
    var j := if i < k then i else i + 1;
    assert s[j] == RemoveAt(s, k)[i];
  }

  lemma RemoveAtEnds(s: seq<Element>, k: nat)
    requires k < |s|
    ensures At(RemoveAt(s, k), 0) == At(s, if k == 0 then 1 else 0)
    ensures At(RemoveAt(s, k), |s| - 2) == At(s, if k == |s| - 1 then k - 1 else |s| - 1)
  {
  }

  lemma AppBypassed(h: Element?, l: Element?, s: seq<Element>, k: nat)
    requires k < |s| && NoDup(s) && AppBypasses(s, k)
    requires h == At(s, if k == 0 then 1 else 0) && l == At(s, if k == |s| - 1 then k - 1 else |s| - 1)
    ensures AppList(h, l, RemoveAt(s, k))
  {
    RemoveAtNoDup(s, k);
    RemoveAtEnds(s, k);
    var t := RemoveAt(s, k);
    forall i {:trigger t[i].next} | 0 <= i < |t| ensures t[i].next == At(t, i + 1) {
      AppBypassLink(s, k, i);
    }
    forall i {:trigger t[i].prev} | 0 <= i < |t| ensures t[i].prev == At(t, i - 1) {
      AppBypassLink(s, k, i);
    }
  }

  lemma AppAppended(h: Element, s: seq<Element>, e: Element)
    requires e !in s && NoDup(s) && h == At(s + [e], 0)
    requires e.next == null && e.prev == At(s, |s| - 1)
    requires forall i {:trigger s[i].next} :: 0 <= i < |s| ==> s[i].next == At(s + [e], i + 1)
    requires forall i {:trigger s[i].prev} :: 0 <= i < |s| ==> s[i].prev == At(s, i - 1)
    ensures AppList(h, e, s + [e])
  {
    var t := s + [e];
    forall i | 0 <= i < |t| ensures t[i].next == At(t, i + 1) && t[i].prev == At(t, i - 1) {
      if i < |s| {
        assert t[i] == s[i];
      }
    }
  }
}
