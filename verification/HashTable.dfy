/** The hash table: bucket array, application order, and the operations that keep them in step. */
module HashTable {
  import opened Bits
  import opened HashElements
  import opened HashSort
  import opened Sequences

  const INITIAL_NUM_BUCKETS := 32
  const INITIAL_NUM_BUCKETS_LOG2 := 5
  const BKT_CAPACITY_THRESH := 10

  type Hash = int -> nat
  type Chains = seq<seq<Element>>

  // ---------------------------------------------------------------- what the buckets hold

  ghost function Home(hash: Hash, n: nat, x: Element): nat
    requires n > 0
  {
    hash(x.key) % n
  }

  /** Every element sits in the bucket its hash selects. */
  ghost predicate Homed(hash: Hash, c: Chains) {
    forall i, x :: 0 <= i < |c| && x in c[i] ==> Home(hash, |c|, x) == i
  }

  ghost predicate Within(c: Chains, o: seq<Element>) {
    forall i, k :: 0 <= i < |c| && 0 <= k < |c[i]| ==> c[i][k] in o
  }

  /** The chains hold exactly the elements of o. */
  ghost predicate Covers(hash: Hash, c: Chains, o: seq<Element>) {
    && |c| > 0
    && Within(c, o)
    && (forall x :: x in o ==> x in c[Home(hash, |c|, x)])
  }

  ghost function SumLen(c: Chains): nat {
    if c == [] then 0 else SumLen(c[..|c| - 1]) + |c[|c| - 1]|
  }

  lemma {:induction false} SumLenUpdate(c: Chains, j: nat, s: seq<Element>)
    requires j < |c|
    ensures SumLen(c[j := s]) + |c[j]| == SumLen(c) + |s|
  {
    var l := |c| - 1;
    if j < l {
      SumLenUpdate(c[..l], j, s);
      assert c[j := s][..l] == c[..l][j := s];
    } else {
      assert c[j := s][..l] == c[..l];
    }
  }

  lemma {:induction false} SumLenEmpty(c: Chains)
    requires forall i :: 0 <= i < |c| ==> c[i] == []
    ensures SumLen(c) == 0
  {
    if c != [] {
      SumLenEmpty(c[..|c| - 1]);
    }
  }

  lemma {:induction false} EmptyCovered(hash: Hash, c: Chains)
    requires |c| > 0 && forall i :: 0 <= i < |c| ==> c[i] == []
    ensures Covers(hash, c, []) && Homed(hash, c) && SumLen(c) == 0
  {
    SumLenEmpty(c);
  }

  lemma InsertCovered(hash: Hash, c: Chains, o: seq<Element>, e: Element)
    requires Covers(hash, c, o) && Homed(hash, c)
    ensures var j := Home(hash, |c|, e); var c' := c[j := [e] + c[j]];
            Covers(hash, c', o + [e]) && Homed(hash, c') && SumLen(c') == SumLen(c) + 1
  {
    var j := Home(hash, |c|, e);
    SumLenUpdate(c, j, [e] + c[j]);
  }

  lemma RemoveCovered(hash: Hash, c: Chains, o: seq<Element>, k: nat, j: nat, m: nat)
    requires Covers(hash, c, o) && Homed(hash, c) && NoDup(o)
    requires k < |o| && j == Home(hash, |c|, o[k]) && m < |c[j]| && c[j][m] == o[k] && NoDup(c[j])
    ensures var c' := c[j := RemoveAt(c[j], m)];
            Covers(hash, c', RemoveAt(o, k)) && Homed(hash, c') && SumLen(c') == SumLen(c) - 1
  {
    RemoveAtNoDup(o, k);
    RemoveAtNoDup(c[j], m);
    SumLenUpdate(c, j, RemoveAt(c[j], m));
  }

  /** The bucket array heads the chains c and counts their elements. */
  ghost predicate BucketsHead(bs: array<Bucket>, c: Chains, o: seq<Element>)
    requires Within(c, o)
    reads bs, o`hhPrev, o`hhNext
  {
    && bs.Length == |c|
    && forall i :: 0 <= i < |c| ==> Chain(bs[i].head, c[i]) && bs[i].count == |c[i]|
  }

  /** A bucket index computed by masking is the element's home. */
  lemma {:induction false} MaskedIsHome(hash: Hash, x: Element, k: nat)
    ensures And(hash(x.key), Pow2(k) - 1) == Home(hash, Pow2(k), x)
  {
    MaskIsMod(hash(x.key), k);
  }

  /** A zeroed bucket array and the empty chains it heads. */
  method NewBuckets(n: nat) returns (bs: array<Bucket>, ghost c: Chains)
    ensures fresh(bs) && bs.Length == |c| == n
    ensures forall i :: 0 <= i < n ==> bs[i] == EMPTY_BUCKET && c[i] == []
    ensures BucketsHead(bs, c, [])
  {
    bs := new Bucket[n](_ => EMPTY_BUCKET);
    c := seq(n, _ => []);
  }

  ghost predicate NotIn(e: Element, c: Chains) {
    forall i :: 0 <= i < |c| ==> e !in c[i]
  }

  /** The chain at j has no element in common with another chain. */
  ghost predicate Apart(c: Chains, j: nat)
    requires j < |c|
  {
    forall i, x :: 0 <= i < |c| && i != j && x in c[i] ==> x !in c[j]
  }

  lemma HomedApart(hash: Hash, c: Chains, j: nat)
    requires Homed(hash, c) && j < |c|
    ensures Apart(c, j)
  {
    forall i, x | 0 <= i < |c| && i != j && x in c[i] ensures x !in c[j] {
      assert Home(hash, |c|, x) == i;
    }
  }

  lemma FreshElement(c: Chains, o: seq<Element>, e: Element)
    requires Within(c, o) && e !in o
    ensures NotIn(e, c) && Within(c, o + [e])
    ensures forall x :: x in o + [e] <==> x in o || x == e
  {
  }

  /** Unlinks the k-th element of the chain at j and leaves every other chain alone. */
  method RemoveFrom(bs: array<Bucket>, j: nat, d: Element, ghost k: nat, ghost c: Chains, ghost o: seq<Element>)
    requires Within(c, o) && BucketsHead(bs, c, o)
    requires j < |c| && Apart(c, j) && k < |c[j]| && c[j][k] == d
    modifies bs, c[j]`hhPrev, c[j]`hhNext
    ensures Within(c[j := RemoveAt(c[j], k)], o)
    ensures BucketsHead(bs, c[j := RemoveAt(c[j], k)], o)
  {
    var b := DelInBkt(bs[j], d, c[j], k);
    forall i | 0 <= i < |c| && i != j ensures Chain(bs[i].head, c[i]) {
      assert old(Chain(bs[i].head, c[i]));
      assert forall x :: x in c[i] ==> x !in c[j];
      assert forall m :: 0 <= m < |c[i]| ==> c[i][m] in c[i];
    }
    bs[j] := b;
  }

  /** What linking a new element in needs to know, and the account it leaves. */
  lemma LinkReady(hash: Hash, bs: array<Bucket>, c: Chains, o: seq<Element>, e: Element)
    requires Covers(hash, c, o) && Homed(hash, c) && BucketsHead(bs, c, o) && e !in o
    ensures var j := Home(hash, |c|, e);
            && j < |c| && Apart(c, j) && NotIn(e, c) && Within(c, o + [e]) && BucketsHead(bs, c, o + [e])
            && (forall k :: 0 <= k < |c[j]| ==> c[j][k] in o)
            && (forall x :: x in o + [e] <==> x in o || x == e)
            && var c' := c[j := [e] + c[j]];
               Covers(hash, c', o + [e]) && Homed(hash, c') && SumLen(c') == SumLen(c) + 1
  {
    HomedApart(hash, c, Home(hash, |c|, e));
    FreshElement(c, o, e);
    InsertCovered(hash, c, o, e);
    hide Covers, Homed, Apart, NotIn, SumLen, Chain;
  }

  /** Pushes e onto the chain at j and leaves every other chain alone. */
  method PushAt(bs: array<Bucket>, j: nat, e: Element, ghost c: Chains, ghost o: seq<Element>)
    requires Within(c, o) && BucketsHead(bs, c, o) && e in o && NotIn(e, c)
    requires j < |c| && Apart(c, j)
    modifies bs, e`hhPrev, e`hhNext, c[j]`hhPrev
    ensures Within(c[j := [e] + c[j]], o)
    ensures BucketsHead(bs, c[j := [e] + c[j]], o)
    ensures forall i :: 0 <= i < |c| && i != j ==> bs[i] == old(bs[i])
    ensures bs[j].expandMult == old(bs[j].expandMult)
  {
    var b := PushFront(bs[j], e, c[j]);
    forall i | 0 <= i < |c| && i != j ensures Chain(bs[i].head, c[i]) {
      assert old(Chain(bs[i].head, c[i]));
      assert forall x :: x in c[i] ==> x !in c[j] && x != e;
      assert forall k :: 0 <= k < |c[i]| ==> c[i][k] in c[i];
    }
    bs[j] := b;
  }

  // ---------------------------------------------------------------- bucket expansion

  /** The elements of s that go to bucket j of n, in the order in which pushing them to the
      front one after the other leaves them. */
  ghost function Split(hash: Hash, s: seq<Element>, j: nat, n: nat): seq<Element>
    requires n > 0
  {
    if s == [] then []
    else
      var l := |s| - 1;
      if Home(hash, n, s[l]) == j then [s[l]] + Split(hash, s[..l], j, n) else Split(hash, s[..l], j, n)
  }

  lemma {:induction false} SplitMembers(hash: Hash, s: seq<Element>, j: nat, n: nat, x: Element)
    requires n > 0
    ensures x in Split(hash, s, j, n) <==> x in s && Home(hash, n, x) == j
  {
    if s != [] {
      var l := |s| - 1;
      SplitMembers(hash, s[..l], j, n, x);
      assert s == s[..l] + [s[l]];
    }
  }

  lemma {:induction false} SplitLengths(hash: Hash, s: seq<Element>, i: nat, n: nat)
    requires i < n && forall x :: x in s ==> Home(hash, n, x) == i
    ensures |Split(hash, s, i, 2 * n)| + |Split(hash, s, n + i, 2 * n)| == |s|
  {
    if s != [] {
      var l := |s| - 1;
      SplitLengths(hash, s[..l], i, n);
      ModDouble(hash(s[l].key), n);
      assert Home(hash, n, s[l]) == i;
    }
  }

  /** How many elements of a chain lie beyond the ideal length. */
  function Excess(len: nat, ideal: nat): nat {
    if len > ideal then len - ideal else 0
  }

  /** These are the elements left when the ideal number of them is taken away. */
  lemma ExcessIsLeft(s: seq<Element>, ideal: nat)
    ensures Excess(|s|, ideal) == |s[if ideal < |s| then ideal else |s|..]|
  {
  }

  ghost function SumExcess(c: Chains, ideal: nat): nat {
    if c == [] then 0 else SumExcess(c[..|c| - 1], ideal) + Excess(|c[|c| - 1]|, ideal)
  }

  lemma {:induction false} SumExcessUpdate(c: Chains, ideal: nat, j: nat, s: seq<Element>)
    requires j < |c|
    ensures SumExcess(c[j := s], ideal) + Excess(|c[j]|, ideal) == SumExcess(c, ideal) + Excess(|s|, ideal)
  {
    var l := |c| - 1;
    if j < l {
      SumExcessUpdate(c[..l], ideal, j, s);
      assert c[j := s][..l] == c[..l][j := s];
    } else {
      assert c[j := s][..l] == c[..l];
    }
  }

  lemma {:induction false} SumExcessEmpty(c: Chains, ideal: nat)
    requires forall i :: 0 <= i < |c| ==> c[i] == []
    ensures SumExcess(c, ideal) == 0
  {
    if c != [] {
      SumExcessEmpty(c[..|c| - 1], ideal);
    }
  }

  /** A bucket longer than the ideal carries the multiple by which it is longer. */
  ghost predicate MultiplesSet(bs: array<Bucket>, ideal: nat)
    requires ideal > 0
    reads bs
  {
    forall i :: 0 <= i < bs.Length ==>
      bs[i].expandMult == if bs[i].count > ideal then bs[i].count / ideal else 0
  }

  /** Moves one element to bucket j of the new array and accounts for its chain position. */
  method Rehome(bs: array<Bucket>, j: nat, e: Element, ideal: nat, nonideal: nat,
                ghost c: Chains, ghost o: seq<Element>)
    returns (nonideal': nat)
    requires Within(c, o) && BucketsHead(bs, c, o) && e in o && NotIn(e, c)
    requires j < |c| && Apart(c, j)
    requires ideal > 0 && MultiplesSet(bs, ideal) && nonideal == SumExcess(c, ideal)
    modifies bs, e`hhPrev, e`hhNext, c[j]`hhPrev
    ensures var c' := c[j := [e] + c[j]];
            Within(c', o) && BucketsHead(bs, c', o) && nonideal' == SumExcess(c', ideal)
    ensures MultiplesSet(bs, ideal)
  {
    nonideal' := nonideal;
    PushAt(bs, j, e, c, o);
    SumExcessUpdate(c, ideal, j, [e] + c[j]);
    if bs[j].count > ideal {
      nonideal' := nonideal' + 1;
      bs[j] := bs[j].(expandMult := bs[j].count / ideal);
    }
  }

  /** The new chains after the first m elements of old chain i have been moved. */
  ghost function SplitInto(hash: Hash, c: Chains, s: seq<Element>, i: nat, n: nat): (r: Chains)
    requires i < n && |c| == 2 * n
    ensures |r| == |c|
    ensures r[i] == Split(hash, s, i, 2 * n) && r[n + i] == Split(hash, s, n + i, 2 * n)
    ensures forall k :: 0 <= k < 2 * n && k != i && k != n + i ==> r[k] == c[k]
  {
    c[i := Split(hash, s, i, 2 * n)][n + i := Split(hash, s, n + i, 2 * n)]
  }

  /** No element of s is in a chain of c. */
  ghost predicate Unmoved(s: seq<Element>, c: Chains) {
    forall k, x :: 0 <= k < |c| && x in c[k] ==> x !in s
  }

  lemma SplitIntoApart(hash: Hash, c: Chains, s: seq<Element>, i: nat, n: nat, j: nat)
    requires i < n && |c| == 2 * n && Unmoved(s, c) && (j == i || j == n + i)
    ensures Apart(SplitInto(hash, c, s, i, n), j)
  {
    var r := SplitInto(hash, c, s, i, n);
    forall k, x | 0 <= k < |r| && k != j && x in r[k] ensures x !in r[j] {
      SplitMembers(hash, s, j, 2 * n, x);
      if k == i || k == n + i {
        SplitMembers(hash, s, k, 2 * n, x);
      } else {
        assert x in c[k];
      }
    }
  }

  lemma SplitIntoFresh(hash: Hash, c: Chains, s: seq<Element>, i: nat, n: nat, e: Element)
    requires i < n && |c| == 2 * n && e !in s && NotIn(e, c)
    ensures NotIn(e, SplitInto(hash, c, s, i, n))
  {
    SplitMembers(hash, s, i, 2 * n, e);
    SplitMembers(hash, s, n + i, 2 * n, e);
  }

  lemma SplitIntoStep(hash: Hash, c: Chains, s: seq<Element>, i: nat, n: nat, m: nat)
    requires i < n && |c| == 2 * n && m < |s| && Home(hash, n, s[m]) == i
    ensures var r := SplitInto(hash, c, s[..m], i, n); var j := Home(hash, 2 * n, s[m]);
            (j == i || j == n + i) && r[j := [s[m]] + r[j]] == SplitInto(hash, c, s[..m + 1], i, n)
  {
    ModDouble(hash(s[m].key), n);
    assert s[..m + 1][..m] == s[..m];
  }

  /** The state of an expansion: the new array heads the chains c, and its excess is accounted for. */
  ghost predicate Moved(bs: array<Bucket>, c: Chains, o: seq<Element>, ideal: nat, nonideal: nat)
    requires ideal > 0
    reads bs, o`hhPrev, o`hhNext
  {
    Within(c, o) && BucketsHead(bs, c, o) && MultiplesSet(bs, ideal) && nonideal == SumExcess(c, ideal)
  }

  lemma SplitIntoWithin(hash: Hash, c: Chains, s: seq<Element>, i: nat, n: nat, j: nat, m: nat)
    requires i < n && |c| == 2 * n && (j == i || j == n + i) && m <= |s|
    ensures forall x :: x in SplitInto(hash, c, s[..m], i, n)[j] ==> x in s
  {
    forall x | x in SplitInto(hash, c, s[..m], i, n)[j] ensures x in s {
      SplitMembers(hash, s[..m], j, 2 * n, x);
    }
  }

  lemma {:induction false} MaskedIsNewHome(hash: Hash, x: Element, n: nat, lg: nat)
    requires n == Pow2(lg)
    ensures And(hash(x.key), 2 * n - 1) == Home(hash, 2 * n, x)
  {
    MaskedIsHome(hash, x, lg + 1);
  }

  /** Why the next element can be pushed onto the chain of its new bucket j. */
  lemma MoveIsSafe(hash: Hash, c: Chains, s: seq<Element>, i: nat, n: nat, m: nat, j: nat)
    requires i < n && |c| == 2 * n && Unmoved(s, c)
    requires m < |s| && s[m] !in s[..m] && Home(hash, n, s[m]) == i && j == Home(hash, 2 * n, s[m])
    ensures var r := SplitInto(hash, c, s[..m], i, n);
            && j < |r| && NotIn(s[m], r) && Apart(r, j)
            && (forall k :: 0 <= k < |r[j]| ==> r[j][k] in s)
            && r[j := [s[m]] + r[j]] == SplitInto(hash, c, s[..m + 1], i, n)
  {
    SplitIntoStep(hash, c, s, i, n, m);
    SplitIntoWithin(hash, c, s, i, n, j, m);
    assert s[m] in s;
    forall k, x | 0 <= k < |c| && x in c[k] ensures x !in s[..m] {
      assert x !in s;
    }
    SplitIntoApart(hash, c, s[..m], i, n, j);
    SplitIntoFresh(hash, c, s[..m], i, n, s[m]);
  }

  /** Moves the m-th element of old chain i; its successors stay linked behind it. */
  method MoveNext(hash: Hash, bs: array<Bucket>, i: nat, n: nat, p: Element, ideal: nat, nonideal: nat,
                  ghost lg: nat, ghost m: nat, ghost s: seq<Element>, ghost c: Chains, ghost o: seq<Element>)
    returns (nonideal': nat)
    requires n == Pow2(lg) && i < n && |c| == 2 * n && Unmoved(s, c)
    requires m < |s| && p == s[m] && p !in s[..m] && p in o
    requires Home(hash, n, p) == i && p.hashv == hash(p.key)
    requires ideal > 0 && Moved(bs, SplitInto(hash, c, s[..m], i, n), o, ideal, nonideal)
    modifies bs, p`hhNext, s`hhPrev
    ensures Moved(bs, SplitInto(hash, c, s[..m + 1], i, n), o, ideal, nonideal')
  {
    var bkt := And(p.hashv, 2 * n - 1);
    MaskedIsNewHome(hash, p, n, lg);
    MoveIsSafe(hash, c, s, i, n, m, bkt);
    nonideal' := Rehome(bs, bkt, p, ideal, nonideal, SplitInto(hash, c, s[..m], i, n), o);
  }

  /** Moves the chain s of old bucket i into buckets i and n + i of the new array. */
  method SplitChain(hash: Hash, bs: array<Bucket>, i: nat, n: nat, thh: Element?, ideal: nat, nonideal: nat,
                    ghost lg: nat, ghost s: seq<Element>, ghost c: Chains, ghost o: seq<Element>)
    returns (nonideal': nat)
    requires n == Pow2(lg) && i < n && |c| == 2 * n && c[i] == [] == c[n + i] && Unmoved(s, c)
    requires ideal > 0 && Moved(bs, c, o, ideal, nonideal)
    requires NoDup(s) && thh == At(s, 0)
    requires forall k {:trigger s[k].hhNext} :: 0 <= k < |s| ==> s[k].hhNext == At(s, k + 1)
    requires forall x :: x in s ==> x in o && Home(hash, n, x) == i && x.hashv == hash(x.key)
    modifies bs, s`hhPrev, s`hhNext
    ensures Moved(bs, SplitInto(hash, c, s, i, n), o, ideal, nonideal')
  {
    nonideal' := nonideal;
    var p := thh;
    ghost var m := 0;
    assert SplitInto(hash, c, s[..0], i, n) == c;
    while p != null
      invariant 0 <= m <= |s| && p == At(s, m)
      invariant Moved(bs, SplitInto(hash, c, s[..m], i, n), o, ideal, nonideal')
      invariant forall k {:trigger s[k].hhNext} :: m <= k < |s| ==> s[k].hhNext == At(s, k + 1)
      decreases |s| - m
    {
      var nxt := p.hhNext;
      nonideal' := MoveNext(hash, bs, i, n, p, ideal, nonideal', lg, m, s, c, o);
      p, m := nxt, m + 1;
    }
    assert s[..m] == s;
  }

  /** r is c with the chains below i split between the old bucket and its new sibling. */
  ghost predicate PartlySplit(hash: Hash, c: Chains, r: Chains, i: nat) {
    var n := |c|;
    && n > 0 && |r| == 2 * n
    && (forall k :: 0 <= k < n && k < i ==>
          r[k] == Split(hash, c[k], k, 2 * n) && r[n + k] == Split(hash, c[k], n + k, 2 * n))
    && (forall k :: i <= k < n ==> r[k] == [])
    && (forall k :: n + i <= k < 2 * n ==> r[k] == [])
  }

  /** r is the bucket array c expanded: old bucket k went to buckets k and |c| + k only. */
  ghost predicate IsExpansion(hash: Hash, c: Chains, r: Chains) {
    PartlySplit(hash, c, r, |c|)
  }

  lemma SplitOrigin(hash: Hash, c: Chains, r: Chains, i: nat, k: nat, x: Element)
    requires PartlySplit(hash, c, r, i) && k < |r| && x in r[k]
    ensures var k0 := if k < |c| then k else k - |c|;
            k0 < i && x in c[k0] && Home(hash, |r|, x) == k
  {
    var n := |c|;
    if k < n {
      SplitMembers(hash, c[k], k, 2 * n, x);
    } else {
      assert r[n + (k - n)] == r[k];
      SplitMembers(hash, c[k - n], k, 2 * n, x);
    }
  }

  lemma NotYetMoved(hash: Hash, c: Chains, r: Chains, i: nat)
    requires Homed(hash, c) && PartlySplit(hash, c, r, i) && i < |c|
    ensures Unmoved(c[i], r) && r[i] == [] == r[|c| + i]
  {
    forall k, x | 0 <= k < |r| && x in r[k] ensures x !in c[i] {
      SplitOrigin(hash, c, r, i, k, x);
      assert Home(hash, |c|, x) == if k < |c| then k else k - |c|;
    }
  }

  lemma SplitIntoNext(hash: Hash, c: Chains, r: Chains, i: nat)
    requires PartlySplit(hash, c, r, i) && i < |c|
    ensures PartlySplit(hash, c, SplitInto(hash, r, c[i], i, |c|), i + 1)
  {
  }

  lemma {:induction false} SumLenHalves(a: Chains, b: Chains, c: Chains)
    requires |a| == |b| == |c| && forall k :: 0 <= k < |c| ==> |a[k]| + |b[k]| == |c[k]|
    ensures SumLen(a) + SumLen(b) == SumLen(c)
  {
    if c != [] {
      var l := |c| - 1;
      SumLenHalves(a[..l], b[..l], c[..l]);
    }
  }

  lemma {:induction false} SumLenConcat(a: Chains, b: Chains)
    ensures SumLen(a + b) == SumLen(a) + SumLen(b)
  {
    if b == [] {
      assert a + b == a;
    } else {
      var l := |b| - 1;
      SumLenConcat(a, b[..l]);
      assert (a + b)[..|a + b| - 1] == a + b[..l];
    }
  }

  lemma {:induction false} ExpansionSize(hash: Hash, c: Chains, r: Chains)
    requires Homed(hash, c) && IsExpansion(hash, c, r)
    ensures SumLen(r) == SumLen(c)
  {
    var n := |c|;
    var a, b := r[..n], r[n..];
    forall k | 0 <= k < n ensures |a[k]| + |b[k]| == |c[k]| {
      SplitLengths(hash, c[k], k, n);
      assert b[k] == r[n + k];
    }
    SumLenHalves(a, b, c);
    SumLenConcat(a, b);
    assert r == a + b;
  }

  lemma {:induction false} ExpansionCovers(hash: Hash, c: Chains, r: Chains, o: seq<Element>)
    requires Covers(hash, c, o) && Homed(hash, c) && IsExpansion(hash, c, r) && Within(r, o)
    ensures |r| == 2 * |c| && Covers(hash, r, o) && Homed(hash, r) && SumLen(r) == SumLen(c)
  {
    var n := |c|;
    ExpansionSize(hash, c, r);
    forall i, x | 0 <= i < |r| && x in r[i] ensures Home(hash, |r|, x) == i {
      SplitOrigin(hash, c, r, n, i, x);
    }
    forall x | x in o ensures x in r[Home(hash, |r|, x)] {
      var i := Home(hash, n, x);
      var j := Home(hash, 2 * n, x);
      ModDouble(hash(x.key), n);
      SplitMembers(hash, c[i], j, 2 * n, x);
    }
  }

  lemma ChainForward(h: Element?, s: seq<Element>)
    requires Chain(h, s)
    ensures NoDup(s) && h == At(s, 0)
    ensures forall k {:trigger s[k].hhNext} :: 0 <= k < |s| ==> s[k].hhNext == At(s, k + 1)
  {
  }

  /** The chains at i and above are still those of the old array. */
  ghost predicate Untouched(bs: array<Bucket>, c: Chains, o: seq<Element>, i: nat)
    requires Within(c, o)
    reads bs, o`hhPrev, o`hhNext
  {
    bs.Length == |c| && forall k :: i <= k < |c| ==> Chain(bs[k].head, c[k])
  }

  /** A zeroed array of twice n buckets, ready to receive the chains c. */
  method NewExpansion(hash: Hash, n: nat, ideal: nat, ghost c: Chains, ghost o: seq<Element>)
    returns (bs: array<Bucket>, ghost r: Chains)
    requires n == |c| > 0 && ideal > 0
    ensures fresh(bs) && bs.Length == 2 * n == |r|
    ensures PartlySplit(hash, c, r, 0) && Moved(bs, r, o, ideal, 0)
  {
    bs, r := NewBuckets(2 * n);
    SumExcessEmpty(r, ideal);
  }

  /** Moves old chain i to the new array and leaves the chains above it alone. */
  method RedistributeOne(hash: Hash, old0: array<Bucket>, bs: array<Bucket>, i: nat, n: nat, ideal: nat, nonideal: nat,
                         ghost lg: nat, ghost c: Chains, ghost r: Chains, ghost o: seq<Element>)
    returns (nonideal': nat)
    requires old0 != bs && i < n == Pow2(lg) == |c|
    requires Covers(hash, c, o) && Homed(hash, c)
    requires forall x :: x in o ==> x.hashv == hash(x.key)
    requires PartlySplit(hash, c, r, i) && ideal > 0 && Moved(bs, r, o, ideal, nonideal)
    requires Untouched(old0, c, o, i)
    modifies bs, c[i]`hhPrev, c[i]`hhNext
    ensures Moved(bs, SplitInto(hash, r, c[i], i, n), o, ideal, nonideal')
    ensures Untouched(old0, c, o, i + 1)
  {
    NotYetMoved(hash, c, r, i);
    ChainForward(old0[i].head, c[i]);
    HomedApart(hash, c, i);
    forall k, m | i + 1 <= k < |c| && 0 <= m < |c[k]| ensures c[k][m] !in c[i] {
      assert c[k][m] in c[k];
    }
    hide Moved, PartlySplit, SplitInto, Apart, Homed;
    nonideal' := SplitChain(hash, bs, i, n, old0[i].head, ideal, nonideal, lg, c[i], r, o);
    forall k | i + 1 <= k < |c| ensures Chain(old0[k].head, c[k]) {
      assert old(Chain(old0[k].head, c[k]));
    }
  }

  /** Moves every chain of the old array to the new one. */
  method Redistribute(hash: Hash, old0: array<Bucket>, bs: array<Bucket>, n: nat, ideal: nat,
                      ghost lg: nat, ghost c: Chains, ghost r0: Chains, ghost o: seq<Element>)
    returns (nonideal: nat, ghost r: Chains)
    requires old0 != bs && n == Pow2(lg) == |c|
    requires Covers(hash, c, o) && Homed(hash, c) && BucketsHead(old0, c, o)
    requires forall x :: x in o ==> x.hashv == hash(x.key)
    requires PartlySplit(hash, c, r0, 0) && ideal > 0 && Moved(bs, r0, o, ideal, 0)
    modifies bs, o`hhPrev, o`hhNext
    ensures IsExpansion(hash, c, r) && Within(r, o)
    ensures Moved(bs, r, o, ideal, nonideal)
  {
    nonideal, r := 0, r0;
    var i := 0;
    while i < n
      invariant 0 <= i <= n
      invariant PartlySplit(hash, c, r, i)
      invariant Moved(bs, r, o, ideal, nonideal)
      invariant Untouched(old0, c, o, i)
    {
      nonideal := RedistributeOne(hash, old0, bs, i, n, ideal, nonideal, lg, c, r, o);
      SplitIntoNext(hash, c, r, i);
      r := SplitInto(hash, r, c[i], i, n);
      i := i + 1;
    }
  }

  lemma IdealPositive(items: nat, b: nat)
    requires items > 0 && b > 0
    ensures (items + b - 1) / b > 0
  {
    var q := (items + b - 1) / b;
    assert b * q > 0;
  }

  /** The ideal chain length for twice n buckets, by shift and mask. */
  method IdealLength(items: nat, n: nat, lg: nat) returns (ideal: nat)
    requires items > 0 && n == Pow2(lg)
    ensures ideal == (items + 2 * n - 1) / (2 * n) > 0
  {
    ideal := ShiftRight(items, lg + 1) + (if And(items, n * 2 - 1) != 0 then 1 else 0);
    CeilDiv(items, lg + 1);
    IdealPositive(items, 2 * n);
  }

  lemma LastOne(h: Element?, t: Element?, o: seq<Element>, k: nat)
    requires AppList(h, t, o) && k < |o|
    ensures NoDup(o)
    ensures (o[k].prev == null && o[k].next == null) == (|o| == 1)
  {
  }

  lemma Reordered(hash: Hash, c: Chains, o: seq<Element>, r: seq<Element>)
    requires Covers(hash, c, o) && SameMembers(r, o)
    ensures Covers(hash, c, r)
  {
  }

  lemma InitialSize()
    ensures Pow2(INITIAL_NUM_BUCKETS_LOG2) == INITIAL_NUM_BUCKETS
  {
    assert Pow2(2) == 4;
  }

  class Table {
    const hash: Hash
    var head: Element?
    var tail: Element?
    var buckets: array<Bucket>
    var numBuckets: nat
    var log2NumBuckets: nat
    var numItems: nat
    var idealChainMaxlen: nat
    var nonidealItems: nat
    var ineffExpands: nat
    var noexpand: nat
    ghost var order: seq<Element>
    ghost var chains: Chains

    /** Everything the table says about its bucket array, for the elements o. */
    ghost predicate BucketPart(o: seq<Element>)
      reads this`buckets, this`numBuckets, this`log2NumBuckets, this`chains
      reads buckets, o`hhPrev, o`hhNext, o`hashv
    {
      && numBuckets == Pow2(log2NumBuckets) == |chains|
      && Covers(hash, chains, o) && Homed(hash, chains) && SumLen(chains) == |o|
      && BucketsHead(buckets, chains, o)
      && (forall x :: x in o ==> x.hashv == hash(x.key))
    }

    ghost predicate OrderPart(o: seq<Element>)
      reads this`head, this`tail, o`prev, o`next
    {
      if o == [] then head == null else AppList(head, tail, o)
    }

    ghost predicate Valid()
      reads this, buckets, order
    {
      && OrderPart(order)
      && (order != [] ==> BucketPart(order) && numItems == |order|)
    }

    /** Valid() taken apart, and put together again. */
    lemma ValidParts()
      requires Valid()
      ensures OrderPart(order) && (head == null <==> order == [])
      ensures order != [] ==> BucketPart(order) && numItems == |order|
    {
    }

    lemma EmptyIsValid()
      requires order == [] && head == null
      ensures Valid()
    {
    }

    lemma PartsValid()
      requires OrderPart(order) && (order != [] ==> BucketPart(order) && numItems == |order|)
      ensures Valid()
    {
    }

    constructor (hash: Hash)
      ensures Valid() && order == [] && this.hash == hash && fresh(buckets)
    {
      this.hash := hash;
      head, tail := null, null;
      buckets := new Bucket[0];
      order, chains := [], [];
    }

    /** Sets up an empty table of the initial size. */
    method MakeTable()
      modifies this`buckets, this`numBuckets, this`log2NumBuckets, this`numItems, this`chains
      modifies this`idealChainMaxlen, this`nonidealItems, this`ineffExpands, this`noexpand
      ensures BucketPart([]) && numItems == 0 && fresh(buckets)
      ensures noexpand == 0 && ineffExpands == 0
    {
      numBuckets, log2NumBuckets := INITIAL_NUM_BUCKETS, INITIAL_NUM_BUCKETS_LOG2;
      InitialSize();
      buckets, chains := NewBuckets(INITIAL_NUM_BUCKETS);
      numItems, idealChainMaxlen, nonidealItems, ineffExpands, noexpand := 0, 0, 0, 0, 0;
      EmptyCovered(hash, chains);
    }

    /** The element with key k, or null when there is none. */
    method Find(k: int) returns (out: Element?)
      requires Valid()
      ensures out != null ==> out in order && out.key == k
      ensures out == null ==> forall x :: x in order ==> x.key != k
    {
      out := null;
      if head != null {
        var bkt := And(hash(k), numBuckets - 1);
        MaskIsMod(hash(k), log2NumBuckets);
        out := buckets[bkt].head;
        ghost var c := chains[bkt];
        ghost var i := 0;
        while out != null
          invariant 0 <= i <= |c| && out == At(c, i)
          invariant forall j :: 0 <= j < i ==> c[j].key != k
          decreases |c| - i
        {
          if out.key == k {
            break;
          }
          out := out.hhNext;
          i := i + 1;
        }
      }
    }

    /** Appends e to the application order. */
    method AppendOrder(e: Element, ghost o: seq<Element>)
      requires OrderPart(o) && e !in o && o != []
      requires e.next == null
      modifies this`tail, e`prev, o`next
      ensures OrderPart(o + [e])
    {
      tail.next := e;
      e.prev := tail;
      tail := e;
      AppAppended(head, o, e);
    }

    /** Links e in at the front of its bucket's chain. */
    method Link(bkt: nat, e: Element, ghost o: seq<Element>)
      requires BucketPart(o) && e !in o && e.hashv == hash(e.key) && bkt == Home(hash, |chains|, e)
      modifies this`chains, buckets, e`hhPrev, e`hhNext, o`hhPrev
      ensures BucketPart(o + [e])
      ensures chains == old(chains)[bkt := [e] + old(chains)[bkt]]
      ensures buckets[bkt].expandMult == old(buckets[bkt].expandMult)
    {
      ghost var c := chains;
      hide *;
      BucketParts(o);
      LinkReady(hash, buckets, c, o, e);
      PushAt(buckets, bkt, e, c, o + [e]);
      chains := c[bkt := [e] + c[bkt]];
      CountedPart(o + [e]);
    }

    /** BucketPart() taken apart, and put together again. */
    lemma BucketParts(o: seq<Element>)
      requires BucketPart(o)
      ensures numBuckets == Pow2(log2NumBuckets) == |chains| > 0
      ensures Covers(hash, chains, o) && Homed(hash, chains) && SumLen(chains) == |o| && Within(chains, o)
      ensures BucketsHead(buckets, chains, o)
      ensures forall x :: x in o ==> x.hashv == hash(x.key)
    {
    }

    lemma CountedPart(o: seq<Element>)
      requires numBuckets == Pow2(log2NumBuckets) == |chains|
      requires Covers(hash, chains, o) && Homed(hash, chains) && SumLen(chains) == |o| && Within(chains, o)
      requires BucketsHead(buckets, chains, o)
      requires forall x :: x in o ==> x.hashv == hash(x.key)
      ensures BucketPart(o)
    {
    }

    /** The outcome of an expansion of the chains c: where every element went, the ideal chain
        length, how many elements lie beyond it, and the capacity multiples of long buckets. */
    ghost predicate Expanded(c: Chains, o: seq<Element>)
      requires Within(chains, o)
      reads this`buckets, this`numBuckets, this`log2NumBuckets, this`chains
      reads this`idealChainMaxlen, this`nonidealItems, this`numItems
      reads buckets, o`hhPrev, o`hhNext
    {
      && numBuckets == 2 * |c| && IsExpansion(hash, c, chains)
      && idealChainMaxlen == (numItems + numBuckets - 1) / numBuckets > 0
      && Moved(buckets, chains, o, idealChainMaxlen, nonidealItems)
    }

    /** Inhibits further expansion after two ineffective ones in a row. */
    method JudgeExpansion()
      modifies this`ineffExpands, this`noexpand
      ensures ineffExpands == if nonidealItems > numItems / 2 then old(ineffExpands) + 1 else 0
      ensures noexpand == if ineffExpands > 1 then 1 else old(noexpand)
    {
      ShiftIsDiv(numItems, 1);
      assert Pow2(1) == 2;
      ineffExpands := if nonidealItems > ShiftRight(numItems, 1) then ineffExpands + 1 else 0;
      if ineffExpands > 1 {
        noexpand := 1;
      }
    }

    /** Replaces the bucket array by one twice its size. */
    method Install(bs: array<Bucket>, ideal: nat, nonideal: nat, ghost r: Chains, ghost o: seq<Element>)
      requires numBuckets == Pow2(log2NumBuckets) && |r| == 2 * numBuckets
      requires ideal > 0 && Moved(bs, r, o, ideal, nonideal)
      requires Covers(hash, r, o) && Homed(hash, r) && SumLen(r) == |o|
      requires forall x :: x in o ==> x.hashv == hash(x.key)
      modifies this`idealChainMaxlen, this`nonidealItems
      modifies this`numBuckets, this`log2NumBuckets, this`buckets, this`chains
      ensures BucketPart(o)
      ensures idealChainMaxlen == ideal && nonidealItems == nonideal && buckets == bs && chains == r
      ensures numBuckets == 2 * old(numBuckets)
      ensures Moved(bs, r, o, ideal, nonideal)
    {
      hide Covers, Homed, Within, BucketsHead, SumLen, SumExcess, MultiplesSet;
      idealChainMaxlen, nonidealItems := ideal, nonideal;
      numBuckets, log2NumBuckets, buckets, chains := numBuckets * 2, log2NumBuckets + 1, bs, r;
    }

    /** Doubles the bucket array and redistributes every chain. */
    method DoubleBuckets(ghost o: seq<Element>)
      requires BucketPart(o) && numItems == |o| > 0
      modifies this`buckets, this`numBuckets, this`log2NumBuckets, this`chains
      modifies this`idealChainMaxlen, this`nonidealItems
      modifies o`hhPrev, o`hhNext
      ensures BucketPart(o) && fresh(buckets)
      ensures Expanded(old(chains), o)
    {
      hide Covers, Homed, Within, BucketsHead, SumLen, Moved, PartlySplit, IsExpansion, Pow2;
      ghost var c := chains;
      var ideal := IdealLength(numItems, numBuckets, log2NumBuckets);
      var bs, r := NewExpansion(hash, numBuckets, ideal, c, o);
      var nonideal;
      nonideal, r := Redistribute(hash, buckets, bs, numBuckets, ideal, log2NumBuckets, c, r, o);
      ExpansionCovers(hash, c, r, o);
      Install(bs, ideal, nonideal, r, o);
    }

    /** Expands the bucket array and records how effective that was. */
    method ExpandBuckets(ghost o: seq<Element>)
      requires BucketPart(o) && numItems == |o| > 0
      modifies this`buckets, this`numBuckets, this`log2NumBuckets, this`chains
      modifies this`idealChainMaxlen, this`nonidealItems, this`ineffExpands, this`noexpand
      modifies o`hhPrev, o`hhNext
      ensures BucketPart(o) && fresh(buckets)
      ensures Expanded(old(chains), o)
      ensures ineffExpands == if nonidealItems > numItems / 2 then old(ineffExpands) + 1 else 0
      ensures noexpand == if ineffExpands > 1 then 1 else old(noexpand)
    {
      hide *;
      DoubleBuckets(o);
      JudgeExpansion();
    }

    /** Links e into its bucket and expands the array when the bucket has reached its capacity. */
    method AddToBkt(bkt: nat, e: Element, ghost o: seq<Element>)
      requires BucketPart(o) && e !in o && e.hashv == hash(e.key) && bkt == Home(hash, |chains|, e)
      requires numItems == |o| + 1
      modifies this`buckets, this`numBuckets, this`log2NumBuckets, this`chains
      modifies this`idealChainMaxlen, this`nonidealItems, this`ineffExpands, this`noexpand
      modifies buckets, e`hhPrev, e`hhNext, o`hhPrev, o`hhNext
      ensures BucketPart(o + [e])
      ensures var linked := old(chains)[bkt := [e] + old(chains)[bkt]];
              if |linked[bkt]| >= (old(buckets[bkt].expandMult) + 1) * BKT_CAPACITY_THRESH && old(noexpand) != 1
              then Expanded(linked, o + [e])
              else chains == linked && buckets == old(buckets)
      ensures buckets == old(buckets) || fresh(buckets)
    {
      hide Covers, Homed, Within, SumLen, Expanded;
      Link(bkt, e, o);
      assert buckets[bkt].count == |chains[bkt]|;
      if buckets[bkt].count >= (buckets[bkt].expandMult + 1) * BKT_CAPACITY_THRESH && noexpand != 1 {
        ExpandBuckets(o + [e]);
      }
    }

    lemma EmptyOrder(o: seq<Element>)
      requires OrderPart(o)
      ensures head == null <==> o == []
      ensures o != [] ==> NextList(head, o) && NoDup(o)
    {
    }

    lemma OnlyElement(e: Element)
      requires head == tail == e && e.prev == null && e.next == null
      ensures OrderPart([e])
    {
    }

    /** Makes e the only element of the application order, and sets up the table. */
    method EnrollFirst(e: Element)
      requires e.next == null
      modifies this, e`prev
      ensures OrderPart([e]) && BucketPart([]) && numItems == 0 && order == old(order) && fresh(buckets)
    {
      hide *;
      head := e;
      e.prev := null;
      tail := e;
      MakeTable();
      OnlyElement(e);
    }

    /** Makes room for e in the application order, setting up the table for the first element. */
    method Enroll(e: Element, ghost o: seq<Element>)
      requires OrderPart(o) && (o != [] ==> BucketPart(o) && numItems == |o|) && e !in o
      modifies this, e`prev, e`next, o`next
      ensures OrderPart(o + [e]) && BucketPart(o) && numItems == |o| + 1 && order == old(order)
      ensures o != [] ==> unchanged(this`buckets) && numBuckets == old(numBuckets) && chains == old(chains)
      ensures o == [] ==> fresh(buckets)
    {
      hide *;
      EmptyOrder(o);
      e.next := null;
      if head == null {
        EnrollFirst(e);
        assert o + [e] == [e];
      } else {
        AppendOrder(e, o);
      }
      numItems := numItems + 1;
    }

    /** Hashes e and puts it into its bucket. */
    method PlaceInBucket(e: Element, ghost o: seq<Element>)
      requires BucketPart(o) && e !in o && numItems == |o| + 1
      modifies this`buckets, this`numBuckets, this`log2NumBuckets, this`chains
      modifies this`idealChainMaxlen, this`nonidealItems, this`ineffExpands, this`noexpand
      modifies buckets, e`hashv, e`hhPrev, e`hhNext, o`hhPrev, o`hhNext
      ensures BucketPart(o + [e]) && (buckets == old(buckets) || fresh(buckets))
    {
      MaskedIsHome(hash, e, log2NumBuckets);
      hide Covers, Homed, Within, BucketsHead, SumLen;
      e.hashv := hash(e.key);
      var bkt := And(e.hashv, numBuckets - 1);
      AddToBkt(bkt, e, o);
    }

    /** Adds an element that is not in the table, behind all the others. */
    method Add(e: Element)
      requires Valid() && e !in order
      modifies this, buckets, order, e
      ensures Valid() && order == old(order) + [e]
      ensures buckets == old(buckets) || fresh(buckets)
    {
      ghost var o := order;
      hide BucketPart, OrderPart;
      Enroll(e, o);
      PlaceInBucket(e, o);
      order := o + [e];
    }

    /** Unlinks d, the k-th element, from the application order. */
    method UnlinkOrder(d: Element, ghost k: nat, ghost o: seq<Element>)
      requires |o| > 1 && OrderPart(o) && k < |o| && o[k] == d
      modifies this`head, this`tail, o`prev, o`next
      ensures OrderPart(RemoveAt(o, k))
    {
      if d == tail {
        tail := d.prev;
      }
      if d.prev != null {
        d.prev.next := d.next;
      } else {
        head := d.next;
      }
      if d.next != null {
        d.next.prev := d.prev;
      }
      AppBypassed(head, tail, o, k);
    }

    /** Unlinks d, the k-th element in application order, from its bucket's chain. */
    method UnlinkBucket(d: Element, ghost k: nat, ghost o: seq<Element>)
      requires BucketPart(o) && NoDup(o) && k < |o| && o[k] == d
      modifies this`chains, buckets, o`hhPrev, o`hhNext
      ensures BucketPart(RemoveAt(o, k))
      ensures var j := Home(hash, |old(chains)|, d);
              d in old(chains)[j] && chains == old(chains)[j := Without(old(chains)[j], d)]
    {
      ghost var c := chains;
      var bkt := And(d.hashv, numBuckets - 1);
      MaskedIsHome(hash, d, log2NumBuckets);
      ghost var m := Index(c[bkt], d);
      HomedApart(hash, c, bkt);
      RemoveCovered(hash, c, o, k, bkt, m);
      RemoveFrom(buckets, bkt, d, m, c, o);
      chains := c[bkt := RemoveAt(c[bkt], m)];
    }

    /** Unlinks one of several elements from both lists. */
    method Unlink(d: Element, ghost k: nat, ghost o: seq<Element>)
      requires |o| > 1 && OrderPart(o) && BucketPart(o) && numItems == |o| && k < |o| && o[k] == d && NoDup(o)
      modifies this`head, this`tail, this`numItems, this`chains, buckets, o
      ensures OrderPart(RemoveAt(o, k)) && BucketPart(RemoveAt(o, k)) && numItems == |o| - 1
    {
      hide *;
      UnlinkOrder(d, k, o);
      UnlinkBucket(d, k, o);
      numItems := numItems - 1;
    }

    /** Deletes an element of the table; deleting the only one frees the table. */
    method Delete(d: Element)
      requires Valid() && d in order
      modifies this, buckets, order
      ensures Valid() && order == Without(old(order), d)
      ensures buckets == old(buckets)
    {
      hide OrderPart, BucketPart, AppList, NoDup;
      ghost var o := order;
      ghost var k := Index(o, d);
      ValidParts();
      hide Valid;
      LastOne(head, tail, o, k);
      if d.prev == null && d.next == null {
        head := null;
        order := RemoveAt(o, k);
        EmptyIsValid();
      } else {
        Unlink(d, k, o);
        order := RemoveAt(o, k);
        PartsValid();
      }
    }

    lemma SortedCovered(o: seq<Element>, r: seq<Element>)
      requires BucketPart(o) && SameMembers(r, o)
      ensures BucketPart(r) && |r| == |o|
    {
      Reordered(hash, chains, o, r);
    }

    lemma SortedOrder(h: Element?, t: Element?, r: seq<Element>)
      requires AppList(h, t, r) && head == h && tail == t
      ensures OrderPart(r)
    {
    }

    /** Sorts a non-empty application order in place. */
    method SortOrder(cmp: Cmp, ghost o: seq<Element>) returns (ghost r: seq<Element>)
      requires o != [] && OrderPart(o)
      modifies this`head, this`tail, o`next, o`prev
      ensures OrderPart(r)
      ensures r == MergeSort(cmp, 1, o) && SameMembers(r, o)
    {
      EmptyOrder(o);
      SortSameElements(cmp, o);
      hide *;
      var h, t;
      h, t, r := SortList(cmp, head, o);
      head, tail := h, t;
      SortedOrder(h, t, r);
    }

    /** Sorts a non-empty application order in place and leaves the buckets alone. */
    method SortElements(cmp: Cmp, ghost o: seq<Element>) returns (ghost r: seq<Element>)
      requires o != [] && OrderPart(o) && BucketPart(o)
      modifies this`head, this`tail, o`next, o`prev
      ensures OrderPart(r) && BucketPart(r) && |r| == |o|
      ensures r == MergeSort(cmp, 1, o)
    {
      hide *;
      r := SortOrder(cmp, o);
      SortedCovered(o, r);
    }

    /** Sorts the application order in place; the bucket chains, and so every lookup, are untouched. */
    method Sort(cmp: Cmp)
      requires Valid()
      modifies this`head, this`tail, this`order, order`next, order`prev
      ensures Valid() && order == if old(order) == [] then [] else MergeSort(cmp, 1, old(order))
    {
      ValidParts();
      hide *;
      if head != null {
        ghost var r := SortElements(cmp, order);
        order := r;
        PartsValid();
      }
    }

    /** The forward links can be walked; nothing is known of the backward links and the counters. */
    ghost predicate Walkable()
      reads this, buckets, order
    {
      order != [] ==>
        && NextList(head, order)
        && Within(chains, order) && numBuckets == buckets.Length == |chains|
        && forall i :: 0 <= i < |chains| ==> NextChain(buckets[i].head, chains[i])
    }

    /** What the integrity check is to establish. */
    ghost predicate Sound()
      requires Walkable()
      reads this, buckets, order
    {
      order != [] ==>
        && (forall i :: 0 <= i < |chains| ==> PrevChain(chains[i]) && buckets[i].count == |chains[i]|)
        && SumLen(chains) == numItems
        && PrevList(order) && |order| == numItems
    }

    lemma ValidIsSound()
      requires Valid()
      ensures Walkable() && Sound()
    {
      if order != [] {
        assert forall i :: 0 <= i < |chains| ==> Chain(buckets[i].head, chains[i]);
      }
    }

    /** Walks every bucket and counts, then walks the application order and counts. */
    method Fsck() returns (ok: bool)
      requires Walkable() && (head == null <==> order == [])
      ensures ok <==> Sound()
    {
      ok := true;
      if head != null {
        var count := 0;
        for i := 0 to numBuckets
          invariant ok <==> forall k :: 0 <= k < i ==> PrevChain(chains[k]) && buckets[k].count == |chains[k]|
          invariant count == SumLen(chains[..i])
        {
          var good, n := FsckBucket(buckets[i], chains[i]);
          assert chains[..i + 1][..i] == chains[..i];
          count := count + n;
          ok := ok && good && buckets[i].count == n;
        }
        assert chains[..numBuckets] == chains;
        if count != numItems {
          ok := false;
        }
        var good, n := FsckOrder(head, order);
        ok := ok && good && n == numItems;
      }
    }
  }

  ghost predicate NextChain(h: Element?, s: seq<Element>)
    reads s`hhNext
  {
    h == At(s, 0) && forall i {:trigger s[i].hhNext} :: 0 <= i < |s| ==> s[i].hhNext == At(s, i + 1)
  }

  ghost predicate PrevChain(s: seq<Element>)
    reads s`hhPrev
  {
    forall i {:trigger s[i].hhPrev} :: 0 <= i < |s| ==> s[i].hhPrev == At(s, i - 1)
  }

  ghost predicate PrevList(s: seq<Element>)
    reads s`prev
  {
    forall i {:trigger s[i].prev} :: 0 <= i < |s| ==> s[i].prev == At(s, i - 1)
  }

  method FsckBucket(b: Bucket, ghost s: seq<Element>) returns (ok: bool, n: nat)
    requires NextChain(b.head, s)
    ensures n == |s| && (ok <==> PrevChain(s))
  {
    ok, n := true, 0;
    var thh, prev := b.head, null;
    while thh != null
      invariant n <= |s| && thh == At(s, n) && prev == At(s, n - 1)
      invariant ok <==> forall i {:trigger s[i].hhPrev} :: 0 <= i < n ==> s[i].hhPrev == At(s, i - 1)
      decreases |s| - n
    {
      if prev != thh.hhPrev {
        ok := false;
      }
      n := n + 1;
      prev := thh;
      thh := thh.hhNext;
    }
  }

  method FsckOrder(head: Element?, ghost s: seq<Element>) returns (ok: bool, n: nat)
    requires NextList(head, s)
    ensures n == |s| && (ok <==> PrevList(s))
  {
    ok, n := true, 0;
    var thh, prev := head, null;
    while thh != null
      invariant n <= |s| && thh == At(s, n) && prev == At(s, n - 1)
      invariant ok <==> forall i {:trigger s[i].prev} :: 0 <= i < n ==> s[i].prev == At(s, i - 1)
      decreases |s| - n
    {
      n := n + 1;
      if prev != thh.prev {
        ok := false;
      }
      prev := thh;
      thh := thh.next;
    }
  }
}
