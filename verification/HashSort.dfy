/** The bottom-up merge sort of the application-order list: what it computes, why that is the
    stable sorted permutation, and the in-place pointer algorithm that computes it. */
module HashSort {
  import opened HashElements
  import opened Sequences

  type Cmp = (Element, Element) -> int

  // ---------------------------------------------------------------- what the sort computes

  ghost function Merge(cmp: Cmp, p: seq<Element>, q: seq<Element>): seq<Element>
    decreases |p| + |q|
  {
    if p == [] then q
    else if q == [] then p
    else if cmp(p[0], q[0]) <= 0 then [p[0]] + Merge(cmp, p[1..], q)
    else [q[0]] + Merge(cmp, p, q[1..])
  }

  ghost function Take(s: seq<Element>, k: nat): seq<Element> {
    if k <= |s| then s[..k] else s
  }

  ghost function Drop(s: seq<Element>, k: nat): seq<Element> {
    if k <= |s| then s[k..] else []
  }

  /** One pass merges neighbouring runs of k elements. */
  ghost function Pass(cmp: Cmp, k: nat, s: seq<Element>): seq<Element>
    requires k >= 1
    decreases |s|
  {
    if s == [] then []
    else Merge(cmp, Take(s, k), Take(Drop(s, k), k)) + Pass(cmp, k, Drop(Drop(s, k), k))
  }

  /** Passes with doubling run length until a pass needs a single merge. */
  ghost function MergeSort(cmp: Cmp, k: nat, s: seq<Element>): seq<Element>
    requires k >= 1
    decreases |s| - k
  {
    if |s| <= 2 * k then Pass(cmp, k, s) else
      PassLength(cmp, k, s);
      MergeSort(cmp, 2 * k, Pass(cmp, k, s))
  }

  lemma {:induction false} MergeLength(cmp: Cmp, p: seq<Element>, q: seq<Element>)
    ensures |Merge(cmp, p, q)| == |p| + |q|
    decreases |p| + |q|
  {
    if p != [] && q != [] {
      if cmp(p[0], q[0]) <= 0 {
        MergeLength(cmp, p[1..], q);
      } else {
        MergeLength(cmp, p, q[1..]);
      }
    }
  }

  lemma {:induction false} PassLength(cmp: Cmp, k: nat, s: seq<Element>)
    requires k >= 1
    ensures |Pass(cmp, k, s)| == |s|
    decreases |s|
  {
    if s != [] {
      MergeLength(cmp, Take(s, k), Take(Drop(s, k), k));
      PassLength(cmp, k, Drop(Drop(s, k), k));
    }
  }

  // ---------------------------------------------------------------- the result is a permutation

  lemma ConsMultiset(s: seq<Element>)
    requires s != []
    ensures multiset(s) == multiset{s[0]} + multiset(s[1..])
  {
    assert s == [s[0]] + s[1..];
  }

  lemma {:induction false} MergeIsPermutation(cmp: Cmp, p: seq<Element>, q: seq<Element>)
    ensures multiset(Merge(cmp, p, q)) == multiset(p) + multiset(q)
    decreases |p| + |q|
  {
    if p != [] && q != [] {
      if cmp(p[0], q[0]) <= 0 {
        MergeIsPermutation(cmp, p[1..], q);
        ConsMultiset(p);
      } else {
        MergeIsPermutation(cmp, p, q[1..]);
        ConsMultiset(q);
      }
    }
  }

  lemma TakeDrop(s: seq<Element>, k: nat)
    ensures s == Take(s, k) + Drop(s, k)
    ensures multiset(s) == multiset(Take(s, k)) + multiset(Drop(s, k))
  {
    assert s == Take(s, k) + Drop(s, k);
  }

  lemma {:induction false} PassIsPermutation(cmp: Cmp, k: nat, s: seq<Element>)
    requires k >= 1
    ensures multiset(Pass(cmp, k, s)) == multiset(s)
    decreases |s|
  {
    if s != [] {
      MergeIsPermutation(cmp, Take(s, k), Take(Drop(s, k), k));
      TakeDrop(s, k);
      TakeDrop(Drop(s, k), k);
      PassIsPermutation(cmp, k, Drop(Drop(s, k), k));
    }
  }

  lemma {:induction false} SortIsPermutation(cmp: Cmp, k: nat, s: seq<Element>)
    requires k >= 1
    ensures multiset(MergeSort(cmp, k, s)) == multiset(s)
    decreases |s| - k
  {
    PassIsPermutation(cmp, k, s);
    if |s| > 2 * k {
      PassLength(cmp, k, s);
      SortIsPermutation(cmp, 2 * k, Pass(cmp, k, s));
    }
  }

  // ---------------------------------------------------------------- the result is sorted

  ghost predicate Below(cmp: Cmp, x: Element, y: Element) {
    cmp(x, y) <= 0
  }

  /** The comparison orders the elements of s totally, up to equivalence. */
  ghost predicate TotalPreorder(cmp: Cmp, s: multiset<Element>) {
    && (forall x, y :: x in s && y in s ==> Below(cmp, x, y) || Below(cmp, y, x))
    && (forall x, y, z :: x in s && y in s && z in s && Below(cmp, x, y) && Below(cmp, y, z) ==> Below(cmp, x, z))
  }

  ghost predicate Sorted(cmp: Cmp, s: seq<Element>) {
    forall i, j :: 0 <= i < j < |s| ==> Below(cmp, s[i], s[j])
  }

  /** Every element of s is at or above x. */
  ghost predicate AllAbove(cmp: Cmp, x: Element, s: multiset<Element>) {
    forall y :: y in s ==> Below(cmp, x, y)
  }

  lemma SortedCons(cmp: Cmp, x: Element, s: seq<Element>)
    requires Sorted(cmp, s) && AllAbove(cmp, x, multiset(s))
    ensures Sorted(cmp, [x] + s)
  {
    var t := [x] + s;
    forall i, j | 0 <= i < j < |t| ensures Below(cmp, t[i], t[j]) {
      assert s[j - 1] in multiset(s);
    }
  }

  lemma SortedHead(cmp: Cmp, s: seq<Element>)
    requires s != [] && Sorted(cmp, s) && TotalPreorder(cmp, multiset(s))
    ensures Sorted(cmp, s[1..]) && AllAbove(cmp, s[0], multiset(s))
  {
    forall y | y in multiset(s) ensures Below(cmp, s[0], y) {
      var j :| 0 <= j < |s| && s[j] == y;
      assert s[0] in multiset(s);
    }
  }

  lemma AboveTransitive(cmp: Cmp, x: Element, y: Element, s: multiset<Element>, u: multiset<Element>)
    requires TotalPreorder(cmp, u) && x in u && y in u && s <= u
    requires Below(cmp, x, y) && AllAbove(cmp, y, s)
    ensures AllAbove(cmp, x, s)
  {
  }

  lemma SubPreorder(cmp: Cmp, s: multiset<Element>, u: multiset<Element>)
    requires TotalPreorder(cmp, u) && s <= u
    ensures TotalPreorder(cmp, s)
  {
  }

  lemma {:induction false} AboveMerge(cmp: Cmp, x: Element, p: seq<Element>, q: seq<Element>)
    requires AllAbove(cmp, x, multiset(p)) && AllAbove(cmp, x, multiset(q)) && Sorted(cmp, Merge(cmp, p, q))
    ensures Sorted(cmp, [x] + Merge(cmp, p, q))
  {
    MergeIsPermutation(cmp, p, q);
    assert AllAbove(cmp, x, multiset(p) + multiset(q));
    SortedCons(cmp, x, Merge(cmp, p, q));
  }

  lemma {:induction false} MergeIsSorted(cmp: Cmp, p: seq<Element>, q: seq<Element>)
    requires TotalPreorder(cmp, multiset(p) + multiset(q)) && Sorted(cmp, p) && Sorted(cmp, q)
    ensures Sorted(cmp, Merge(cmp, p, q))
    decreases |p| + |q|
  {
    var u := multiset(p) + multiset(q);
    if p != [] && q != [] {
      SubPreorder(cmp, multiset(p), u);
      SubPreorder(cmp, multiset(q), u);
      SortedHead(cmp, p);
      SortedHead(cmp, q);
      ConsMultiset(p);
      ConsMultiset(q);
      HeadsComparable(cmp, p[0], q[0], u);
      hide TotalPreorder, Sorted, AllAbove;
      if cmp(p[0], q[0]) <= 0 {
        AboveTransitive(cmp, p[0], q[0], multiset(q), u);
        SubPreorder(cmp, multiset(p[1..]) + multiset(q), u);
        MergeIsSorted(cmp, p[1..], q);
        AboveLess(cmp, p[0], p);
        AboveMerge(cmp, p[0], p[1..], q);
      } else {
        AboveTransitive(cmp, q[0], p[0], multiset(p), u);
        SubPreorder(cmp, multiset(p) + multiset(q[1..]), u);
        MergeIsSorted(cmp, p, q[1..]);
        AboveLess(cmp, q[0], q);
        AboveMerge(cmp, q[0], p, q[1..]);
      }
    }
  }

  lemma HeadsComparable(cmp: Cmp, x: Element, y: Element, u: multiset<Element>)
    requires TotalPreorder(cmp, u) && x in u && y in u
    ensures Below(cmp, x, y) || Below(cmp, y, x)
  {
  }

  lemma AboveLess(cmp: Cmp, x: Element, s: seq<Element>)
    requires s != [] && AllAbove(cmp, x, multiset(s))
    ensures AllAbove(cmp, x, multiset(s[1..]))
  {
    ConsMultiset(s);
  }

  /** s consists of sorted runs of k elements (the last may be shorter). */
  ghost predicate RunsSorted(cmp: Cmp, k: nat, s: seq<Element>)
    requires k >= 1
    decreases |s|
  {
    s == [] || (Sorted(cmp, Take(s, k)) && RunsSorted(cmp, k, Drop(s, k)))
  }

  lemma {:induction false} PassHead(cmp: Cmp, k: nat, s: seq<Element>)
    requires k >= 1 && s != []
    ensures Take(Pass(cmp, k, s), 2 * k) == Merge(cmp, Take(s, k), Take(Drop(s, k), k))
    ensures Drop(Pass(cmp, k, s), 2 * k) == Pass(cmp, k, Drop(Drop(s, k), k))
  {
    var m := Merge(cmp, Take(s, k), Take(Drop(s, k), k));
    MergeLength(cmp, Take(s, k), Take(Drop(s, k), k));
    if |s| < 2 * k {
      assert Pass(cmp, k, s) == m;
    }
  }

  /** A pass over sorted runs leaves sorted runs of twice the length. */
  lemma {:induction false} PassDoublesRuns(cmp: Cmp, k: nat, s: seq<Element>)
    requires k >= 1 && RunsSorted(cmp, k, s) && TotalPreorder(cmp, multiset(s))
    ensures RunsSorted(cmp, 2 * k, Pass(cmp, k, s))
    decreases |s|
  {
    if s != [] {
      var p, t := Take(s, k), Drop(s, k);
      var q, r := Take(t, k), Drop(t, k);
      TakeDrop(s, k);
      TakeDrop(t, k);
      SubPreorder(cmp, multiset(p) + multiset(q), multiset(s));
      SubPreorder(cmp, multiset(r), multiset(s));
      MergeIsSorted(cmp, p, q);
      PassDoublesRuns(cmp, k, r);
      PassHead(cmp, k, s);
    }
  }

  lemma {:induction false} SingletonRuns(cmp: Cmp, s: seq<Element>)
    ensures RunsSorted(cmp, 1, s)
    decreases |s|
  {
    if s != [] {
      SingletonRuns(cmp, Drop(s, 1));
    }
  }

  lemma {:induction false} SortIsSorted(cmp: Cmp, k: nat, s: seq<Element>)
    requires k >= 1 && RunsSorted(cmp, k, s) && TotalPreorder(cmp, multiset(s))
    ensures Sorted(cmp, MergeSort(cmp, k, s))
    decreases |s| - k
  {
    PassDoublesRuns(cmp, k, s);
    PassLength(cmp, k, s);
    PassIsPermutation(cmp, k, s);
    if |s| > 2 * k {
      SortIsSorted(cmp, 2 * k, Pass(cmp, k, s));
    }
  }

  // ---------------------------------------------------------------- the result is stable

  ghost predicate Equivalent(cmp: Cmp, x: Element, y: Element) {
    Below(cmp, x, y) && Below(cmp, y, x)
  }

  /** The elements of s that the comparison cannot tell from g, in their order in s. */
  ghost function Class(cmp: Cmp, g: Element, s: seq<Element>): seq<Element> {
    if s == [] then []
    else (if Equivalent(cmp, s[0], g) then [s[0]] else []) + Class(cmp, g, s[1..])
  }

  /** [x] when x is in the class of g, and [] when it is not. */
  ghost function ClassOf(cmp: Cmp, g: Element, x: Element): seq<Element> {
    if Equivalent(cmp, x, g) then [x] else []
  }

  lemma {:induction false} ClassPush(cmp: Cmp, g: Element, x: Element, t: seq<Element>)
    ensures Class(cmp, g, [x] + t) == ClassOf(cmp, g, x) + Class(cmp, g, t)
  {
    assert ([x] + t)[1..] == t;
  }

  lemma {:induction false} ClassHead(cmp: Cmp, g: Element, s: seq<Element>)
    requires s != []
    ensures Class(cmp, g, s) == ClassOf(cmp, g, s[0]) + Class(cmp, g, s[1..])
  {
  }

  lemma Assoc(a: seq<Element>, b: seq<Element>, c: seq<Element>)
    ensures (a + b) + c == a + (b + c)
  {
  }

  lemma {:induction false} ClassConcat(cmp: Cmp, g: Element, a: seq<Element>, b: seq<Element>)
    ensures Class(cmp, g, a + b) == Class(cmp, g, a) + Class(cmp, g, b)
  {
    hide Equivalent, ClassOf;
    if a == [] {
      assert a + b == b;
    } else {
      ClassConcat(cmp, g, a[1..], b);
      ClassHead(cmp, g, a);
      ClassPush(cmp, g, a[0], a[1..] + b);
      assert a + b == [a[0]] + (a[1..] + b);
      Assoc(ClassOf(cmp, g, a[0]), Class(cmp, g, a[1..]), Class(cmp, g, b));
    }
  }

  /** A sorted sequence that starts strictly above x has nothing equivalent to x. */
  lemma {:induction false} ClassAbove(cmp: Cmp, g: Element, x: Element, s: seq<Element>, u: multiset<Element>)
    requires TotalPreorder(cmp, u) && multiset(s) <= u && x in u && g in u && Equivalent(cmp, x, g)
    requires forall y :: y in multiset(s) ==> !Below(cmp, y, x)
    ensures Class(cmp, g, s) == []
  {
    if s != [] {
      ConsMultiset(s);
      assert s[0] in multiset(s);
      ClassAbove(cmp, g, x, s[1..], u);
    }
  }

  lemma StrictlyAbove(cmp: Cmp, x: Element, p: seq<Element>, u: multiset<Element>)
    requires p != [] && Sorted(cmp, p) && TotalPreorder(cmp, u) && multiset(p) <= u && x in u
    requires !Below(cmp, p[0], x)
    ensures forall y :: y in multiset(p) ==> !Below(cmp, y, x)
  {
    SubPreorder(cmp, multiset(p), u);
    SortedHead(cmp, p);
    assert p[0] in multiset(p);
  }

  lemma {:induction false} MergeIsStable(cmp: Cmp, g: Element, p: seq<Element>, q: seq<Element>, u: multiset<Element>)
    requires TotalPreorder(cmp, u) && multiset(p) + multiset(q) <= u && g in u && Sorted(cmp, p)
    ensures Class(cmp, g, Merge(cmp, p, q)) == Class(cmp, g, p) + Class(cmp, g, q)
    decreases |p| + |q|
  {
    hide TotalPreorder, Equivalent, Class;
    if p == [] || q == [] {
      ClassNothing(cmp, g);
    } else {
      ConsMultiset(p);
      ConsMultiset(q);
      ClassHead(cmp, g, p);
      ClassHead(cmp, g, q);
      if cmp(p[0], q[0]) <= 0 {
        SubPreorder(cmp, multiset(p), u);
        SortedHead(cmp, p);
        MergeIsStable(cmp, g, p[1..], q, u);
        ClassPush(cmp, g, p[0], Merge(cmp, p[1..], q));
        Assoc(ClassOf(cmp, g, p[0]), Class(cmp, g, p[1..]), Class(cmp, g, q));
      } else {
        MergeIsStable(cmp, g, p, q[1..], u);
        ClassPush(cmp, g, q[0], Merge(cmp, p, q[1..]));
        ClassOvertaken(cmp, g, p, q[0], u);
        Assoc(ClassOf(cmp, g, q[0]), Class(cmp, g, p), Class(cmp, g, q[1..]));
        Assoc(Class(cmp, g, p), ClassOf(cmp, g, q[0]), Class(cmp, g, q[1..]));
      }
    }
  }

  lemma {:induction false} ClassNothing(cmp: Cmp, g: Element)
    ensures Class(cmp, g, []) == []
  {
  }

  /** An element that overtakes a sorted run leaves every class as it was. */
  lemma {:induction false} ClassOvertaken(cmp: Cmp, g: Element, p: seq<Element>, x: Element, u: multiset<Element>)
    requires TotalPreorder(cmp, u) && multiset(p) <= u && x in u && g in u
    requires p != [] && Sorted(cmp, p) && !Below(cmp, p[0], x)
    ensures ClassOf(cmp, g, x) + Class(cmp, g, p) == Class(cmp, g, p) + ClassOf(cmp, g, x)
  {
    if Equivalent(cmp, x, g) {
      StrictlyAbove(cmp, x, p, u);
      ClassAbove(cmp, g, x, p, u);
    }
  }

  lemma {:induction false} ClassOfParts(cmp: Cmp, g: Element, k: nat, p: seq<Element>, q: seq<Element>, r: seq<Element>)
    requires k >= 1 && Class(cmp, g, Merge(cmp, p, q)) == Class(cmp, g, p) + Class(cmp, g, q)
    requires Class(cmp, g, Pass(cmp, k, r)) == Class(cmp, g, r)
    ensures Class(cmp, g, Merge(cmp, p, q) + Pass(cmp, k, r)) == Class(cmp, g, p + (q + r))
  {
    hide Class, Merge, Pass;
    ClassConcat(cmp, g, Merge(cmp, p, q), Pass(cmp, k, r));
    ClassConcat(cmp, g, q, r);
    ClassConcat(cmp, g, p, q + r);
    Assoc(Class(cmp, g, p), Class(cmp, g, q), Class(cmp, g, r));
  }

  lemma {:induction false} PassIsStable(cmp: Cmp, g: Element, k: nat, s: seq<Element>)
    requires k >= 1 && RunsSorted(cmp, k, s) && TotalPreorder(cmp, multiset(s) + multiset{g})
    ensures Class(cmp, g, Pass(cmp, k, s)) == Class(cmp, g, s)
    decreases |s|
  {
    if s != [] {
      var u := multiset(s) + multiset{g};
      var p, t := Take(s, k), Drop(s, k);
      var q, r := Take(t, k), Drop(t, k);
      TakeDrop(s, k);
      TakeDrop(t, k);
      MergeIsStable(cmp, g, p, q, u);
      SubPreorder(cmp, multiset(r) + multiset{g}, u);
      PassIsStable(cmp, g, k, r);
      ClassOfParts(cmp, g, k, p, q, r);
    }
  }

  lemma {:induction false} SortIsStable(cmp: Cmp, g: Element, k: nat, s: seq<Element>)
    requires k >= 1 && RunsSorted(cmp, k, s) && TotalPreorder(cmp, multiset(s) + multiset{g})
    ensures Class(cmp, g, MergeSort(cmp, k, s)) == Class(cmp, g, s)
    decreases |s| - k
  {
    PassIsStable(cmp, g, k, s);
    if |s| > 2 * k {
      SubPreorder(cmp, multiset(s), multiset(s) + multiset{g});
      PassDoublesRuns(cmp, k, s);
      PassLength(cmp, k, s);
      PassIsPermutation(cmp, k, s);
      SortIsStable(cmp, g, 2 * k, Pass(cmp, k, s));
    }
  }

  // ---------------------------------------------------------------- and that determines it

  /** r is s rearranged into sorted order with equivalent elements kept in their order. */
  ghost predicate IsStableSort(cmp: Cmp, s: seq<Element>, r: seq<Element>) {
    && multiset(r) == multiset(s)
    && Sorted(cmp, r)
    && forall g :: g in s ==> Class(cmp, g, r) == Class(cmp, g, s)
  }

  /** Two sorted sequences with the same elements and the same classes are equal. */
  lemma {:induction false} StableSortUnique(cmp: Cmp, a: seq<Element>, b: seq<Element>)
    requires multiset(a) == multiset(b) && TotalPreorder(cmp, multiset(a))
    requires Sorted(cmp, a) && Sorted(cmp, b)
    requires forall g :: g in multiset(a) ==> Class(cmp, g, a) == Class(cmp, g, b)
    ensures a == b
  {
    if |a| == 0 || |b| == 0 {
      SameLength(a, b);
    } else {
      SameHead(cmp, a, b);
      TailsAgree(a, b);
      SortedHead(cmp, a);
      SortedHead(cmp, b);
      SubPreorder(cmp, multiset(a[1..]), multiset(a));
      hide TotalPreorder, Class, Sorted;
      forall g | g in multiset(a[1..]) ensures Class(cmp, g, a[1..]) == Class(cmp, g, b[1..]) {
        assert g in multiset(a);
        ClassTail(cmp, g, a, b);
      }
      StableSortUnique(cmp, a[1..], b[1..]);
    }
  }

  lemma TailsAgree(a: seq<Element>, b: seq<Element>)
    requires multiset(a) == multiset(b) && a != [] && b != [] && a[0] == b[0]
    ensures multiset(a[1..]) == multiset(b[1..]) <= multiset(a)
    ensures a[1..] == b[1..] ==> a == b
  {
    ConsMultiset(a);
    ConsMultiset(b);
    assert multiset(a[1..]) == multiset(a) - multiset{a[0]};
    assert multiset(b[1..]) == multiset(b) - multiset{b[0]};
    assert a == [a[0]] + a[1..] && b == [b[0]] + b[1..];
  }

  lemma SameLength(a: seq<Element>, b: seq<Element>)
    requires multiset(a) == multiset(b)
    ensures |a| == |b|
  {
    assert |multiset(a)| == |a|;
  }

  lemma {:induction false} SameHead(cmp: Cmp, a: seq<Element>, b: seq<Element>)
    requires multiset(a) == multiset(b) && TotalPreorder(cmp, multiset(a)) && a != [] && b != []
    requires Sorted(cmp, a) && Sorted(cmp, b)
    requires forall g :: g in multiset(a) ==> Class(cmp, g, a) == Class(cmp, g, b)
    ensures a[0] == b[0]
  {
    assert a[0] in multiset(a) && b[0] in multiset(b);
    SortedHead(cmp, a);
    SortedHead(cmp, b);
    var g := a[0];
    ClassHead(cmp, g, a);
    ClassHead(cmp, g, b);
    assert ClassOf(cmp, g, a[0]) == [a[0]] && ClassOf(cmp, g, b[0]) == [b[0]];
    assert Class(cmp, g, a)[0] == Class(cmp, g, b)[0];
  }

  lemma {:induction false} ClassTail(cmp: Cmp, g: Element, a: seq<Element>, b: seq<Element>)
    requires a != [] && b != [] && a[0] == b[0] && Class(cmp, g, a) == Class(cmp, g, b)
    ensures Class(cmp, g, a[1..]) == Class(cmp, g, b[1..])
  {
    hide Class;
    ClassHead(cmp, g, a);
    ClassHead(cmp, g, b);
    var n := |ClassOf(cmp, g, a[0])|;
    assert Class(cmp, g, a)[n..] == Class(cmp, g, a[1..]);
    assert Class(cmp, g, b)[n..] == Class(cmp, g, b[1..]);
  }

  /** The merge sort computes the stable sort, and that is the only sequence that is one. */
  lemma {:induction false} SortCorrect(cmp: Cmp, s: seq<Element>, r: seq<Element>)
    requires TotalPreorder(cmp, multiset(s))
    ensures IsStableSort(cmp, s, r) <==> r == MergeSort(cmp, 1, s)
  {
    var m := MergeSort(cmp, 1, s);
    SingletonRuns(cmp, s);
    SortIsPermutation(cmp, 1, s);
    SortIsSorted(cmp, 1, s);
    forall g | g in s ensures Class(cmp, g, m) == Class(cmp, g, s) {
      assert g in multiset(s);
      SubPreorder2(cmp, g, s);
      SortIsStable(cmp, g, 1, s);
    }
    if IsStableSort(cmp, s, r) {
      forall g | g in multiset(r) ensures Class(cmp, g, r) == Class(cmp, g, m) {
        assert g in multiset(s);
      }
      StableSortUnique(cmp, r, m);
    }
  }

  lemma SubPreorder2(cmp: Cmp, g: Element, s: seq<Element>)
    requires TotalPreorder(cmp, multiset(s)) && g in multiset(s)
    ensures TotalPreorder(cmp, multiset(s) + multiset{g})
  {
    assert forall x :: x in multiset(s) + multiset{g} <==> x in multiset(s);
  }

  // ---------------------------------------------------------------- sorting in place

  /** p starts a null-terminated next-linked list through s. */
  ghost predicate NextList(p: Element?, s: seq<Element>)
    reads s`next
  {
    && p == At(s, 0)
    && (forall i {:trigger s[i].next} :: 0 <= i < |s| ==> s[i].next == At(s, i + 1))
  }

  /** p starts a next-linked run through s; where the last element points is left open. */
  ghost predicate Run(p: Element?, s: seq<Element>)
    reads s`next
  {
    && (s != [] ==> p == s[0])
    && (forall i {:trigger s[i].next} :: 0 <= i < |s| - 1 ==> s[i].next == s[i + 1])
  }

  /** h and t are the ends of the output so far; the next link of its last element is still open. */
  ghost predicate Output(h: Element?, t: Element?, s: seq<Element>)
    reads s`prev, s`next
  {
    && h == At(s, 0)
    && t == At(s, |s| - 1)
    && (forall i {:trigger s[i].next} :: 0 <= i < |s| - 1 ==> s[i].next == s[i + 1])
    && (forall i {:trigger s[i].prev} :: 0 <= i < |s| ==> s[i].prev == At(s, i - 1))
  }

  /** Appends e to the output. */
  method Emit(h: Element?, t: Element?, e: Element, ghost s: seq<Element>) returns (h': Element)
    requires Output(h, t, s) && NoDup(s) && e !in s
    modifies s`next, e`prev
    ensures Output(h', e, s + [e])
    ensures forall x :: x in s && x != At(s, |s| - 1) ==> x.next == old(x.next)
  {
    if t != null {
      t.next := e;
      h' := h;
    } else {
      h' := e;
    }
    e.prev := t;
    ghost var r := s + [e];
    forall i {:trigger r[i].next} | 0 <= i < |r| - 1 ensures r[i].next == r[i + 1] {
      assert r[i] == s[i];
    }
    forall i {:trigger r[i].prev} | 0 <= i < |r| ensures r[i].prev == At(r, i - 1) {
      if i < |s| {
        assert r[i] == s[i];
      }
    }
  }

  /** Steps over the first run of at most k elements. */
  method SkipRun(p: Element, k: nat, ghost s: seq<Element>) returns (q: Element?, psize: nat)
    requires s != [] && k >= 1 && NextList(p, s)
    ensures psize == |Take(s, k)| && NextList(q, Drop(s, k))
  {
    var cur: Element? := p;
    psize := 0;
    for i := 0 to k
      invariant psize == i < |s| && cur == s[psize]
    {
      psize := psize + 1;
      cur := cur.next;
      if cur == null {
        break;
      }
    }
    q := cur;
    ghost var d := Drop(s, k);
    forall j {:trigger d[j].next} | 0 <= j < |d| ensures d[j].next == At(d, j + 1) {
      assert d[j] == s[k + j];
    }
  }

  /** In the middle of a merge: the output out, the rest P of the left run, and the list Q whose
      front is the rest of the right run. */
  ghost predicate Merging(h: Element?, t: Element?, p: Element?, q: Element?,
                          out: seq<Element>, P: seq<Element>, Q: seq<Element>)
    reads out`prev, out`next, P`next, Q`next
  {
    Output(h, t, out) && Run(p, P) && NextList(q, Q) && NoDup(out + P + Q)
  }

  lemma DistinctParts(a: seq<Element>, b: seq<Element>, c: seq<Element>)
    requires NoDup(a + b + c)
    ensures NoDup(a) && NoDup(b) && NoDup(c)
    ensures forall x :: x in a ==> x !in b && x !in c
    ensures forall x :: x in b ==> x !in c
  {
    var s := a + b + c;
    forall i | 0 <= i < |a| ensures a[i] == s[i] && a[i] !in b && a[i] !in c {
      assert forall j :: 0 <= j < |b| ==> s[|a| + j] == b[j];
      assert forall j :: 0 <= j < |c| ==> s[|a| + |b| + j] == c[j];
    }
    forall i | 0 <= i < |b| ensures b[i] == s[|a| + i] && b[i] !in c {
      assert forall j :: 0 <= j < |c| ==> s[|a| + |b| + j] == c[j];
    }
    assert forall i :: 0 <= i < |c| ==> c[i] == s[|a| + |b| + i];
  }

  /** Moves the first element of the left run to the output. */
  method EmitLeft(h: Element?, t: Element?, p: Element, q: Element?,
                  ghost out: seq<Element>, ghost P: seq<Element>, ghost Q: seq<Element>)
    returns (h': Element, p': Element?)
    requires Merging(h, t, p, q, out, P, Q) && P != []
    modifies out`next, p`prev
    ensures Merging(h', p, p', q, out + [p], P[1..], Q)
  {
    DistinctParts(out, P, Q);
    assert out + P + Q == (out + [p]) + P[1..] + Q;
    p' := p.next;
    h' := Emit(h, t, p, out);
    ghost var R := P[1..];
    forall i {:trigger R[i].next} | 0 <= i < |R| - 1 ensures R[i].next == R[i + 1] {
      assert R[i] == P[i + 1] && P[i + 1] in P;
    }
  }

  /** Moves the first element of the right run to the output. */
  method EmitRight(h: Element?, t: Element?, p: Element?, q: Element,
                   ghost out: seq<Element>, ghost P: seq<Element>, ghost Q: seq<Element>)
    returns (h': Element, q': Element?)
    requires Merging(h, t, p, q, out, P, Q) && Q != []
    modifies out`next, q`prev
    ensures Merging(h', q, p, q', out + [q], P, Q[1..])
  {
    DistinctParts(out, P, Q);
    MoveToOutput(out, P, Q);
    q' := q.next;
    h' := Emit(h, t, q, out);
    ghost var R := Q[1..];
    forall i {:trigger R[i].next} | 0 <= i < |R| ensures R[i].next == At(R, i + 1) {
      assert R[i] == Q[i + 1] && Q[i + 1] in Q;
    }
  }

  lemma MoveToOutput(out: seq<Element>, P: seq<Element>, Q: seq<Element>)
    requires NoDup(out + P + Q) && Q != []
    ensures NoDup((out + [Q[0]]) + P + Q[1..])
  {
    DistinctParts(out, P, Q);
    var s, r := out + P + Q, (out + [Q[0]]) + P + Q[1..];
    forall i | 0 <= i < |r|
      ensures r[i] == s[if i < |out| then i else if i == |out| then |out| + |P|
                        else if i <= |out| + |P| then i - 1 else i]
    {
    }
  }

  lemma StillInside(out: seq<Element>, P: seq<Element>, Q: seq<Element>, all: seq<Element>)
    requires multiset(out + P + Q) == multiset(all)
    ensures forall i :: 0 <= i < |out| ==> out[i] in all
    ensures forall i :: 0 <= i < |P| ==> P[i] in all
    ensures forall i :: 0 <= i < |Q| ==> Q[i] in all
  {
    var s := out + P + Q;
    forall i | 0 <= i < |s| ensures s[i] in all {
      assert s[i] in multiset(s);
    }
    assert forall i :: 0 <= i < |out| ==> out[i] == s[i];
    assert forall i :: 0 <= i < |P| ==> P[i] == s[|out| + i];
    assert forall i :: 0 <= i < |Q| ==> Q[i] == s[|out| + |P| + i];
  }

  /** Merges the left run P0 with the first k elements of Q0 behind the output. */
  method MergeRuns(cmp: Cmp, h0: Element?, t0: Element?, p0: Element, q0: Element?, psize0: nat, k: nat,
                   ghost out0: seq<Element>, ghost P0: seq<Element>, ghost Q0: seq<Element>)
    returns (h: Element?, t: Element?, q: Element?, ghost out: seq<Element>)
    requires Merging(h0, t0, p0, q0, out0, P0, Q0) && psize0 == |P0| > 0
    modifies (out0 + P0 + Q0)`next, (out0 + P0 + Q0)`prev
    ensures out == out0 + Merge(cmp, P0, Take(Q0, k))
    ensures Output(h, t, out) && NextList(q, Drop(Q0, k)) && NoDup(out + Drop(Q0, k))
    ensures multiset(out + Drop(Q0, k)) == multiset(out0 + P0 + Q0)
  {
    h, t, q, out := h0, t0, q0, out0;
    var p: Element? := p0;
    var psize, qsize := psize0, k;
    ghost var P, Q := P0, Q0;
    hide Merge, Take, Drop, Output, NoDup;
    while psize > 0 || (qsize > 0 && q != null)
      invariant |P| == psize
      invariant Merging(h, t, p, q, out, P, Q)
      invariant out0 + Merge(cmp, P0, Take(Q0, k)) == out + Merge(cmp, P, Take(Q, qsize))
      invariant Drop(Q, qsize) == Drop(Q0, k)
      invariant multiset(out + P + Q) == multiset(out0 + P0 + Q0)
      decreases psize + |Q|
    {
      StillInside(out, P, Q, out0 + P0 + Q0);
      if psize == 0 {
        h, t, q, out, Q, qsize := MergeStepRight(cmp, h, t, p, q, qsize, out, P, Q);
      } else if qsize == 0 || q == null {
        h, t, p, out, P, psize := MergeStepLeft(cmp, h, t, p, q, psize, qsize, out, P, Q);
      } else if cmp(p, q) <= 0 {
        h, t, p, out, P, psize := MergeStepLeft(cmp, h, t, p, q, psize, qsize, out, P, Q);
      } else {
        h, t, q, out, Q, qsize := MergeStepRight(cmp, h, t, p, q, qsize, out, P, Q);
      }
    }
    MergeDone(cmp, out, P, Q, qsize);
  }

  lemma {:induction false} MergeDone(cmp: Cmp, out: seq<Element>, P: seq<Element>, Q: seq<Element>, qsize: nat)
    requires P == [] && (qsize == 0 || Q == [])
    ensures out + Merge(cmp, P, Take(Q, qsize)) == out
    ensures Drop(Q, qsize) == Q && out + P + Q == out + Q
  {
  }

  method MergeStepLeft(cmp: Cmp, h0: Element?, t0: Element?, p0: Element, q: Element?, psize0: nat, qsize: nat,
                       ghost out0: seq<Element>, ghost P0: seq<Element>, ghost Q: seq<Element>)
    returns (h: Element?, t: Element?, p: Element?, ghost out: seq<Element>, ghost P: seq<Element>, psize: nat)
    requires Merging(h0, t0, p0, q, out0, P0, Q) && psize0 == |P0| > 0
    requires qsize == 0 || q == null || cmp(p0, q) <= 0
    modifies out0`next, p0`prev
    ensures Merging(h, t, p, q, out, P, Q) && psize == |P| == psize0 - 1
    ensures out0 + Merge(cmp, P0, Take(Q, qsize)) == out + Merge(cmp, P, Take(Q, qsize))
    ensures out + P == out0 + P0
  {
    h, p := EmitLeft(h0, t0, p0, q, out0, P0, Q);
    t, psize := p0, psize0 - 1;
    out, P := out0 + [p0], P0[1..];
    MergeTakesLeft(cmp, out0, P0, Take(Q, qsize));
  }

  method MergeStepRight(cmp: Cmp, h0: Element?, t0: Element?, p: Element?, q0: Element, qsize0: nat,
                        ghost out0: seq<Element>, ghost P: seq<Element>, ghost Q0: seq<Element>)
    returns (h: Element?, t: Element?, q: Element?, ghost out: seq<Element>, ghost Q: seq<Element>, qsize: nat)
    requires Merging(h0, t0, p, q0, out0, P, Q0) && qsize0 > 0
    requires P != [] ==> p != null && cmp(p, q0) > 0
    modifies out0`next, q0`prev
    ensures Merging(h, t, p, q, out, P, Q) && qsize == qsize0 - 1 && Q0 != [] && Q == Q0[1..] && out == out0 + [Q0[0]]
    ensures out0 + Merge(cmp, P, Take(Q0, qsize0)) == out + Merge(cmp, P, Take(Q, qsize))
    ensures Drop(Q, qsize) == Drop(Q0, qsize0)
    ensures multiset(out + P + Q) == multiset(out0 + P + Q0)
  {
    h, q := EmitRight(h0, t0, p, q0, out0, P, Q0);
    t, qsize := q0, qsize0 - 1;
    out, Q := out0 + [q0], Q0[1..];
    assert Take(Q0, qsize0)[1..] == Take(Q, qsize);
    SameElementsMoved(out0, P, Q0);
    MergeTakesRight(cmp, out0, P, Take(Q0, qsize0));
  }

  lemma SameElementsMoved(out: seq<Element>, P: seq<Element>, Q: seq<Element>)
    requires Q != []
    ensures multiset((out + [Q[0]]) + P + Q[1..]) == multiset(out + P + Q)
  {
    ConsMultiset(Q);
  }

  lemma {:induction false} MergeLeftFirst(cmp: Cmp, p: seq<Element>, q: seq<Element>)
    requires p != [] && (q == [] || cmp(p[0], q[0]) <= 0)
    ensures Merge(cmp, p, q) == [p[0]] + Merge(cmp, p[1..], q)
  {
    if q == [] {
      assert Merge(cmp, p[1..], q) == p[1..];
    }
  }

  lemma {:induction false} MergeTakesLeft(cmp: Cmp, out: seq<Element>, p: seq<Element>, q: seq<Element>)
    requires p != [] && (q == [] || cmp(p[0], q[0]) <= 0)
    ensures out + Merge(cmp, p, q) == (out + [p[0]]) + Merge(cmp, p[1..], q)
    ensures out + p == (out + [p[0]]) + p[1..]
  {
    hide Merge;
    MergeLeftFirst(cmp, p, q);
    Assoc(out, [p[0]], Merge(cmp, p[1..], q));
  }

  lemma {:induction false} MergeTakesRight(cmp: Cmp, out: seq<Element>, p: seq<Element>, q: seq<Element>)
    requires q != [] && (p == [] || cmp(p[0], q[0]) > 0)
    ensures out + Merge(cmp, p, q) == (out + [q[0]]) + Merge(cmp, p, q[1..])
  {
    if p == [] {
      assert q == [q[0]] + q[1..];
    }
  }

  lemma SplitList(p: Element, k: nat, out: seq<Element>, s: seq<Element>)
    requires s != [] && k >= 1 && NextList(p, s) && NoDup(out + s)
    ensures Run(p, Take(s, k)) && |Take(s, k)| > 0
    ensures out + Take(s, k) + Drop(s, k) == out + s
    ensures forall x :: x in out ==> x !in s
  {
    TakeDrop(s, k);
    assert out + Take(s, k) + Drop(s, k) == out + s;
    DistinctParts(out, Take(s, k), Drop(s, k));
    ghost var r := Take(s, k);
    forall i {:trigger r[i].next} | 0 <= i < |r| - 1 ensures r[i].next == r[i + 1] {
      assert r[i] == s[i];
    }
  }

  /** Skips one run and merges it with the next one behind the output. */
  method MergeNext(cmp: Cmp, h0: Element?, t0: Element?, p: Element, k: nat,
                   ghost out0: seq<Element>, ghost s: seq<Element>)
    returns (h: Element?, t: Element?, q: Element?, ghost out: seq<Element>)
    requires s != [] && k >= 1 && Output(h0, t0, out0) && NextList(p, s) && NoDup(out0 + s)
    modifies (out0 + s)`next, (out0 + s)`prev
    ensures var rest := Drop(Drop(s, k), k);
            && out == out0 + Merge(cmp, Take(s, k), Take(Drop(s, k), k))
            && Output(h, t, out) && NextList(q, rest) && NoDup(out + rest)
            && multiset(out + rest) == multiset(out0 + s)
  {
    var q0, psize := SkipRun(p, k, s);
    SplitList(p, k, out0, s);
    hide Output, NextList, Run, NoDup, Merge, Take, Drop;
    h, t, q, out := MergeRuns(cmp, h0, t0, p, q0, psize, k, out0, Take(s, k), Drop(s, k));
  }

  lemma ListEnd(p: Element?, s: seq<Element>)
    requires NextList(p, s)
    ensures p == null <==> s == []
  {
  }

  lemma {:induction false} PassDone(cmp: Cmp, k: nat, out: seq<Element>, rest: seq<Element>)
    requires k >= 1 && rest == []
    ensures out + Pass(cmp, k, rest) == out && out + rest == out
  {
  }

  /** Merges all pairs of neighbouring runs; the number of merges tells whether more passes are needed. */
  method MergeAll(cmp: Cmp, list: Element, k: nat, ghost s: seq<Element>)
    returns (h: Element?, t: Element?, nmerges: nat, ghost r: seq<Element>)
    requires s != [] && k >= 1 && NextList(list, s) && NoDup(s)
    modifies s`next, s`prev
    ensures r == Pass(cmp, k, s) && Output(h, t, r) && NoDup(r) && multiset(r) == multiset(s)
    ensures nmerges <= 1 <==> |s| <= 2 * k
  {
    var p: Element? := list;
    h, t, nmerges, r := null, null, 0, [];
    ghost var rest := s;
    assert [] + s == s;
    PassEnds(cmp, k, s);
    hide Pass, Merge, Take, Drop, Output, NoDup, NextList;
    while p != null
      invariant Output(h, t, r) && NextList(p, rest) && NoDup(r + rest)
      invariant r + Pass(cmp, k, rest) == Pass(cmp, k, s)
      invariant multiset(r + rest) == multiset(s)
      invariant nmerges == 0 ==> rest == s
      invariant nmerges == 1 ==> rest == Drop(Drop(s, k), k)
      invariant nmerges >= 2 ==> |s| > 2 * k
      decreases |rest|
    {
      nmerges := nmerges + 1;
      ListEnd(p, rest);
      InsideConcat(r, rest, s);
      PassUnfold(cmp, k, r, rest);
      h, t, p, r := MergeNext(cmp, h, t, p, k, r, rest);
      rest := Drop(Drop(rest, k), k);
    }
    ListEnd(p, rest);
    PassDone(cmp, k, r, rest);
  }

  /** One pass over the list. */
  method SortPass(cmp: Cmp, list: Element, k: nat, ghost s: seq<Element>)
    returns (h: Element?, t: Element?, nmerges: nat, ghost r: seq<Element>)
    requires s != [] && k >= 1 && NextList(list, s) && NoDup(s)
    modifies s`next, s`prev
    ensures r == Pass(cmp, k, s) && AppList(h, t, r) && multiset(r) == multiset(s)
    ensures nmerges <= 1 <==> |s| <= 2 * k
  {
    h, t, nmerges, r := MergeAll(cmp, list, k, s);
    AllInside(r, s);
    hide *;
    CloseOutput(h, t, r);
  }

  lemma {:induction false} PassEnds(cmp: Cmp, k: nat, s: seq<Element>)
    requires k >= 1
    ensures Pass(cmp, k, []) == [] && [] + Pass(cmp, k, s) == Pass(cmp, k, s)
    ensures Drop(Drop(s, k), k) == [] <==> |s| <= 2 * k
  {
  }

  /** Ends the output list. */
  method CloseOutput(h: Element?, t: Element?, ghost s: seq<Element>)
    requires s != [] && Output(h, t, s) && NoDup(s)
    modifies s`next
    ensures AppList(h, t, s)
  {
    t.next := null;
  }

  lemma InsideConcat(a: seq<Element>, b: seq<Element>, all: seq<Element>)
    requires multiset(a + b) == multiset(all)
    ensures forall i :: 0 <= i < |a + b| ==> (a + b)[i] in all
    ensures a == [] ==> a + b == b
  {
    forall i | 0 <= i < |a + b| ensures (a + b)[i] in all {
      assert (a + b)[i] in multiset(a + b);
    }
  }

  lemma AllInside(r: seq<Element>, s: seq<Element>)
    requires multiset(r) == multiset(s) && s != []
    ensures r != [] && forall i :: 0 <= i < |r| ==> r[i] in s
  {
    SameLength(r, s);
    forall i | 0 <= i < |r| ensures r[i] in s {
      assert r[i] in multiset(r);
    }
  }

  lemma {:induction false} PassUnfold(cmp: Cmp, k: nat, out: seq<Element>, s: seq<Element>)
    requires k >= 1 && s != []
    ensures out + Pass(cmp, k, s)
         == (out + Merge(cmp, Take(s, k), Take(Drop(s, k), k))) + Pass(cmp, k, Drop(Drop(s, k), k))
    ensures |Drop(Drop(s, k), k)| < |s|
  {
    Assoc(out, Merge(cmp, Take(s, k), Take(Drop(s, k), k)), Pass(cmp, k, Drop(Drop(s, k), k)));
  }

  /** Sorts a non-empty application-order list in place. */
  method SortList(cmp: Cmp, head: Element, ghost s: seq<Element>)
    returns (h: Element?, t: Element?, ghost r: seq<Element>)
    requires s != [] && NextList(head, s) && NoDup(s)
    modifies s`next, s`prev
    ensures AppList(h, t, r) && r == MergeSort(cmp, 1, s)
  {
    var insize := 1;
    var looping := true;
    h, t, r := head, null, s;
    hide Pass, AppList, NextList, NoDup;
    while looping
      invariant h != null && |r| == |s| && insize >= 1 && multiset(r) == multiset(s)
      invariant looping ==> NextList(h, r) && NoDup(r) && MergeSort(cmp, insize, r) == MergeSort(cmp, 1, s)
      invariant !looping ==> AppList(h, t, r) && r == MergeSort(cmp, 1, s)
      decreases looping, |s| - insize
    {
      InsideConcat([], r, s);
      PassLength(cmp, insize, r);
      var nmerges;
      h, t, nmerges, r := SortPass(cmp, h, insize, r);
      AppIsNext(h, t, r);
      if nmerges <= 1 {
        looping := false;
      }
      insize := insize * 2;
    }
  }

  lemma AppIsNext(h: Element?, t: Element?, s: seq<Element>)
    requires AppList(h, t, s)
    ensures NextList(h, s) && NoDup(s)
    ensures s != [] ==> h != null
  {
  }

  ghost predicate SameMembers(r: seq<Element>, s: seq<Element>) {
    && |r| == |s|
    && (forall x :: x in s ==> x in r)
    && (forall i :: 0 <= i < |r| ==> r[i] in s)
  }

  /** Sorting neither loses nor adds elements. */
  lemma {:induction false} SortSameElements(cmp: Cmp, s: seq<Element>)
    ensures SameMembers(MergeSort(cmp, 1, s), s)
  {
    var r := MergeSort(cmp, 1, s);
    SortIsPermutation(cmp, 1, s);
    SameLength(r, s);
    assert forall x :: x in r <==> x in multiset(r);
    assert forall x :: x in s <==> x in multiset(s);
    if s != [] {
      AllInside(r, s);
    }
  }
}
