/** Whole runs of the hash table: what a lookup and an iteration see after any sequence of insertions,
    removals of present elements, and sorts. */
module HashRuns {
  import opened HashElements
  import opened HashSort
  import opened HashTable
  import opened Sequences

  datatype Op = Insert(e: Element) | Remove(e: Element) | Reorder(cmp: Cmp)

  datatype Lookup = Absent | Present(e: Element)

  /** The application order after a run. */
  ghost function OrderAfter(ops: seq<Op>): seq<Element> {
    if ops == [] then []
    else
      var l := |ops| - 1;
      var o := OrderAfter(ops[..l]);
      match ops[l]
      case Insert(e) => o + [e]
      case Remove(e) => if e in o then Without(o, e) else o
      case Reorder(cmp) => if o == [] then [] else MergeSort(cmp, 1, o)
  }

  ghost predicate KeyIn(k: int, s: seq<Element>) {
    exists i :: 0 <= i < |s| && s[i].key == k
  }

  /** Insertions are of elements not in the table, be their keys fresh or not, and removals of present
      elements. */
  ghost predicate Feasible(ops: seq<Op>) {
    ops == [] ||
    var l := |ops| - 1;
    && Feasible(ops[..l])
    && match ops[l]
       case Insert(e) => e !in OrderAfter(ops[..l])
       case Remove(e) => e in OrderAfter(ops[..l])
       case Reorder(_) => true
  }

  /** Insertions are of fresh keys as well. */
  ghost predicate Legal(ops: seq<Op>) {
    ops == [] ||
    var l := |ops| - 1;
    && Legal(ops[..l])
    && match ops[l]
       case Insert(e) => !KeyIn(e.key, OrderAfter(ops[..l]))
       case Remove(e) => e in OrderAfter(ops[..l])
       case Reorder(_) => true
  }

  /** The run does not sort. */
  ghost predicate Unsorted(ops: seq<Op>) {
    forall k :: 0 <= k < |ops| ==> !ops[k].Reorder?
  }

  ghost predicate UniqueKeys(s: seq<Element>) {
    forall i, j :: 0 <= i < j < |s| ==> s[i].key != s[j].key
  }

  /** The abstract map: the last operation on a key decides. */
  ghost function MapAfter(ops: seq<Op>, k: int): Lookup {
    if ops == [] then Absent
    else
      var l := |ops| - 1;
      match ops[l]
      case Insert(e) => if e.key == k then Present(e) else MapAfter(ops[..l], k)
      case Remove(e) => if e.key == k then Absent else MapAfter(ops[..l], k)
      case Reorder(_) => MapAfter(ops[..l], k)
  }

  /** The insertions that no later removal undoes, in the order in which they were made. */
  ghost function Survivors(ops: seq<Op>): seq<Element> {
    if ops == [] then []
    else (if ops[0].Insert? && Remove(ops[0].e) !in ops[1..] then [ops[0].e] else []) + Survivors(ops[1..])
  }

  lemma WithoutUnique(s: seq<Element>, x: Element)
    requires x in s && UniqueKeys(s)
    ensures UniqueKeys(Without(s, x)) && !KeyIn(x.key, Without(s, x))
    ensures forall y :: y in Without(s, x) <==> y in s && y != x
  {
    var t, k := Without(s, x), Index(s, x);
    forall y | y in s && y != x ensures y in t {
      var i :| 0 <= i < |s| && s[i] == y;
      assert t[if i < k then i else i - 1] == y;
    }
  }

  lemma {:induction false} LegalIsFeasible(ops: seq<Op>)
    requires Legal(ops)
    ensures Feasible(ops)
  {
    if ops != [] {
      var l := |ops| - 1;
      LegalIsFeasible(ops[..l]);
      NewIsNotInOrder(ops[..l], ops[l]);
    }
  }

  lemma {:induction false} NewIsNotInOrder(ops: seq<Op>, op: Op)
    requires op.Insert? ==> !KeyIn(op.e.key, OrderAfter(ops))
    ensures op.Insert? ==> op.e !in OrderAfter(ops)
  {
  }

  lemma {:induction false} SingleOccurrence(s: seq<Element>, x: Element)
    requires NoDup(s)
    ensures multiset(s)[x] <= 1
  {
    if s != [] {
      assert s == [s[0]] + s[1..];
      SingleOccurrence(s[1..], x);
      forall i | 0 <= i < |s[1..]| ensures s[1..][i] != s[0] {
        assert s[1..][i] == s[i + 1] && s[0] != s[i + 1];
      }
      assert s[0] !in multiset(s[1..]);
    }
  }

  lemma DoubleOccurrence(r: seq<Element>, i: nat, j: nat)
    requires i < j < |r| && r[i] == r[j]
    ensures multiset(r)[r[i]] >= 2
  {
    assert r == r[..j] + r[j..];
    assert r[..j][i] == r[i] && r[j..][0] == r[i];
  }

  lemma {:induction false} SortKeepsNoDup(cmp: Cmp, s: seq<Element>)
    requires NoDup(s) && s != []
    ensures NoDup(MergeSort(cmp, 1, s))
  {
    var r := MergeSort(cmp, 1, s);
    SortIsPermutation(cmp, 1, s);
    forall i, j | 0 <= i < j < |r| ensures r[i] != r[j] {
      SingleOccurrence(s, r[i]);
      if r[i] == r[j] {
        DoubleOccurrence(r, i, j);
      }
    }
  }

  lemma {:induction false} SortKeepsKeysUnique(cmp: Cmp, s: seq<Element>)
    requires UniqueKeys(s) && s != []
    ensures UniqueKeys(MergeSort(cmp, 1, s))
  {
    var r := MergeSort(cmp, 1, s);
    SortKeepsNoDup(cmp, s);
    SortSameElements(cmp, s);
    forall i, j | 0 <= i < j < |r| ensures r[i].key != r[j].key {
      var k :| 0 <= k < |s| && s[k] == r[i];
      var l :| 0 <= l < |s| && s[l] == r[j];
    }
  }

  lemma {:induction false} RunKeepsNoDup(ops: seq<Op>)
    requires Feasible(ops)
    ensures NoDup(OrderAfter(ops))
  {
    if ops != [] {
      var l := |ops| - 1;
      var o := OrderAfter(ops[..l]);
      RunKeepsNoDup(ops[..l]);
      if ops[l].Remove? {
        RemoveAtNoDup(o, Index(o, ops[l].e));
      } else if ops[l].Reorder? && o != [] {
        SortKeepsNoDup(ops[l].cmp, o);
      }
    }
  }

  lemma {:induction false} RunKeepsKeysUnique(ops: seq<Op>)
    requires Legal(ops)
    ensures UniqueKeys(OrderAfter(ops))
  {
    if ops != [] {
      var l := |ops| - 1;
      RunKeepsKeysUnique(ops[..l]);
      if ops[l].Remove? {
        WithoutUnique(OrderAfter(ops[..l]), ops[l].e);
      } else if ops[l].Reorder? && OrderAfter(ops[..l]) != [] {
        SortKeepsKeysUnique(ops[l].cmp, OrderAfter(ops[..l]));
      }
    }
  }

  lemma KeyDecides(s: seq<Element>, x: Element, y: Element)
    requires UniqueKeys(s) && x in s && y in s && x.key == y.key
    ensures x == y
  {
  }

  /** After every legal run an element is in the table exactly when the abstract map holds it. */
  lemma {:induction false} LookupAgrees(ops: seq<Op>, x: Element)
    requires Legal(ops)
    ensures x in OrderAfter(ops) <==> MapAfter(ops, x.key) == Present(x)
  {
    if ops != [] {
      var l := |ops| - 1;
      var o := OrderAfter(ops[..l]);
      LookupAgrees(ops[..l], x);
      RunKeepsKeysUnique(ops[..l]);
      if ops[l].Remove? {
        var e := ops[l].e;
        WithoutUnique(o, e);
        if x in o && x.key == e.key {
          KeyDecides(o, x, e);
        }
      } else if ops[l].Insert? {
        assert x in o ==> KeyIn(x.key, o);
      } else if o != [] {
        SortSameElements(ops[l].cmp, o);
      }
    }
  }

  lemma {:induction false} SurvivorsInsert(ops: seq<Op>, e: Element)
    ensures Survivors(ops + [Insert(e)]) == Survivors(ops) + [e]
  {
    var t := ops + [Insert(e)];
    if ops != [] {
      assert t[1..] == ops[1..] + [Insert(e)];
      SurvivorsInsert(ops[1..], e);
    }
  }

  lemma {:induction false} SurvivorsMember(ops: seq<Op>, x: Element)
    ensures x in Survivors(ops) ==> Insert(x) in ops
  {
    if ops != [] {
      SurvivorsMember(ops[1..], x);
    }
  }

  /** s without every occurrence of x. */
  ghost function Erase(s: seq<Element>, x: Element): seq<Element> {
    if s == [] then [] else (if s[0] == x then [] else [s[0]]) + Erase(s[1..], x)
  }

  lemma {:induction false} SurvivorsRemove(ops: seq<Op>, e: Element)
    ensures Survivors(ops + [Remove(e)]) == Erase(Survivors(ops), e)
  {
    var t := ops + [Remove(e)];
    if ops == [] {
      assert t[1..] == [];
    } else {
      assert t[1..] == ops[1..] + [Remove(e)];
      SurvivorsRemove(ops[1..], e);
      var rest := Survivors(ops[1..]);
      assert t[0] == ops[0] && [] + rest == rest;
      if ops[0].Insert? {
        var e0 := ops[0].e;
        assert Remove(e0) in t[1..] <==> Remove(e0) in ops[1..] || e0 == e;
        assert ([e0] + rest)[1..] == rest;
      }
    }
  }

  lemma {:induction false} EraseAbsent(s: seq<Element>, x: Element)
    requires x !in s
    ensures Erase(s, x) == s
  {
    if s != [] {
      EraseAbsent(s[1..], x);
    }
  }

  lemma {:induction false} EraseIsWithout(s: seq<Element>, x: Element)
    requires x in s && NoDup(s)
    ensures Erase(s, x) == Without(s, x)
  {
    if s[0] == x {
      EraseAbsent(s[1..], x);
      assert Without(s, x) == s[1..];
    } else {
      EraseIsWithout(s[1..], x);
      assert Without(s, x) == [s[0]] + Without(s[1..], x);
    }
  }

  /** Iteration sees the insertions in order, minus the removed elements. */
  lemma {:induction false} IterationOrder(ops: seq<Op>)
    requires Feasible(ops) && Unsorted(ops)
    ensures OrderAfter(ops) == Survivors(ops)
  {
    if ops != [] {
      var l := |ops| - 1;
      IterationOrder(ops[..l]);
      RunKeepsNoDup(ops[..l]);
      assert ops == ops[..l] + [ops[l]];
      match ops[l]
      case Insert(e) => SurvivorsInsert(ops[..l], e);
      case Remove(e) =>
        SurvivorsRemove(ops[..l], e);
        EraseIsWithout(OrderAfter(ops[..l]), e);
    }
  }

  // ---------------------------------------------------------------- tables

  /** The elements that a run has to do with. */
  ghost function Used(ops: seq<Op>): set<Element> {
    set k | 0 <= k < |ops| && !ops[k].Reorder? :: ops[k].e
  }

  lemma {:induction false} OrderIsUsed(ops: seq<Op>)
    ensures forall x :: x in OrderAfter(ops) ==> x in Used(ops)
  {
    if ops != [] {
      var l := |ops| - 1;
      var o := OrderAfter(ops[..l]);
      OrderIsUsed(ops[..l]);
      forall x | x in Used(ops[..l]) ensures x in Used(ops) {
        var k :| 0 <= k < l && !ops[..l][k].Reorder? && ops[..l][k].e == x;
        assert ops[k].e == x;
      }
      if ops[l].Insert? {
        assert ops[l].e in Used(ops);
      } else if ops[l].Reorder? && o != [] {
        SortSameElements(ops[l].cmp, o);
      }
    }
  }

  /** The order after one more operation. */
  ghost function Reordered(op: Op, o: seq<Element>): seq<Element>
    requires op.Remove? ==> op.e in o
  {
    match op
    case Insert(e) => o + [e]
    case Remove(e) => Without(o, e)
    case Reorder(cmp) => if o == [] then [] else MergeSort(cmp, 1, o)
  }

  /** An operation that a table with order o can carry out. */
  ghost predicate Allowed(op: Op, o: seq<Element>) {
    && (op.Insert? ==> op.e !in o)
    && (op.Remove? ==> op.e in o)
  }

  /** Carries out one operation on a table. */
  method Apply(t: Table, op: Op)
    requires t.Valid()
    requires op.Insert? ==> op.e !in t.order
    requires op.Remove? ==> op.e in t.order
    modifies t, t.buckets, t.order, Used([op])
    ensures t.Valid() && (t.buckets == old(t.buckets) || fresh(t.buckets))
    ensures t.order == Reordered(op, old(t.order))
  {
    assert op.Insert? ==> [op][0].e in Used([op]);
    match op {
      case Insert(e) => t.Add(e);
      case Remove(e) => t.Delete(e);
      case Reorder(cmp) => t.Sort(cmp);
    }
  }

  lemma {:induction false} FeasiblePrefix(ops: seq<Op>, k: nat)
    requires Feasible(ops) && k <= |ops|
    ensures Feasible(ops[..k])
    decreases |ops| - k
  {
    if k == |ops| {
      assert ops[..k] == ops;
    } else {
      FeasiblePrefix(ops, k + 1);
      assert ops[..k + 1][..k] == ops[..k];
    }
  }

  lemma UsedSoFar(ops: seq<Op>, k: nat)
    requires k < |ops|
    ensures Used(ops[..k]) <= Used(ops) && Used([ops[k]]) <= Used(ops)
  {
    forall x | x in Used(ops[..k]) ensures x in Used(ops) {
      var i :| 0 <= i < k && !ops[..k][i].Reorder? && ops[..k][i].e == x;
      assert ops[i].e == x;
    }
    assert !ops[k].Reorder? ==> ops[k].e in Used(ops);
  }

  /** What holds before the k-th operation of a run on an empty table. */
  lemma {:induction false} OneMore(ops: seq<Op>, k: nat)
    requires k < |ops| && Feasible(ops)
    ensures Allowed(ops[k], OrderAfter(ops[..k]))
    ensures OrderAfter(ops[..k + 1]) == Reordered(ops[k], OrderAfter(ops[..k]))
    ensures forall i :: 0 <= i < |OrderAfter(ops[..k])| ==> OrderAfter(ops[..k])[i] in Used(ops)
    ensures Used([ops[k]]) <= Used(ops)
  {
    FeasiblePrefix(ops, k + 1);
    assert ops[..k + 1][..k] == ops[..k] && ops[..k + 1][k] == ops[k];
    OrderIsUsed(ops[..k]);
    UsedSoFar(ops, k);
  }

  /** Carries out a whole run on an empty table. Its order becomes the run's, which without a sort is
      insertion order minus deletions. */
  method Run(t: Table, ops: seq<Op>)
    requires t.Valid() && t.order == [] && Feasible(ops)
    modifies t, t.buckets, Used(ops)
    ensures t.Valid() && t.order == OrderAfter(ops)
    ensures Unsorted(ops) ==> t.order == Survivors(ops)
  {
    var k := 0;
    while k < |ops|
      invariant 0 <= k <= |ops| && t.Valid() && t.order == OrderAfter(ops[..k])
      invariant t.buckets == old(t.buckets) || fresh(t.buckets)
    {
      OneMore(ops, k);
      hide Table.Valid, Table.BucketPart, Table.OrderPart, OrderAfter, Feasible, Used, Survivors, UniqueKeys, Reordered;
      Apply(t, ops[k]);
      k := k + 1;
    }
    assert ops[..|ops|] == ops;
    if Unsorted(ops) {
      IterationOrder(ops);
    }
  }

  /** A lookup after a whole run returns an element with the key if the table has one, and, if all keys
      inserted were fresh, what the abstract map holds. */
  method RunThenFind(t: Table, ops: seq<Op>, k: int) returns (out: Element?)
    requires t.Valid() && t.order == [] && Feasible(ops)
    modifies t, t.buckets, Used(ops)
    ensures out != null ==> out in OrderAfter(ops) && out.key == k
    ensures out == null ==> !KeyIn(k, OrderAfter(ops))
    ensures Legal(ops) ==> Answers(ops, k, out)
  {
    Run(t, ops);
    out := t.Find(k);
    if Legal(ops) {
      FoundAnswers(ops, k, out);
    }
  }

  /** What the lookup of k in the table returns after the run. */
  ghost predicate Answers(ops: seq<Op>, k: int, out: Element?) {
    MapAfter(ops, k) == if out == null then Absent else Present(out)
  }

  lemma {:induction false} MapHoldsOwnKey(ops: seq<Op>, k: int)
    ensures MapAfter(ops, k).Present? ==> MapAfter(ops, k).e.key == k
  {
    if ops != [] {
      MapHoldsOwnKey(ops[..|ops| - 1], k);
    }
  }

  /** An element that a table with the order of a run finds is what the abstract map holds. */
  lemma {:induction false} FoundAnswers(ops: seq<Op>, k: int, out: Element?)
    requires Legal(ops)
    requires out != null ==> out in OrderAfter(ops) && out.key == k
    requires out == null ==> forall x :: x in OrderAfter(ops) ==> x.key != k
    ensures Answers(ops, k, out)
  {
    MapHoldsOwnKey(ops, k);
    if out != null {
      LookupAgrees(ops, out);
    } else if MapAfter(ops, k).Present? {
      LookupAgrees(ops, MapAfter(ops, k).e);
      assert false;
    }
  }

  /** A table whose order is that of a run answers a lookup as the abstract map does. */
  method FindAfter(t: Table, k: int, ghost ops: seq<Op>) returns (out: Element?)
    requires t.Valid() && Legal(ops) && t.order == OrderAfter(ops)
    ensures Answers(ops, k, out)
  {
    out := t.Find(k);
    FoundAnswers(ops, k, out);
  }

  /** The contact list's comparator: contacts that are online come first. */
  function ContactCompare(lhs: Element, rhs: Element): int {
    rhs.isOnline - lhs.isOnline
  }

  /** Sorting contacts lists them by descending status and keeps their order within a status. */
  lemma {:induction false} ContactsSorted(s: seq<Element>)
    ensures IsStableSort(ContactCompare, s, MergeSort(ContactCompare, 1, s))
    ensures forall i, j :: 0 <= i < j < |s| ==>
              |MergeSort(ContactCompare, 1, s)| == |s|
              && MergeSort(ContactCompare, 1, s)[i].isOnline >= MergeSort(ContactCompare, 1, s)[j].isOnline
  {
    assert TotalPreorder(ContactCompare, multiset(s));
    var r := MergeSort(ContactCompare, 1, s);
    SortCorrect(ContactCompare, s, r);
    SortSameElements(ContactCompare, s);
    forall i, j | 0 <= i < j < |s| ensures r[i].isOnline >= r[j].isOnline {
      assert Below(ContactCompare, r[i], r[j]);
    }
  }
}
