/** The timing wheel on values, and what it means: every connection carries an age, the number of
    seconds since it was last put into the wheel. */
module TimerSpec {
  import opened Sequences

  const CLIENT_TIMEOUT := 120
  const MAX_SLOTS := CLIENT_TIMEOUT + 1

  datatype Wheel<C> = Wheel(prev: nat, current: nat, slots: seq<seq<C>>)

  // ---------------------------------------------------------------- the operations

  function Tick<C>(w: Wheel<C>, interval: nat): (r: Wheel<C>)
    ensures r.current < MAX_SLOTS
  {
    w.(prev := w.current, current := (w.current + interval) % MAX_SLOTS)
  }

  function InsertIndex(current: nat): nat {
    if current == 0 then MAX_SLOTS - 1 else current - 1
  }

  ghost predicate Sized<C>(w: Wheel<C>) {
    |w.slots| == MAX_SLOTS && w.prev < MAX_SLOTS && w.current < MAX_SLOTS
  }

  function Add<C>(w: Wheel<C>, c: C): (r: Wheel<C>)
    requires Sized(w)
    ensures Sized(r) && r.prev == w.prev && r.current == w.current
  {
    var i := InsertIndex(w.current);
    w.(slots := w.slots[i := w.slots[i] + [c]])
  }

  function Erase<C(==)>(s: seq<C>, c: C): seq<C> {
    if s == [] then []
    else if s[0] == c then s[1..]
    else [s[0]] + Erase(s[1..], c)
  }

  ghost function Del<C>(w: Wheel<C>, i: nat, c: C): Wheel<C>
    requires i < |w.slots|
  {
    w.(slots := w.slots[i := Erase(w.slots[i], c)])
  }

  /** The slot that holds c, if any does. */
  ghost predicate In<C>(w: Wheel<C>, i: int, older c: C) {
    0 <= i < |w.slots| && c in w.slots[i]
  }

  ghost predicate Holds<C>(w: Wheel<C>, c: C) {
    exists i :: In(w, i, c)
  }

  ghost function Remove<C>(w: Wheel<C>, c: C): (r: Wheel<C>)
    ensures r.prev == w.prev && r.current == w.current && |r.slots| == |w.slots|
  {
    if Holds(w, c) then var i :| In(w, i, c); Del(w, i, c) else w
  }

  ghost function MarkAlive<C>(w: Wheel<C>, c: C): (r: Wheel<C>)
    requires Sized(w)
    ensures Sized(r) && r.prev == w.prev && r.current == w.current
  {
    Add(Remove(w, c), c)
  }

  /** Refreshes the connections of a list. One that is not in the wheel is put in all the same. */
  ghost function MarkAll<C>(w: Wheel<C>, alive: seq<C>): (r: Wheel<C>)
    requires Sized(w)
    ensures Sized(r) && r.prev == w.prev && r.current == w.current
    decreases |alive|
  {
    if alive == [] then w
    else MarkAll(MarkAlive(w, alive[0]), alive[1..])
  }

  /** How many slots expire: those behind prev up to and including current, around the wheel. */
  function Span(prev: nat, current: nat): int {
    if prev < current then current - prev else current + MAX_SLOTS - prev
  }

  /** The position of slot i counted from the first slot behind prev. */
  function Offset(prev: nat, i: nat): int {
    if i > prev then i - prev - 1 else i + MAX_SLOTS - prev - 1
  }

  /** The slot behind prev, the first to expire. */
  function FirstSlot(prev: nat): nat {
    (prev + 1) % MAX_SLOTS
  }

  /** The concatenation of the first n slots behind prev. */
  function Gathered<C>(w: Wheel<C>, n: nat): seq<C>
    requires Sized(w)
  {
    if n == 0 then [] else Gathered(w, n - 1) + w.slots[(w.prev + n) % MAX_SLOTS]
  }

  function TimeoutList<C>(w: Wheel<C>): seq<C>
    requires Sized(w)
  {
    Gathered(w, Span(w.prev, w.current))
  }

  /** The wheel without the expired slots' contents. */
  ghost function Drained<C>(w: Wheel<C>): Wheel<C>
    requires Sized(w)
  {
    w.(slots := seq(MAX_SLOTS, i requires 0 <= i < MAX_SLOTS =>
                    if Offset(w.prev, i) < Span(w.prev, w.current) then [] else w.slots[i]))
  }

  /** The wheel in the middle of collecting: the first of the expired slots holds the first n. */
  ghost function Collected<C>(w: Wheel<C>, n: nat): (r: Wheel<C>)
    requires Sized(w)
    ensures Sized(r)
  {
    w.(slots := seq(MAX_SLOTS, i requires 0 <= i < MAX_SLOTS =>
                    if Offset(w.prev, i) == 0 then Gathered(w, n)
                    else if Offset(w.prev, i) < n then [] else w.slots[i]))
  }

  /** A whole expiry pass. */
  ghost function Pass<C>(w: Wheel<C>, interval: nat, alive: seq<C>): Wheel<C>
    requires Sized(w)
  {
    Drained(MarkAll(Tick(w, interval), alive))
  }

  ghost function TimedOut<C>(w: Wheel<C>, interval: nat, alive: seq<C>): seq<C>
    requires Sized(w)
  {
    TimeoutList(MarkAll(Tick(w, interval), alive))
  }

  // ---------------------------------------------------------------- where connections are

  /** Every connection is in at most one slot, and there once. */
  ghost predicate Inv<C>(w: Wheel<C>) {
    && Sized(w)
    && (forall i :: 0 <= i < MAX_SLOTS ==> NoDup(w.slots[i]))
    && (forall i, j, c :: In(w, i, c) && In(w, j, c) ==> i == j)
  }

  lemma {:induction false} EraseMember<C>(s: seq<C>, c: C, x: C)
    requires NoDup(s)
    ensures x in Erase(s, c) <==> x in s && x != c
  {
    if s != [] {
      assert s == [s[0]] + s[1..];
      EraseMember(s[1..], c, x);
    }
  }

  lemma {:induction false} EraseNoDup<C>(s: seq<C>, c: C)
    requires NoDup(s)
    ensures NoDup(Erase(s, c))
  {
    if s != [] {
      EraseNoDup(s[1..], c);
      EraseMember(s[1..], c, s[0]);
    }
  }

  lemma {:induction false} EraseMembers<C>(s: seq<C>, c: C)
    requires NoDup(s)
    ensures NoDup(Erase(s, c))
    ensures forall x :: x in Erase(s, c) <==> x in s && x != c
  {
    EraseNoDup(s, c);
    forall x ensures x in Erase(s, c) <==> x in s && x != c {
      EraseMember(s, c, x);
    }
  }

  lemma DelPlaces<C>(w: Wheel<C>, i: nat, c: C)
    requires Inv(w) && In(w, i, c)
    ensures Inv(Del(w, i, c))
    ensures forall j, x :: In(Del(w, i, c), j, x) <==> In(w, j, x) && x != c
  {
    EraseMembers(w.slots[i], c);
    var r := Del(w, i, c);
    forall j, x | In(r, j, x) ensures In(w, j, x) && x != c {
      if j != i && x == c {
        assert In(w, j, c);
        assert false;
      }
    }
  }

  lemma RemoveIsDel<C>(w: Wheel<C>, i: nat, c: C)
    requires Inv(w) && In(w, i, c)
    ensures Remove(w, c) == Del(w, i, c)
  {
    var j :| In(w, j, c) && Remove(w, c) == Del(w, j, c);
  }

  lemma RemovePlaces<C>(w: Wheel<C>, c: C)
    requires Inv(w)
    ensures Inv(Remove(w, c))
    ensures forall j, x :: In(Remove(w, c), j, x) <==> In(w, j, x) && x != c
  {
    if Holds(w, c) {
      var i :| In(w, i, c) && Remove(w, c) == Del(w, i, c);
      DelPlaces(w, i, c);
    }
  }

  lemma AddPlaces<C>(w: Wheel<C>, c: C)
    requires Inv(w) && !Holds(w, c)
    ensures Inv(Add(w, c))
    ensures forall j, x :: In(Add(w, c), j, x) <==> In(w, j, x) || (x == c && j == InsertIndex(w.current))
  {
    var r, k := Add(w, c), InsertIndex(w.current);
    assert !In(w, k, c);
    forall j, x | In(r, j, x) ensures In(w, j, x) || (x == c && j == k) {
    }
    forall i, j, x | In(r, i, x) && In(r, j, x) ensures i == j {
      assert x == c ==> !In(w, i, x) && !In(w, j, x);
    }
  }

  /** Refreshing puts a connection of the wheel into the slot just before current, and moves no other. */
  lemma MarkPlaces<C>(w: Wheel<C>, c: C)
    requires Inv(w)
    ensures Inv(MarkAlive(w, c))
    ensures forall j, x :: In(MarkAlive(w, c), j, x) <==> if x == c then j == InsertIndex(w.current) else In(w, j, x)
  {
    RemovePlaces(w, c);
    AddPlaces(Remove(w, c), c);
  }

  lemma MarkHolds<C>(w: Wheel<C>, c: C, x: C)
    requires Inv(w)
    ensures Holds(MarkAlive(w, c), x) <==> Holds(w, x) || x == c
  {
    MarkPlaces(w, c);
    var r := MarkAlive(w, c);
    assert In(r, InsertIndex(w.current), c);
    if Holds(w, x) {
      var i :| In(w, i, x);
      assert x != c ==> In(r, i, x);
    }
    if Holds(r, x) {
      var i :| In(r, i, x);
      assert x != c ==> In(w, i, x);
    }
  }

  lemma {:induction false} MarkAllPlaces<C>(w: Wheel<C>, alive: seq<C>)
    requires Inv(w)
    ensures Inv(MarkAll(w, alive))
    ensures forall j, x :: In(MarkAll(w, alive), j, x) <==>
              if x in alive then j == InsertIndex(w.current) else In(w, j, x)
    decreases |alive|
  {
    if alive != [] {
      MarkPlaces(w, alive[0]);
      MarkAllPlaces(MarkAlive(w, alive[0]), alive[1..]);
      assert forall x :: x in alive <==> x == alive[0] || x in alive[1..];
    }
  }

  // ---------------------------------------------------------------- what expires

  lemma SpanEnd(prev: nat, current: nat)
    requires prev < MAX_SLOTS && current < MAX_SLOTS
    ensures prev + Span(prev, current) == if prev < current then current else current + MAX_SLOTS
    ensures 1 <= Span(prev, current) <= MAX_SLOTS
  {
  }

  lemma WrapAround(prev: nat, k: nat)
    requires prev < MAX_SLOTS && 1 <= k <= MAX_SLOTS
    ensures var i := (prev + k) % MAX_SLOTS; i < MAX_SLOTS && Offset(prev, i) == k - 1
  {
  }

  lemma GatherIndex(prev: nat, i: nat)
    requires prev < MAX_SLOTS && i < MAX_SLOTS
    ensures 0 <= Offset(prev, i) < MAX_SLOTS && (prev + Offset(prev, i) + 1) % MAX_SLOTS == i
  {
  }

  /** The gathered connections are those in the first n slots behind prev, each once. */
  lemma {:induction false} GatheredMembers<C>(w: Wheel<C>, n: nat, x: C)
    requires Sized(w) && n <= MAX_SLOTS
    ensures x in Gathered(w, n) <==> exists i :: In(w, i, x) && Offset(w.prev, i) < n
  {
    if n > 0 {
      GatheredMembers(w, n - 1, x);
      WrapAround(w.prev, n);
      var k := (w.prev + n) % MAX_SLOTS;
      if x in w.slots[k] {
        assert In(w, k, x);
      }
      if i :| In(w, i, x) && Offset(w.prev, i) < n {
        GatherIndex(w.prev, i);
      }
    }
  }

  lemma NoDupConcat<C>(a: seq<C>, b: seq<C>)
    requires NoDup(a) && NoDup(b) && forall x :: x in a ==> x !in b
    ensures NoDup(a + b)
  {
    var s := a + b;
    forall i, j | 0 <= i < j < |s| ensures s[i] != s[j] {
      if i < |a| <= j {
        assert s[i] in a && s[j] == b[j - |a|] && s[j] in b;
      }
    }
  }

  lemma {:induction false} GatheredNoDup<C>(w: Wheel<C>, n: nat)
    requires Inv(w) && n <= MAX_SLOTS
    ensures NoDup(Gathered(w, n))
  {
    if n > 0 {
      GatheredNoDup(w, n - 1);
      WrapAround(w.prev, n);
      var k := (w.prev + n) % MAX_SLOTS;
      forall x | x in Gathered(w, n - 1) ensures x !in w.slots[k] {
        GatheredMembers(w, n - 1, x);
        var i :| In(w, i, x) && Offset(w.prev, i) < n - 1;
        assert x in w.slots[k] ==> In(w, k, x);
      }
      NoDupConcat(Gathered(w, n - 1), w.slots[k]);
    }
  }

  lemma CollectStep<C>(w: Wheel<C>, n: nat)
    requires Sized(w) && 1 <= n < MAX_SLOTS
    ensures var first, k := FirstSlot(w.prev), (w.prev + n + 1) % MAX_SLOTS;
            var r := Collected(w, n);
            && first < MAX_SLOTS && k < MAX_SLOTS && first != k
            && r.slots[first] == Gathered(w, n) && r.slots[k] == w.slots[k]
            && Collected(w, n + 1) == r.(slots := r.slots[first := Gathered(w, n) + w.slots[k]][k := []])
  {
    WrapAround(w.prev, 1);
    WrapAround(w.prev, n + 1);
    var first, k := FirstSlot(w.prev), (w.prev + n + 1) % MAX_SLOTS;
    var r, q := Collected(w, n), Collected(w, n + 1);
    forall i | 0 <= i < MAX_SLOTS ensures q.slots[i] == r.slots[first := Gathered(w, n) + w.slots[k]][k := []][i] {
      GatherIndex(w.prev, i);
    }
  }

  lemma CollectFirst<C>(w: Wheel<C>)
    requires Sized(w)
    ensures Collected(w, 1) == w
  {
    WrapAround(w.prev, 1);
    assert Gathered(w, 1) == Gathered(w, 0) + w.slots[(w.prev + 1) % MAX_SLOTS] == w.slots[(w.prev + 1) % MAX_SLOTS];
    forall i | 0 <= i < MAX_SLOTS ensures Collected(w, 1).slots[i] == w.slots[i] {
      GatherIndex(w.prev, i);
    }
  }

  /** Emptying the slot everything was collected in leaves the drained wheel. */
  lemma CollectedDrained<C>(w: Wheel<C>, c: seq<seq<C>>)
    requires Sized(w) && Wheel(w.prev, w.current, c) == Collected(w, Span(w.prev, w.current))
    ensures var first := FirstSlot(w.prev);
            first < |c| && c[first] == TimeoutList(w) && Wheel(w.prev, w.current, c[first := []]) == Drained(w)
  {
    var first := FirstSlot(w.prev);
    WrapAround(w.prev, 1);
    forall i | 0 <= i < MAX_SLOTS ensures Drained(w).slots[i] == c[first := []][i] {
      GatherIndex(w.prev, i);
    }
  }

  /** Draining empties exactly the expired slots. */
  lemma DrainedPlaces<C>(w: Wheel<C>)
    requires Inv(w)
    ensures Inv(Drained(w))
    ensures forall j, x :: In(Drained(w), j, x) <==> In(w, j, x) && Offset(w.prev, j) >= Span(w.prev, w.current)
  {
    var r := Drained(w);
    forall i, j, x | In(r, i, x) && In(r, j, x) ensures i == j {
      assert In(w, i, x) && In(w, j, x);
    }
  }

  // ---------------------------------------------------------------- ages

  /** The age a connection in slot i has: the ticks since it was put in, or CLIENT_TIMEOUT for the
      slot at current, which is empty between passes. */
  function Age(current: nat, i: nat): int {
    if i < current then current - 1 - i else current + CLIENT_TIMEOUT - i
  }

  function SlotFor(current: nat, age: nat): int {
    if age < current then current - 1 - age else current + CLIENT_TIMEOUT - age
  }

  /** The wheel represents the ages m. */
  ghost predicate Ages<C>(w: Wheel<C>, m: map<C, nat>) {
    && Inv(w)
    && (forall i, c :: In(w, i, c) ==> c in m && m[c] == Age(w.current, i))
    && (forall c :: c in m ==> m[c] < CLIENT_TIMEOUT && In(w, SlotFor(w.current, m[c]), c))
  }

  /** What a pass means for the ages: a refreshed connection starts again, provided the pass covers a
      single second; every other one grows older, and leaves once it is CLIENT_TIMEOUT old. */
  ghost function AgesAfter<C>(m: map<C, nat>, interval: nat, alive: seq<C>): map<C, nat> {
    map c | c in m.Keys + (set x | x in alive)
            && (if c in alive then interval == 1 else m[c] + interval < CLIENT_TIMEOUT)
      :: if c in alive then 0 else m[c] + interval
  }

  lemma ArriveRefines<C>(w: Wheel<C>, m: map<C, nat>, c: C)
    requires Ages(w, m) && c !in m
    ensures Ages(Add(w, c), m[c := 0])
  {
    AddPlaces(w, c);
  }

  lemma LeaveRefines<C>(w: Wheel<C>, m: map<C, nat>, c: C)
    requires Ages(w, m)
    ensures Ages(Remove(w, c), m - {c})
  {
    RemovePlaces(w, c);
    var r, n := Remove(w, c), m - {c};
    forall i, x | In(r, i, x) ensures x in n && n[x] == Age(r.current, i) {
      assert In(w, i, x) && x != c;
    }
  }

  /** One second-accurate account of how a slot's age and its expiry relate. */
  lemma SlotAges(prev: nat, interval: nat, i: nat)
    requires prev < MAX_SLOTS && i < MAX_SLOTS && 1 <= interval <= CLIENT_TIMEOUT
    ensures var cur := (prev + interval) % MAX_SLOTS;
            && Span(prev, cur) == interval
            && (Age(prev, i) < CLIENT_TIMEOUT ==>
                  (Offset(prev, i) < interval <==> Age(prev, i) + interval >= CLIENT_TIMEOUT))
            && (Age(prev, i) + interval < CLIENT_TIMEOUT ==> Age(cur, i) == Age(prev, i) + interval)
            && (Offset(prev, InsertIndex(cur)) < interval <==> interval >= 2)
            && Age(cur, InsertIndex(cur)) == 0
  {
    var sum := prev + interval;
    assert sum % MAX_SLOTS == if sum < MAX_SLOTS then sum else sum - MAX_SLOTS;
  }

  lemma SlotForAge(current: nat, i: nat)
    requires current < MAX_SLOTS && i < MAX_SLOTS
    ensures 0 <= Age(current, i) <= CLIENT_TIMEOUT && SlotFor(current, Age(current, i)) == i
  {
  }

  lemma HeldIsAged<C>(w: Wheel<C>, m: map<C, nat>, c: C)
    requires Ages(w, m)
    ensures Holds(w, c) <==> c in m
    ensures c in m ==> 0 <= SlotFor(w.current, m[c]) < MAX_SLOTS && Age(w.current, SlotFor(w.current, m[c])) == m[c]
  {
    if c in m {
      assert In(w, SlotFor(w.current, m[c]), c);
    }
  }

  /** Where a connection is after the keep-alive list has been worked through. */
  lemma {:induction false} MarkedPlaces<C>(w: Wheel<C>, m: map<C, nat>, interval: nat, alive: seq<C>, i: int, c: C)
    requires Ages(w, m) && 1 <= interval <= CLIENT_TIMEOUT
    ensures var v := MarkAll(Tick(w, interval), alive);
            && Inv(v) && v.prev == w.current && v.current == (w.current + interval) % MAX_SLOTS
            && (In(v, i, c) <==>
                if c in alive then i == InsertIndex(v.current) else c in m && i == SlotFor(w.current, m[c]))
  {
    var u := Tick(w, interval);
    assert Inv(u) by {
      assert forall i, c :: In(u, i, c) <==> In(w, i, c);
    }
    MarkAllPlaces(u, alive);
    HeldIsAged(w, m, c);
    if Holds(w, c) {
      var k :| In(w, k, c);
      assert In(u, k, c);
    }
    if Holds(u, c) {
      var k :| In(u, k, c);
      assert In(w, k, c);
    }
    if In(w, i, c) {
      SlotForAge(w.current, i);
    }
  }

  /** The slot that holds a connection when the expired slots are collected. */
  ghost function SlotInPass<C>(w: Wheel<C>, m: map<C, nat>, interval: nat, alive: seq<C>, c: C): int
    requires c in alive || c in m
  {
    if c in alive then InsertIndex((w.current + interval) % MAX_SLOTS) else SlotFor(w.current, m[c])
  }

  lemma SlotInPassExpires<C>(w: Wheel<C>, m: map<C, nat>, interval: nat, alive: seq<C>, c: C)
    requires Ages(w, m) && 1 <= interval <= CLIENT_TIMEOUT && (c in alive || c in m)
    ensures var i := SlotInPass(w, m, interval, alive, c);
            && 0 <= i < MAX_SLOTS
            && (Offset(w.current, i) < interval <==> c !in AgesAfter(m, interval, alive))
  {
    HeldIsAged(w, m, c);
    SlotAges(w.current, interval, SlotInPass(w, m, interval, alive, c));
  }

  lemma {:induction false} GatheredFromSlot<C>(v: Wheel<C>, n: nat, i: nat, c: C)
    requires Sized(v) && n <= MAX_SLOTS && In(v, i, c) && forall j :: In(v, j, c) ==> j == i
    ensures c in Gathered(v, n) <==> Offset(v.prev, i) < n
  {
    GatheredMembers(v, n, c);
  }

  lemma TimesOut<C>(w: Wheel<C>, m: map<C, nat>, interval: nat, alive: seq<C>, c: C)
    requires Ages(w, m) && 1 <= interval <= CLIENT_TIMEOUT
    ensures c in TimedOut(w, interval, alive) <==> (c in m || c in alive) && c !in AgesAfter(m, interval, alive)
  {
    var v := MarkAll(Tick(w, interval), alive);
    SlotAges(w.current, interval, 0);
    MarkedPlaces(w, m, interval, alive, 0, c);
    forall j ensures In(v, j, c) <==> (c in m || c in alive) && j == SlotInPass(w, m, interval, alive, c) {
      MarkedPlaces(w, m, interval, alive, j, c);
    }
    hide MarkAll, Gathered, Ages, Inv, SlotInPass, In;
    if c in m || c in alive {
      SlotInPassExpires(w, m, interval, alive, c);
      GatheredFromSlot(v, interval, SlotInPass(w, m, interval, alive, c), c);
    } else {
      GatheredMembers(v, interval, c);
    }
  }

  /** A pass times out exactly the connections that AgesAfter drops, each once. */
  lemma PassTimesOut<C>(w: Wheel<C>, m: map<C, nat>, interval: nat, alive: seq<C>)
    requires Ages(w, m) && 1 <= interval <= CLIENT_TIMEOUT
    ensures NoDup(TimedOut(w, interval, alive))
    ensures forall c :: c in TimedOut(w, interval, alive) <==>
              (c in m || c in alive) && c !in AgesAfter(m, interval, alive)
  {
    var v := MarkAll(Tick(w, interval), alive);
    forall c
      ensures c in TimedOut(w, interval, alive) <==> (c in m || c in alive) && c !in AgesAfter(m, interval, alive)
    {
      TimesOut(w, m, interval, alive, c);
    }
    SlotAges(w.current, interval, 0);
    InvAfterMarks(w, m, interval, alive);
    GatheredNoDup(v, interval);
  }

  lemma {:induction false} InvAfterMarks<C>(w: Wheel<C>, m: map<C, nat>, interval: nat, alive: seq<C>)
    requires Ages(w, m)
    ensures Inv(MarkAll(Tick(w, interval), alive))
  {
    var u := Tick(w, interval);
    assert forall i, c :: In(u, i, c) <==> In(w, i, c);
    MarkAllPlaces(u, alive);
  }

  lemma SlotAfterPass<C>(w: Wheel<C>, m: map<C, nat>, interval: nat, alive: seq<C>, c: C)
    requires Ages(w, m) && 1 <= interval <= CLIENT_TIMEOUT && c in AgesAfter(m, interval, alive)
    ensures var cur := (w.current + interval) % MAX_SLOTS;
            var age := AgesAfter(m, interval, alive)[c];
            && age < CLIENT_TIMEOUT && SlotInPass(w, m, interval, alive, c) == SlotFor(cur, age)
            && Age(cur, SlotInPass(w, m, interval, alive, c)) == age
  {
    HeldIsAged(w, m, c);
    var i := SlotInPass(w, m, interval, alive, c);
    SlotAges(w.current, interval, i);
    SlotForAge((w.current + interval) % MAX_SLOTS, i);
  }

  /** Where the connections are after a pass. */
  lemma PassPlaces<C>(w: Wheel<C>, m: map<C, nat>, interval: nat, alive: seq<C>, i: int, c: C)
    requires Ages(w, m) && 1 <= interval <= CLIENT_TIMEOUT
    ensures In(Pass(w, interval, alive), i, c)
            <==> c in AgesAfter(m, interval, alive) && i == SlotInPass(w, m, interval, alive, c)
  {
    var v := MarkAll(Tick(w, interval), alive);
    InvAfterMarks(w, m, interval, alive);
    DrainedPlaces(v);
    SlotAges(w.current, interval, 0);
    MarkedPlaces(w, m, interval, alive, i, c);
    hide MarkAll, Drained, Ages, Inv;
    if c in m || c in alive {
      SlotInPassExpires(w, m, interval, alive, c);
    }
  }

  /** A pass does to the wheel what AgesAfter does to the ages. */
  lemma PassRefines<C>(w: Wheel<C>, m: map<C, nat>, interval: nat, alive: seq<C>)
    requires Ages(w, m) && 1 <= interval <= CLIENT_TIMEOUT
    ensures Ages(Pass(w, interval, alive), AgesAfter(m, interval, alive))
  {
    var r, n := Pass(w, interval, alive), AgesAfter(m, interval, alive);
    InvAfterMarks(w, m, interval, alive);
    DrainedPlaces(MarkAll(Tick(w, interval), alive));
    forall i, c | In(r, i, c) ensures c in n && n[c] == Age(r.current, i) {
      PassPlaces(w, m, interval, alive, i, c);
      SlotAfterPass(w, m, interval, alive, c);
    }
    forall c | c in n ensures n[c] < CLIENT_TIMEOUT && In(r, SlotFor(r.current, n[c]), c) {
      SlotAfterPass(w, m, interval, alive, c);
      PassPlaces(w, m, interval, alive, SlotFor(r.current, n[c]), c);
    }
  }

  // ---------------------------------------------------------------- whole runs

  /** What happens to the wheel: a connection is accepted, a connection is closed before it times
      out, or some seconds have passed and the expiry pass runs with the keep-alives received. */
  datatype Step<C> = Arrive(c: C) | Leave(c: C) | Expire(interval: nat, alive: seq<C>)

  function InitialWheel<C>(): Wheel<C> {
    Wheel(0, 0, seq(MAX_SLOTS, _ => []))
  }

  ghost function WheelStep<C>(w: Wheel<C>, s: Step<C>): (r: Wheel<C>)
    requires Sized(w)
    ensures Sized(r)
  {
    match s
    case Arrive(c) => Add(w, c)
    case Leave(c) => Remove(w, c)
    case Expire(n, alive) => Pass(w, n, alive)
  }

  ghost function AgeStep<C>(m: map<C, nat>, s: Step<C>): map<C, nat> {
    match s
    case Arrive(c) => m[c := 0]
    case Leave(c) => m - {c}
    case Expire(n, alive) => AgesAfter(m, n, alive)
  }

  /** A new connection is not in the wheel, and a pass covers between 1 second and the timeout. */
  ghost predicate LegalStep<C>(m: map<C, nat>, s: Step<C>) {
    match s
    case Arrive(c) => c !in m
    case Leave(c) => c in m
    case Expire(n, _) => 1 <= n <= CLIENT_TIMEOUT
  }

  ghost function RunWheel<C>(w: Wheel<C>, steps: seq<Step<C>>): (r: Wheel<C>)
    requires Sized(w)
    ensures Sized(r)
    decreases |steps|
  {
    if steps == [] then w else RunWheel(WheelStep(w, steps[0]), steps[1..])
  }

  ghost function RunAges<C>(m: map<C, nat>, steps: seq<Step<C>>): map<C, nat>
    decreases |steps|
  {
    if steps == [] then m else RunAges(AgeStep(m, steps[0]), steps[1..])
  }

  ghost predicate LegalRun<C>(m: map<C, nat>, steps: seq<Step<C>>)
    decreases |steps|
  {
    steps == [] || (LegalStep(m, steps[0]) && LegalRun(AgeStep(m, steps[0]), steps[1..]))
  }

  lemma InitialAges<C>()
    ensures Ages(InitialWheel<C>(), map[])
  {
    assert forall i, c :: !In(InitialWheel<C>(), i, c);
  }

  lemma StepRefines<C>(w: Wheel<C>, m: map<C, nat>, step: Step<C>)
    requires Ages(w, m) && LegalStep(m, step)
    ensures Ages(WheelStep(w, step), AgeStep(m, step))
  {
    match step {
      case Arrive(c) => ArriveRefines(w, m, c);
      case Leave(c) => LeaveRefines(w, m, c);
      case Expire(n, alive) => PassRefines(w, m, n, alive);
    }
  }

  /** The wheel and the ages agree after every run. */
  lemma {:induction false} RunRefines<C>(w: Wheel<C>, m: map<C, nat>, steps: seq<Step<C>>)
    requires Ages(w, m) && LegalRun(m, steps)
    ensures Ages(RunWheel(w, steps), RunAges(m, steps))
    decreases |steps|
  {
    if steps != [] {
      StepRefines(w, m, steps[0]);
      RunRefines(WheelStep(w, steps[0]), AgeStep(m, steps[0]), steps[1..]);
    }
  }

  /** The seconds that the passes of a run cover. */
  ghost function Ticks<C>(steps: seq<Step<C>>): nat {
    if steps == [] then 0
    else (if steps[0].Expire? then steps[0].interval else 0) + Ticks(steps[1..])
  }

  /** The run does not accept, close or refresh c. */
  ghost predicate LeavesAlone<C>(steps: seq<Step<C>>, c: C) {
    forall s :: s in steps ==> if s.Expire? then c !in s.alive else s.c != c
  }

  lemma {:induction false} GoneStaysGone<C>(m: map<C, nat>, steps: seq<Step<C>>, c: C)
    requires LeavesAlone(steps, c) && c !in m
    ensures c !in RunAges(m, steps)
    decreases |steps|
  {
    if steps != [] {
      assert steps[0] in steps;
      assert forall s :: s in steps[1..] ==> s in steps;
      GoneStaysGone(AgeStep(m, steps[0]), steps[1..], c);
    }
  }

  lemma {:induction false} AgeCountsTicks<C>(m: map<C, nat>, steps: seq<Step<C>>, c: C)
    requires LegalRun(m, steps) && LeavesAlone(steps, c)
    requires c in m && m[c] < CLIENT_TIMEOUT
    ensures c in RunAges(m, steps) <==> m[c] + Ticks(steps) < CLIENT_TIMEOUT
    ensures c in RunAges(m, steps) ==> RunAges(m, steps)[c] == m[c] + Ticks(steps)
    decreases |steps|
  {
    if steps != [] {
      assert steps[0] in steps;
      assert forall s :: s in steps[1..] ==> s in steps;
      var m' := AgeStep(m, steps[0]);
      if c in m' {
        AgeCountsTicks(m', steps[1..], c);
      } else {
        GoneStaysGone(m', steps[1..], c);
      }
    }
  }

  /** The age of a connection that is accepted and then left alone. */
  lemma {:induction false} AgeInRun<C>(before: seq<Step<C>>, c: C, after: seq<Step<C>>)
    requires LegalRun(map[], before + [Arrive(c)] + after) && LeavesAlone(after, c)
    ensures var steps := before + [Arrive(c)] + after;
            var w, m := RunWheel(InitialWheel(), steps), RunAges(map[], steps);
            && Ages(w, m)
            && (Holds(w, c) <==> c in m) && (c in m <==> Ticks(after) < CLIENT_TIMEOUT)
            && (c in m ==> m[c] == Ticks(after))
  {
    var start := before + [Arrive(c)];
    InitialAges<C>();
    RunRefines(InitialWheel(), map[], start + after);
    LegalPrefix(map[], start, after);
    RunAgesConcat(map[], start, after);
    LegalPrefix(map[], before, [Arrive(c)]);
    RunAgesConcat(map[], before, [Arrive(c)]);
    AgeCountsTicks(RunAges(map[], start), after, c);
    HeldIsAged(RunWheel(InitialWheel(), start + after), RunAges(map[], start + after), c);
  }

  /** The exact timing claim: in every run, a connection that is accepted and then neither closed nor
      refreshed stays in the wheel while fewer than CLIENT_TIMEOUT seconds have passed since, and the
      next pass times it out exactly when it completes CLIENT_TIMEOUT seconds. */
  lemma {:induction false} TimesOutExactly<C>(before: seq<Step<C>>, c: C, after: seq<Step<C>>,
                                              interval: nat, alive: seq<C>)
    requires LegalRun(map[], before + [Arrive(c)] + after) && LeavesAlone(after, c)
    requires 1 <= interval <= CLIENT_TIMEOUT && c !in alive
    ensures var w := RunWheel(InitialWheel(), before + [Arrive(c)] + after);
            && (Holds(w, c) <==> Ticks(after) < CLIENT_TIMEOUT)
            && (c in TimedOut(w, interval, alive) <==> Ticks(after) < CLIENT_TIMEOUT <= Ticks(after) + interval)
  {
    var steps := before + [Arrive(c)] + after;
    AgeInRun(before, c, after);
    TimesOut(RunWheel(InitialWheel(), steps), RunAges(map[], steps), interval, alive, c);
  }

  /** A refresh saves a connection exactly when the pass covers a single second; it then has the full
      CLIENT_TIMEOUT seconds again. With a longer interval the slot it is moved to expires at once. */
  lemma RefreshSavesIfSingleTick<C>(w: Wheel<C>, m: map<C, nat>, interval: nat, alive: seq<C>, c: C)
    requires Ages(w, m) && c in alive && 1 <= interval <= CLIENT_TIMEOUT
    ensures Holds(Pass(w, interval, alive), c) <==> interval == 1
    ensures c in TimedOut(w, interval, alive) <==> interval >= 2
    ensures interval == 1 ==> In(Pass(w, interval, alive), InsertIndex(Pass(w, interval, alive).current), c)
  {
    TimesOut(w, m, interval, alive, c);
    PassRefines(w, m, interval, alive);
    HeldIsAged(Pass(w, interval, alive), AgesAfter(m, interval, alive), c);
  }

  /** After a refresh that saves it, a connection left alone is timed out CLIENT_TIMEOUT seconds later. */
  lemma {:induction false} RefreshedLasts<C>(w: Wheel<C>, m: map<C, nat>, alive: seq<C>, c: C, after: seq<Step<C>>)
    requires Ages(w, m) && c in alive
    requires LegalRun(m, [Expire(1, alive)] + after) && LeavesAlone(after, c)
    ensures Holds(RunWheel(w, [Expire(1, alive)] + after), c) <==> Ticks(after) < CLIENT_TIMEOUT
  {
    var steps := [Expire(1, alive)] + after;
    var m' := AgesAfter(m, 1, alive);
    assert steps[1..] == after;
    AgeCountsTicks(m', after, c);
    RunRefines(w, m, steps);
    HeldIsAged(RunWheel(w, steps), RunAges(m, steps), c);
  }

  /** Between passes the slot at current is empty. */
  lemma CurrentSlotEmpty<C>(w: Wheel<C>, m: map<C, nat>)
    requires Ages(w, m)
    ensures w.slots[w.current] == []
  {
    if w.slots[w.current] != [] {
      assert In(w, w.current, w.slots[w.current][0]);
    }
  }

  lemma {:induction false} RunAgesConcat<C>(m: map<C, nat>, a: seq<Step<C>>, b: seq<Step<C>>)
    ensures RunAges(m, a + b) == RunAges(RunAges(m, a), b)
    decreases |a|
  {
    if a == [] {
      assert a + b == b;
    } else {
      assert (a + b)[1..] == a[1..] + b;
      RunAgesConcat(AgeStep(m, a[0]), a[1..], b);
    }
  }

  lemma {:induction false} LegalPrefix<C>(m: map<C, nat>, a: seq<Step<C>>, b: seq<Step<C>>)
    requires LegalRun(m, a + b)
    ensures LegalRun(m, a) && LegalRun(RunAges(m, a), b)
    decreases |a|
  {
    if a == [] {
      assert a + b == b;
    } else {
      assert (a + b)[1..] == a[1..] + b;
      LegalPrefix(AgeStep(m, a[0]), a[1..], b);
    }
  }
}
