/** The timing wheel in memory: an array of circular lists that share one pool of entries. */
module ConnTimer {
  import opened CircularList
  import opened Sequences
  import opened TimerSpec

  /** The lists have no node in common. */
  ghost predicate Layout(heads: seq<ListHead>, c: seq<seq<ListHead>>) {
    && |heads| == |c|
    && (forall i, j :: 0 <= i < j < |heads| ==> heads[i] != heads[j])
    && (forall i, j, k :: 0 <= i < |heads| && 0 <= j < |c| && 0 <= k < |c[j]| ==> c[j][k] != heads[i])
    && (forall i, j, x :: 0 <= i < |c| && 0 <= j < |c| && x in c[i] && x in c[j] ==> i == j)
  }

  ghost predicate WithinRepr(heads: seq<ListHead>, c: seq<seq<ListHead>>, repr: set<ListHead>) {
    && (forall i :: 0 <= i < |heads| ==> heads[i] in repr)
    && (forall j, k :: 0 <= j < |c| && 0 <= k < |c[j]| ==> c[j][k] in repr)
  }

  /** Every head heads its list. */
  ghost predicate Rings(heads: seq<ListHead>, c: seq<seq<ListHead>>, repr: set<ListHead>)
    requires |heads| == |c| && WithinRepr(heads, c, repr)
    reads repr
  {
    forall i :: 0 <= i < |heads| ==> Ring(heads[i], c[i])
  }

  /** The i-th list has no node in common with the j-th. */
  lemma LayoutSeparate(heads: seq<ListHead>, c: seq<seq<ListHead>>, i: nat, j: nat)
    requires Layout(heads, c) && i < |c| && j < |c| && i != j
    ensures Separate(heads[i], c[i], heads[j], c[j])
  {
    assert heads[i] != heads[j];
    forall k | 0 <= k < |c[i]| ensures c[i][k] !in c[j] {
      assert c[i][k] in c[i];
    }
  }

  lemma ConsRemoveAt(s: seq<ListHead>, k: nat)
    requires 0 < k < |s|
    ensures [s[0]] + RemoveAt(s[1..], k - 1) == RemoveAt(s, k)
  {
    var l, r := [s[0]] + RemoveAt(s[1..], k - 1), RemoveAt(s, k);
    assert |l| == |r| && forall i :: 0 <= i < |l| ==> l[i] == r[i];
  }

  lemma {:induction false} EraseIsRemoveAt(s: seq<ListHead>, k: nat)
    requires NoDup(s) && k < |s|
    ensures Erase(s, s[k]) == RemoveAt(s, k)
  {
    if k > 0 {
      var t := s[1..];
      assert t[k - 1] == s[k];
      EraseIsRemoveAt(t, k - 1);
      ConsRemoveAt(s, k);
    } else {
      assert s[..0] + s[1..] == s[1..];
    }
  }

  lemma RemovedLayout(heads: seq<ListHead>, c: seq<seq<ListHead>>, repr: set<ListHead>, i: nat, k: nat)
    requires Layout(heads, c) && WithinRepr(heads, c, repr) && i < |c| && k < |c[i]| && NoDup(c[i])
    ensures var c' := c[i := RemoveAt(c[i], k)];
            Layout(heads, c') && WithinRepr(heads, c', repr - {c[i][k]})
  {
    var c' := c[i := RemoveAt(c[i], k)];
    RemoveAtNoDup(c[i], k);
    assert c[i][k] in c[i];
    forall j, m | 0 <= j < |c'| && 0 <= m < |c'[j]| ensures c'[j][m] in c[j] && c'[j][m] != c[i][k] {
      assert c'[j][m] in c'[j];
    }
  }

  /** Takes the k-th entry out of the i-th list and leaves the other lists alone. */
  method DelFrom(conn: ListHead, ghost heads: seq<ListHead>, ghost c: seq<seq<ListHead>>, ghost repr: set<ListHead>,
                 ghost i: nat, ghost k: nat)
    requires Layout(heads, c) && WithinRepr(heads, c, repr) && Rings(heads, c, repr)
    requires i < |c| && k < |c[i]| && c[i][k] == conn
    modifies heads[i], c[i]
    ensures var c' := c[i := RemoveAt(c[i], k)];
            Layout(heads, c') && WithinRepr(heads, c', repr - {conn}) && Rings(heads, c', repr - {conn})
  {
    assert Ring(heads[i], c[i]);
    RemovedLayout(heads, c, repr, i, k);
    CircularList.Del(conn, heads[i], c[i], k);
    forall j | 0 <= j < |heads| && j != i ensures Ring(heads[j], c[j]) {
      LayoutSeparate(heads, c, i, j);
      assert old(Ring(heads[j], c[j]));
    }
  }

  lemma AddedLayout(heads: seq<ListHead>, c: seq<seq<ListHead>>, repr: set<ListHead>, i: nat, conn: ListHead)
    requires Layout(heads, c) && WithinRepr(heads, c, repr) && i < |c| && conn !in repr
    ensures var c' := c[i := c[i] + [conn]];
            Layout(heads, c') && WithinRepr(heads, c', repr + {conn})
    ensures conn !in c[i] && conn != heads[i]
    ensures forall j :: 0 <= j < |c| ==> conn !in c[j] && conn != heads[j]
  {
  }

  /** Appends an entry to the i-th list and leaves the other lists alone. */
  method AddTo(conn: ListHead, heads: seq<ListHead>, i: nat, ghost c: seq<seq<ListHead>>, ghost repr: set<ListHead>)
    requires Layout(heads, c) && WithinRepr(heads, c, repr) && Rings(heads, c, repr)
    requires i < |c| && conn !in repr
    modifies heads[i], c[i], conn
    ensures var c' := c[i := c[i] + [conn]];
            Layout(heads, c') && WithinRepr(heads, c', repr + {conn}) && Rings(heads, c', repr + {conn})
  {
    AddedLayout(heads, c, repr, i, conn);
    AddTail(conn, heads[i], c[i]);
    forall j | 0 <= j < |heads| && j != i ensures Ring(heads[j], c[j]) {
      LayoutSeparate(heads, c, i, j);
      assert old(Ring(heads[j], c[j]));
    }
  }

  lemma SplicedLayout(heads: seq<ListHead>, c: seq<seq<ListHead>>, i: nat, j: nat)
    requires Layout(heads, c) && i < |c| && j < |c| && i != j
    ensures Layout(heads, c[j := c[j] + c[i]][i := []])
  {
    var c' := c[j := c[j] + c[i]][i := []];
    forall a, k | 0 <= a < |c'| && 0 <= k < |c'[a]| ensures exists b :: 0 <= b < |c| && c'[a][k] in c[b] {
      if a == j {
        assert c'[a][k] in (if k < |c[j]| then c[j] else c[i]);
      }
    }
    forall a, k, h | 0 <= a < |c'| && 0 <= k < |c'[a]| && 0 <= h < |heads| ensures c'[a][k] != heads[h] {
      var b :| 0 <= b < |c| && c'[a][k] in c[b];
    }
  }

  /** Appends the i-th list to the j-th and leaves the other lists alone. */
  method SpliceTo(heads: seq<ListHead>, i: nat, j: nat, ghost c: seq<seq<ListHead>>, ghost repr: set<ListHead>)
    requires Layout(heads, c) && WithinRepr(heads, c, repr) && Rings(heads, c, repr)
    requires i < |c| && j < |c| && i != j
    modifies heads[i], heads[j], c[i], c[j]
    ensures var c' := c[j := c[j] + c[i]][i := []];
            Layout(heads, c') && WithinRepr(heads, c', repr) && Rings(heads, c', repr)
  {
    SplicedLayout(heads, c, i, j);
    LayoutSeparate(heads, c, j, i);
    SpliceTailInit(heads[i], heads[j], c[i], c[j]);
    forall k | 0 <= k < |heads| && k != i && k != j ensures Ring(heads[k], c[k]) {
      LayoutSeparate(heads, c, i, k);
      LayoutSeparate(heads, c, j, k);
      assert old(Ring(heads[k], c[k]));
    }
  }

  /** Empty slots. */
  method NewSlots(n: nat) returns (heads: seq<ListHead>)
    ensures |heads| == n && (forall k :: 0 <= k < n ==> fresh(heads[k]))
    ensures forall k :: 0 <= k < n ==> Ring(heads[k], [])
    ensures forall j, k :: 0 <= j < k < n ==> heads[j] != heads[k]
  {
    heads := [];
    for i := 0 to n
      invariant |heads| == i && (forall k :: 0 <= k < i ==> fresh(heads[k]))
      invariant forall k :: 0 <= k < i ==> Ring(heads[k], [])
      invariant forall j, k :: 0 <= j < k < i ==> heads[j] != heads[k]
    {
      var h := new ListHead();
      heads := heads + [h];
    }
  }

  class Timer {
    const slots: seq<ListHead>
    var prev: nat
    var current: nat
    ghost var contents: seq<seq<ListHead>>
    ghost var repr: set<ListHead>

    ghost predicate Valid()
      reads this, repr
    {
      && |slots| == |contents| == MAX_SLOTS && prev < MAX_SLOTS && current < MAX_SLOTS
      && Layout(slots, contents) && WithinRepr(slots, contents, repr) && Rings(slots, contents, repr)
    }

    ghost function View(): Wheel<ListHead>
      reads this
    {
      Wheel(prev, current, contents)
    }

    /** Sets up an empty wheel. */
    constructor ()
      ensures Valid() && fresh(repr) && View() == InitialWheel() && forall x :: x in repr ==> x in slots
    {
      var heads := NewSlots(MAX_SLOTS);
      slots := heads;
      prev, current := 0, 0;
      contents := seq(MAX_SLOTS, _ => []);
      repr := set k | 0 <= k < |heads| :: heads[k];
    }

    /** Advances the wheel. */
    method TimerTick(interval: nat)
      requires Valid() && interval < MAX_SLOTS
      modifies this`prev, this`current
      ensures Valid() && View() == Tick(old(View()), interval)
    {
      prev := current;
      current := (current + interval) % MAX_SLOTS;
    }

    /** Puts a new connection into the slot that expires last. */
    method TimerAdd(conn: ListHead)
      requires Valid() && conn !in repr
      modifies this, repr, conn
      ensures Valid() && View() == TimerSpec.Add(old(View()), conn) && repr == old(repr) + {conn}
    {
      var i := if current == 0 then MAX_SLOTS - 1 else current - 1;
      AddToSlot(i, conn);
    }

    method AddToSlot(i: nat, conn: ListHead)
      requires Valid() && i < MAX_SLOTS && conn !in repr
      modifies this`contents, this`repr, repr, conn
      ensures Valid() && contents == old(contents)[i := old(contents)[i] + [conn]] && repr == old(repr) + {conn}
    {
      hide Layout, Rings;
      ghost var c, r := contents, repr;
      AddTo(conn, slots, i, c, r);
      contents, repr := c[i := c[i] + [conn]], r + {conn};
    }

    /** A valid wheel has every connection in at most one slot. */
    lemma ValidInv()
      requires Valid()
      ensures Inv(View())
    {
      forall i | 0 <= i < MAX_SLOTS ensures NoDup(contents[i]) {
        assert Ring(slots[i], contents[i]);
      }
    }

    /** The position of a connection in its slot's list. */
    lemma FindIn(conn: ListHead, i: nat) returns (k: nat)
      requires Valid() && In(View(), i, conn)
      ensures k < |contents[i]| && contents[i][k] == conn
      ensures Erase(contents[i], conn) == RemoveAt(contents[i], k)
    {
      k :| 0 <= k < |contents[i]| && contents[i][k] == conn;
      assert Ring(slots[i], contents[i]);
      EraseIsRemoveAt(contents[i], k);
    }

    /** Takes a connection out of slot i; the slot itself is not needed to do it. */
    method TimerDel(conn: ListHead, ghost i: nat)
      requires Valid() && In(View(), i, conn)
      modifies this`contents, this`repr, repr
      ensures Valid() && View() == TimerSpec.Del(old(View()), i, conn) && repr == old(repr) - {conn}
    {
      ghost var c, r := contents, repr;
      ghost var k := FindIn(conn, i);
      hide Layout, WithinRepr, Rings, In, Erase, RemoveAt;
      DelFrom(conn, slots, c, r, i, k);
      contents, repr := c[i := RemoveAt(c[i], k)], r - {conn};
    }

    /** Moves a connection to the slot that expires last. */
    method TimerMarkAlive(conn: ListHead)
      requires Valid() && Holds(View(), conn)
      modifies this, repr
      ensures Valid() && View() == MarkAlive(old(View()), conn) && repr == old(repr)
    {
      ghost var i :| In(View(), i, conn);
      ValidInv();
      RemoveIsDel(View(), i, conn);
      assert conn in repr;
      TimerDel(conn, i);
      TimerAdd(conn);
    }

    /** Appends slot i to slot j. */
    method SpliceSlot(i: nat, j: nat)
      requires Valid() && i < MAX_SLOTS && j < MAX_SLOTS && i != j
      modifies this`contents, repr
      ensures Valid() && contents == old(contents)[j := old(contents)[j] + old(contents)[i]][i := []]
    {
      hide Layout, Rings;
      ghost var c := contents;
      SpliceTo(slots, i, j, c, repr);
      contents := c[j := c[j] + c[i]][i := []];
    }

    /** Collects one more expired slot. */
    method SpliceNext(i: nat, first: nat, ghost w: Wheel<ListHead>, ghost n: nat)
      requires Valid() && Sized(w) && 1 <= n < MAX_SLOTS && View() == Collected(w, n)
      requires i == w.prev + n + 1 && first == FirstSlot(w.prev)
      modifies this`contents, repr
      ensures Valid() && View() == Collected(w, n + 1)
    {
      CollectStep(w, n);
      hide Collected, Gathered, Layout, WithinRepr, Rings;
      SpliceSlot(i % MAX_SLOTS, first);
    }

    /** Collects all expired slots in the first of them. */
    method GetTimeoutList() returns (first: nat)
      requires Valid()
      modifies this`contents, repr
      ensures Valid() && first == FirstSlot(prev)
      ensures View() == Collected(old(View()), Span(prev, current))
    {
      hide Collected, Gathered, Layout, WithinRepr, Rings, FirstSlot, Span;
      ghost var w := View();
      CollectFirst(w);
      SpanEnd(prev, current);
      var start := prev + 1;
      var end := if prev < current then current else current + MAX_SLOTS;
      first := FirstSlot(prev);
      start := start + 1;
      var i := start;
      ghost var n := 1;
      while i <= end
        invariant i == prev + n + 1 <= end + 1 && prev == w.prev && current == w.current
        invariant Valid() && View() == Collected(w, n)
      {
        SpliceNext(i, first, w, n);
        i, n := i + 1, n + 1;
      }
    }

    /** What the front of a slot's list tells. */
    lemma SlotFront(i: nat)
      requires Valid() && i < MAX_SLOTS
      ensures var s := contents[i];
              && (slots[i].next == slots[i] <==> s == [])
              && (s != [] ==> slots[i].next == s[0] && In(View(), i, s[0]) && Erase(s, s[0]) == s[1..])
    {
      assert Ring(slots[i], contents[i]);
      assert contents[i] != [] ==> contents[i][0] in contents[i];
    }

    /** Closes everything in one slot, front to back. */
    method Drain(first: nat) returns (closed: seq<ListHead>)
      requires Valid() && first < MAX_SLOTS
      modifies this`contents, this`repr, repr
      ensures Valid() && closed == old(contents)[first] && contents == old(contents)[first := []]
      ensures repr == old(repr) - (set c | c in closed)
    {
      hide Layout, WithinRepr, Rings, In, Erase;
      ghost var c := contents;
      ghost var rest := c[first];
      ghost var r := repr;
      closed := [];
      assert c[first := rest] == c;
      SlotFront(first);
      while slots[first].next != slots[first]
        invariant Valid() && repr == r - (set c | c in closed)
        invariant contents == c[first := rest] && closed + rest == c[first]
        invariant slots[first].next == slots[first] <==> rest == []
        decreases |rest|
      {
        SlotFront(first);
        var conn := slots[first].next;
        closed := closed + [conn];
        TimerDel(conn, first);
        rest := rest[1..];
        SlotFront(first);
      }
    }

    /** Refreshes the connections of the keep-alive list. */
    method MarkAliveAll(alive: seq<ListHead>)
      requires Valid() && forall c :: c in alive ==> Holds(View(), c)
      modifies this, repr
      ensures Valid() && View() == MarkAll(old(View()), alive) && repr == old(repr)
    {
      ghost var w := View();
      hide Layout, WithinRepr, Rings, In, Holds;
      for k := 0 to |alive|
        invariant Valid() && repr == old(repr)
        invariant MarkAll(View(), alive[k..]) == MarkAll(w, alive)
        invariant forall c :: c in alive ==> Holds(View(), c)
      {
        assert alive[k] in alive && alive[k..][0] == alive[k] && alive[k..][1..] == alive[k + 1..];
        ValidInv();
        forall c | c in alive ensures Holds(MarkAlive(View(), alive[k]), c) {
          MarkHolds(View(), alive[k], c);
        }
        TimerMarkAlive(alive[k]);
      }
    }

    /** Closes every connection of the expired slots. */
    method CloseExpired() returns (closed: seq<ListHead>)
      requires Valid()
      modifies this`contents, this`repr, repr
      ensures Valid() && View() == Drained(old(View())) && closed == TimeoutList(old(View()))
      ensures repr == old(repr) - (set c | c in closed)
    {
      ghost var w := View();
      var first := GetTimeoutList();
      CollectedDrained(w, contents);
      hide Collected, Gathered, Drained, Layout, WithinRepr, Rings, FirstSlot, TimeoutList, Span;
      closed := Drain(first);
    }

    /** The whole expiry pass: advance, refresh what is alive, close what has timed out. */
    method ExpireTime(interval: nat, alive: seq<ListHead>) returns (closed: seq<ListHead>)
      requires Valid() && 1 <= interval <= CLIENT_TIMEOUT
      requires forall c :: c in alive ==> Holds(View(), c)
      modifies this, repr
      ensures Valid() && View() == Pass(old(View()), interval, alive)
      ensures closed == TimedOut(old(View()), interval, alive)
      ensures repr == old(repr) - (set c | c in closed)
    {
      TickHolds(View(), interval, alive);
      hide MarkAll, Drained, Gathered, Valid, Holds;
      TimerTick(interval);
      MarkAliveAll(alive);
      closed := CloseExpired();
    }

    /** Carries out one step of a run. m is the age of every connection in the wheel. */
    method TakeStep(step: Step<ListHead>, ghost m: map<ListHead, nat>)
      requires Valid() && Ages(View(), m) && LegalStep(m, step) && Refreshable(m, step)
      requires forall x :: x in repr ==> x in slots || x in m
      requires step.Arrive? ==> step.c !in slots
      modifies this, repr, Arriving(step)
      ensures Valid() && View() == WheelStep(old(View()), step) && repr <= old(repr) + Arriving(step)
      ensures forall x :: x in repr ==> x in slots || x in AgeStep(m, step)
    {
      ghost var w := View();
      hide Valid, Ages, TimerSpec.Pass, MarkAll, AgesAfter, TimedOut, Holds, In;
      match step {
        case Arrive(c) =>
          TimerAdd(c);
        case Leave(c) =>
          ghost var i := SlotOf(m, c);
          TimerDel(c, i);
        case Expire(interval, alive) =>
          AliveAreHeld(w, m, alive);
          ClosedHaveNoAge(w, m, interval, alive);
          var closed := ExpireTime(interval, alive);
      }
    }

    lemma SlotOf(m: map<ListHead, nat>, c: ListHead) returns (i: nat)
      requires Valid() && Ages(View(), m) && c in m
      ensures In(View(), i, c) && Remove(View(), c) == TimerSpec.Del(View(), i, c)
    {
      HeldIsAged(View(), m, c);
      i :| In(View(), i, c);
      RemoveIsDel(View(), i, c);
    }

    /** Carries out a whole run on the linked lists: what becomes of the wheel is what RunWheel says. */
    method Run(steps: seq<Step<ListHead>>, ghost m: map<ListHead, nat>)
      requires Valid() && Ages(View(), m) && LegalRun(m, steps) && RefreshableRun(m, steps)
      requires forall x :: x in repr ==> x in slots || x in m
      requires forall k :: 0 <= k < |steps| && steps[k].Arrive? ==> steps[k].c !in slots
      modifies this, repr, ArrivingAll(steps)
      ensures Valid() && View() == RunWheel(old(View()), steps) && Ages(View(), RunAges(m, steps))
      ensures repr <= old(repr) + ArrivingAll(steps)
    {
      ghost var w := View();
      ghost var now := m;
      var k := 0;
      assert Sized(w);
      hide Valid, Ages, Sized, TimerSpec.Pass, WheelStep, AgeStep, LegalStep, Refreshable;
      while k < |steps|
        invariant 0 <= k <= |steps| && Valid() && Ages(View(), now) && Sized(View()) && Sized(w)
        invariant RunWheel(View(), steps[k..]) == RunWheel(w, steps) && RunAges(now, steps[k..]) == RunAges(m, steps)
        invariant LegalRun(now, steps[k..]) && RefreshableRun(now, steps[k..])
        invariant forall x :: x in repr ==> x in slots || x in now
        invariant repr <= old(repr) + ArrivingAll(steps)
      {
        assert steps[k..][0] == steps[k] && steps[k..][1..] == steps[k + 1..];
        ArrivingIsIn(steps, k);
        StepRefines(View(), now, steps[k]);
        TakeStep(steps[k], now);
        now := AgeStep(now, steps[k]);
        k := k + 1;
      }
    }
  }

  /** The exact timing claim on the linked lists: whatever else a new wheel is put through, a connection
      left alone since it was added is closed by the pass that completes CLIENT_TIMEOUT seconds. */
  method TimesOutOnLists(before: seq<Step<ListHead>>, c: ListHead, after: seq<Step<ListHead>>,
                         interval: nat, alive: seq<ListHead>)
    returns (closed: seq<ListHead>)
    requires LegalRun(map[], before + [Arrive(c)] + after) && RefreshableRun(map[], before + [Arrive(c)] + after)
    requires LeavesAlone(after, c) && c !in alive && 1 <= interval <= CLIENT_TIMEOUT
    requires forall x :: x in alive ==> x in RunAges(map[], before + [Arrive(c)] + after)
    modifies ArrivingAll(before + [Arrive(c)] + after)
    ensures c in closed <==> Ticks(after) < CLIENT_TIMEOUT <= Ticks(after) + interval
  {
    var steps := before + [Arrive(c)] + after;
    var timer := new Timer();
    InitialAges<ListHead>();
    TimesOutExactly(before, c, after, interval, alive);
    hide *;
    timer.Run(steps, map[]);
    AliveAreHeld(timer.View(), RunAges(map[], steps), alive);
    closed := timer.ExpireTime(interval, alive);
  }

  /** The connections that a step puts into the wheel. */
  ghost function Arriving(step: Step<ListHead>): set<ListHead> {
    if step.Arrive? then {step.c} else {}
  }

  ghost function ArrivingAll(steps: seq<Step<ListHead>>): set<ListHead> {
    set k | 0 <= k < |steps| && steps[k].Arrive? :: steps[k].c
  }

  lemma ArrivingIsIn(steps: seq<Step<ListHead>>, k: nat)
    requires k < |steps|
    ensures Arriving(steps[k]) <= ArrivingAll(steps)
  {
  }

  /** The keep-alives name connections that a lookup has found, so they are in the wheel. */
  ghost predicate Refreshable(m: map<ListHead, nat>, step: Step<ListHead>) {
    step.Expire? ==> forall c :: c in step.alive ==> c in m
  }

  ghost predicate RefreshableRun(m: map<ListHead, nat>, steps: seq<Step<ListHead>>)
    decreases |steps|
  {
    steps == [] || (Refreshable(m, steps[0]) && RefreshableRun(AgeStep(m, steps[0]), steps[1..]))
  }

  lemma AliveAreHeld(w: Wheel<ListHead>, m: map<ListHead, nat>, alive: seq<ListHead>)
    requires Ages(w, m) && forall c :: c in alive ==> c in m
    ensures forall c :: c in alive ==> Holds(w, c)
  {
    forall c | c in alive ensures Holds(w, c) {
      HeldIsAged(w, m, c);
    }
  }

  lemma ClosedHaveNoAge(w: Wheel<ListHead>, m: map<ListHead, nat>, interval: nat, alive: seq<ListHead>)
    requires Ages(w, m) && 1 <= interval <= CLIENT_TIMEOUT
    ensures forall c :: c in m && c !in AgesAfter(m, interval, alive) ==> c in TimedOut(w, interval, alive)
  {
    PassTimesOut(w, m, interval, alive);
  }

  lemma TickHolds(w: Wheel<ListHead>, interval: nat, alive: seq<ListHead>)
    requires forall c :: c in alive ==> Holds(w, c)
    ensures forall c :: c in alive ==> Holds(Tick(w, interval), c)
  {
    forall c | c in alive ensures Holds(Tick(w, interval), c) {
      var i :| In(w, i, c);
      assert In(Tick(w, interval), i, c);
    }
  }
}
