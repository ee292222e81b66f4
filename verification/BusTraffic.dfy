/** The reorder buffer for commands and their responses (`BusTrafficCallbacks`). */
module BusTraffic {
  import opened Sequences

  datatype Item = Item(counter: int, frame: nat)

  function Counter(i: Item): int
  {
    i.counter
  }

  /** The buffer, and the history of what it did: `delivered` reached the callbacks, `late` was
      already behind the cursor when it arrived, `dropped` was thrown away. */
  datatype State = State(last: int, waiting: seq<Item>, delivered: seq<Item>, late: seq<Item>, dropped: seq<Item>)

  const EMPTY := State(-1, [], [], [], [])

  function Ahead(last: int, items: seq<Item>): seq<Item>
  {
    if items == [] then []
    else var x := items[|items| - 1]; Ahead(last, items[..|items| - 1]) + (if x.counter > last then [x] else [])
  }

  function Behind(last: int, items: seq<Item>): seq<Item>
  {
    if items == [] then []
    else var x := items[|items| - 1]; Behind(last, items[..|items| - 1]) + (if x.counter <= last then [x] else [])
  }

  lemma {:induction false} AheadBehindHold(last: int, items: seq<Item>)
    ensures forall x :: x in Ahead(last, items) <==> x in items && x.counter > last
    ensures forall x :: x in Behind(last, items) <==> x in items && x.counter <= last
  {
    if items != [] {
      var front := items[..|items| - 1];
      assert items == front + [items[|items| - 1]];
      AheadBehindHold(last, front);
    }
  }

  lemma NextAheadBehind(last: int, items: seq<Item>, i: nat)
    requires i < |items|
    ensures Ahead(last, items[..i + 1])
            == Ahead(last, items[..i]) + (if items[i].counter > last then [items[i]] else [])
    ensures Behind(last, items[..i + 1])
            == Behind(last, items[..i]) + (if items[i].counter <= last then [items[i]] else [])
  {
    assert items[..i + 1][..i] == items[..i];
  }

  /** Delivers buffered items as long as they follow the cursor, throwing away those behind it. */
  function Drain(s: State): State
    decreases |s.waiting|
  {
    if s.waiting == [] then s
    else
      var head, rest := s.waiting[0], s.waiting[1..];
      if head.counter <= s.last then Drain(s.(waiting := rest, dropped := s.dropped + [head]))
      else if head.counter != s.last + 1 then s
      else Drain(s.(last := head.counter, waiting := rest, delivered := s.delivered + [head]))
  }

  function Arrive(queueSize: int, s: State, item: Item): State
  {
    var late := if item.counter <= s.last then s.late + [item] else s.late;
    if item.counter == s.last + 1 then
      Drain(State(item.counter, s.waiting, s.delivered + [item], late, s.dropped))
    else if item.counter > s.last + queueSize then
      State(item.counter, [], s.delivered + Ahead(s.last, s.waiting) + [item], late,
            s.dropped + Behind(s.last, s.waiting))
    else
      State(s.last, Sort(s.waiting + [item], Counter), s.delivered, late, s.dropped)
  }

  function Run(queueSize: int, items: seq<Item>): State
  {
    if items == [] then EMPTY
    else Arrive(queueSize, Run(queueSize, items[..|items| - 1]), items[|items| - 1])
  }

  class BusTrafficCallbacks {
    const queueSize: int
    var last: int
    var waiting: seq<Item>
    ghost var delivered: seq<Item>
    ghost var late: seq<Item>
    ghost var dropped: seq<Item>

    ghost function Abs(): State
      reads this
    {
      State(last, waiting, delivered, late, dropped)
    }

    constructor (queueSize: int)
      ensures this.queueSize == queueSize && Abs() == EMPTY
    {
      this.queueSize := queueSize;
      last, waiting := -1, [];
      delivered, late, dropped := [], [], [];
    }

    method NotifyCommand(item: Item)
      modifies this
      ensures Abs() == Arrive(queueSize, old(Abs()), item)
    {
      if item.counter <= last {
        late := late + [item];
      }
      if item.counter == last + 1 {
        Dispatch(item);
        last := item.counter;
        DrainContiguous();
        return;
      }
      if item.counter > last + queueSize {
        Flush();
        Dispatch(item);
        last := item.counter;
        return;
      }
      waiting := Sort(waiting + [item], Counter);
    }

    /** Delivers what is buffered ahead of the cursor, in its order, and empties the buffer. */
    method Flush()
      modifies this`waiting, this`delivered, this`dropped
      ensures waiting == []
      ensures delivered == old(delivered) + Ahead(last, old(waiting))
      ensures dropped == old(dropped) + Behind(last, old(waiting))
    {
      ghost var w, d, r := waiting, delivered, dropped;
      for i := 0 to |waiting|
        invariant waiting == w
        invariant delivered == d + Ahead(last, w[..i])
        invariant dropped == r + Behind(last, w[..i])
      {
        NextAheadBehind(last, w, i);
        if waiting[i].counter <= last {
          dropped := dropped + [waiting[i]];
        } else {
          Dispatch(waiting[i]);
        }
      }
      assert w[..|w|] == w;
      waiting := [];
    }

    method DrainContiguous()
      modifies this`last, this`waiting, this`delivered, this`dropped
      ensures Abs() == Drain(old(Abs()))
    {
      while waiting != []
        invariant Drain(Abs()) == Drain(old(Abs()))
        decreases |waiting|
      {
        var head := waiting[0];
        if head.counter <= last {
          waiting := waiting[1..];
          dropped := dropped + [head];
          continue;
        }
        if head.counter != last + 1 {
          break;
        }
        Dispatch(head);
        last := head.counter;
        waiting := waiting[1..];
      }
    }

    method Dispatch(item: Item)
      modifies this`delivered
      ensures delivered == old(delivered) + [item]
    {
      delivered := delivered + [item];
    }
  }

  // --- What every run keeps ---

  ghost predicate Increasing(s: seq<Item>)
  {
    forall i, j :: 0 <= i < j < |s| ==> s[i].counter < s[j].counter
  }

  ghost predicate DistinctIds(s: seq<Item>)
  {
    forall i, j :: 0 <= i < j < |s| ==> s[i].counter != s[j].counter
  }

  /** Delivered items are strictly ascending and end at the cursor; the buffer is ascending. */
  ghost predicate Ordered(s: State)
  {
    && Increasing(s.waiting) && Increasing(s.delivered)
    && if s.delivered == [] then s.last == -1 else s.last == s.delivered[|s.delivered| - 1].counter
  }

  /** Buffered items ahead of the cursor are within the window. */
  ghost predicate Windowed(queueSize: int, s: State)
  {
    forall w :: w in s.waiting && w.counter > s.last ==> w.counter <= s.last + queueSize
  }

  /** What is or will be thrown away was behind the cursor on arrival, and all such items are. */
  ghost predicate Explained(s: State)
  {
    && (forall w :: w in s.waiting && w.counter <= s.last ==> w in s.late)
    && (forall d :: d in s.dropped ==> d in s.late)
    && (forall l :: l in s.late ==> l.counter <= s.last && (l in s.waiting || l in s.dropped))
  }

  /** Nothing buffered could be delivered now. */
  ghost predicate Settled(s: State)
  {
    forall w :: w in s.waiting ==> w.counter != s.last + 1
  }

  function Items(s: State): multiset<Item>
  {
    multiset(s.delivered) + multiset(s.waiting) + multiset(s.dropped)
  }

  // Conservation, whatever the ids are.

  lemma {:induction false} DrainConserves(s: State)
    ensures Items(Drain(s)) == Items(s)
    decreases |s.waiting|
  {
    if s.waiting != [] {
      var head, rest := s.waiting[0], s.waiting[1..];
      assert s.waiting == [head] + rest;
      if head.counter <= s.last {
        DrainConserves(s.(waiting := rest, dropped := s.dropped + [head]));
      } else if head.counter == s.last + 1 {
        DrainConserves(s.(last := head.counter, waiting := rest, delivered := s.delivered + [head]));
      }
    }
  }

  lemma {:induction false} AheadBehindConserve(last: int, items: seq<Item>)
    ensures multiset(Ahead(last, items)) + multiset(Behind(last, items)) == multiset(items)
  {
    if items != [] {
      var front := items[..|items| - 1];
      assert items == front + [items[|items| - 1]];
      AheadBehindConserve(last, front);
    }
  }

  lemma ArriveConserves(queueSize: int, s: State, item: Item)
    ensures Items(Arrive(queueSize, s, item)) == Items(s) + multiset{item}
  {
    if item.counter == s.last + 1 {
      var late := if item.counter <= s.last then s.late + [item] else s.late;
      DrainConserves(State(item.counter, s.waiting, s.delivered + [item], late, s.dropped));
    } else if item.counter > s.last + queueSize {
      AheadBehindConserve(s.last, s.waiting);
    } else {
      SortSorts(s.waiting + [item], Counter);
    }
  }

  /** Every arrival is delivered, buffered or dropped, as often as it arrived: for all arrival
      orders, repeated ids included. */
  lemma {:induction false} RunConserves(queueSize: int, items: seq<Item>)
    ensures Items(Run(queueSize, items)) == multiset(items)
  {
    if items != [] {
      var front, item := items[..|items| - 1], items[|items| - 1];
      assert items == front + [item];
      RunConserves(queueSize, front);
      ArriveConserves(queueSize, Run(queueSize, front), item);
    }
  }

  // Order, for distinct ids.

  lemma IncreasingTail(s: seq<Item>)
    requires Increasing(s) && s != []
    ensures Increasing(s[1..]) && forall x :: x in s[1..] ==> x.counter > s[0].counter
    ensures forall x :: x in s ==> x == s[0] || x in s[1..]
  {
  }

  lemma IncreasingAppend(s: seq<Item>, x: Item, last: int)
    requires Increasing(s) && (s != [] ==> s[|s| - 1].counter == last) && x.counter > last
    ensures Increasing(s + [x])
  {
  }

  /** The invariant a drain keeps. */
  ghost predicate Core(queueSize: int, s: State)
  {
    Ordered(s) && Windowed(queueSize, s) && Explained(s)
  }

  lemma DropHeadKeeps(queueSize: int, s: State)
    requires Core(queueSize, s) && s.waiting != [] && s.waiting[0].counter <= s.last
    ensures Core(queueSize, s.(waiting := s.waiting[1..], dropped := s.dropped + [s.waiting[0]]))
  {
    IncreasingTail(s.waiting);
  }

  lemma DeliverHeadKeeps(queueSize: int, s: State)
    requires Core(queueSize, s) && s.waiting != [] && s.waiting[0].counter == s.last + 1
    ensures Core(queueSize,
                 s.(last := s.last + 1, waiting := s.waiting[1..], delivered := s.delivered + [s.waiting[0]]))
  {
    IncreasingTail(s.waiting);
    IncreasingAppend(s.delivered, s.waiting[0], s.last);
  }

  lemma {:induction false} DrainKeeps(queueSize: int, s: State)
    requires Core(queueSize, s)
    ensures Core(queueSize, Drain(s)) && Settled(Drain(s))
    decreases |s.waiting|
  {
    if s.waiting != [] {
      var head, rest := s.waiting[0], s.waiting[1..];
      if head.counter <= s.last {
        DropHeadKeeps(queueSize, s);
        DrainKeeps(queueSize, s.(waiting := rest, dropped := s.dropped + [head]));
      } else if head.counter == s.last + 1 {
        DeliverHeadKeeps(queueSize, s);
        DrainKeeps(queueSize, s.(last := head.counter, waiting := rest, delivered := s.delivered + [head]));
      } else {
        IncreasingTail(s.waiting);
      }
    }
  }

  lemma {:induction false} AheadIncreasing(last: int, items: seq<Item>)
    requires Increasing(items)
    ensures Increasing(Ahead(last, items))
  {
    if items != [] {
      var front, x := items[..|items| - 1], items[|items| - 1];
      AheadIncreasing(last, front);
      AheadBehindHold(last, front);
      var a := Ahead(last, front);
      forall i | 0 <= i < |a|
        ensures a[i].counter < x.counter
      {
        assert a[i] in front;
      }
    }
  }

  /** Sorting a list of distinct ids puts it in strictly ascending order. */
  lemma SortIncreasing(s: seq<Item>, x: Item)
    requires Increasing(s) && forall w :: w in s ==> w.counter != x.counter
    ensures Increasing(Sort(s + [x], Counter))
    ensures forall w :: w in Sort(s + [x], Counter) <==> w in s || w == x
  {
    SortAppended(s, x, Counter);
    InsertIncreasing(s, x);
  }

  lemma {:induction false} InsertIncreasing(s: seq<Item>, x: Item)
    requires Increasing(s) && forall w :: w in s ==> w.counter != x.counter
    ensures Increasing(Insert(s, x, Counter))
    ensures forall w :: w in Insert(s, x, Counter) <==> w in s || w == x
    decreases |s|
  {
    if s != [] && s[|s| - 1].counter > x.counter {
      var front, last := s[..|s| - 1], s[|s| - 1];
      assert s == front + [last];
      InsertIncreasing(front, x);
      var t := Insert(front, x, Counter);
      forall i | 0 <= i < |t|
        ensures t[i].counter < last.counter
      {
        assert t[i] in t;
        if t[i] != x {
          var k :| 0 <= k < |front| && front[k] == t[i];
        }
      }
    } else if s != [] {
      assert s[|s| - 1] in s;
      IncreasingAppend(s, x, s[|s| - 1].counter);
    }
  }

  lemma FlushIncreasing(s: seq<Item>, a: seq<Item>, x: Item, last: int)
    requires Increasing(s) && (s != [] ==> s[|s| - 1].counter == last)
    requires Increasing(a) && (forall w :: w in a ==> last < w.counter < x.counter) && last < x.counter
    ensures Increasing(s + a + [x])
  {
    var t := s + a + [x];
    forall i, j | 0 <= i < j < |t|
      ensures t[i].counter < t[j].counter
    {
      assert |s| <= i < |s| + |a| ==> t[i] in a;
      assert |s| <= j < |s| + |a| ==> t[j] in a;
      assert i < |s| ==> s[i].counter <= last;
    }
  }

  lemma FlushKeeps(queueSize: int, s: State, item: Item)
    requires queueSize >= 0 && Core(queueSize, s) && item.counter > s.last + queueSize && item.counter != s.last + 1
    ensures Core(queueSize, Arrive(queueSize, s, item)) && Settled(Arrive(queueSize, s, item))
  {
    AheadBehindHold(s.last, s.waiting);
    AheadIncreasing(s.last, s.waiting);
    FlushIncreasing(s.delivered, Ahead(s.last, s.waiting), item, s.last);
  }

  lemma WaitKeeps(queueSize: int, s: State, item: Item)
    requires Core(queueSize, s) && Settled(s) && forall w :: w in s.waiting ==> w.counter != item.counter
    requires item.counter != s.last + 1 && item.counter <= s.last + queueSize
    ensures Core(queueSize, Arrive(queueSize, s, item)) && Settled(Arrive(queueSize, s, item))
  {
    var w := Sort(s.waiting + [item], Counter);
    SortIncreasing(s.waiting, item);
    assert Arrive(queueSize, s, item).waiting == w;
  }

  /**
   One arrival.  The delivered items stay strictly ascending, what is dropped was late when it
   arrived, and what is buffered ahead of the cursor lies past a gap, within the window.
   */
  lemma ArriveKeeps(queueSize: int, s: State, item: Item)
    requires queueSize >= 0 && Core(queueSize, s) && Settled(s)
    requires forall w :: w in s.waiting ==> w.counter != item.counter
    ensures Core(queueSize, Arrive(queueSize, s, item)) && Settled(Arrive(queueSize, s, item))
  {
    if item.counter == s.last + 1 {
      IncreasingAppend(s.delivered, item, s.last);
      DrainKeeps(queueSize, State(item.counter, s.waiting, s.delivered + [item], s.late, s.dropped));
    } else if item.counter > s.last + queueSize {
      FlushKeeps(queueSize, s, item);
    } else {
      WaitKeeps(queueSize, s, item);
    }
  }

  /** Over every arrival order of distinct ids. */
  lemma {:induction false} RunKeeps(queueSize: int, items: seq<Item>)
    requires queueSize >= 0 && DistinctIds(items)
    ensures Core(queueSize, Run(queueSize, items)) && Settled(Run(queueSize, items))
  {
    if items != [] {
      var front, item := items[..|items| - 1], items[|items| - 1];
      RunKeeps(queueSize, front);
      RunConserves(queueSize, front);
      forall w | w in Run(queueSize, front).waiting
        ensures w.counter != item.counter
      {
        assert w in multiset(front) && w in front;
      }
      ArriveKeeps(queueSize, Run(queueSize, front), item);
    }
  }

  /** Late items and only late items are not delivered. */
  lemma LateIsNeverDelivered(queueSize: int, items: seq<Item>, x: Item)
    requires queueSize >= 0 && DistinctIds(items) && x in items
    ensures var s := Run(queueSize, items); x in s.late ==> x !in s.delivered
    ensures var s := Run(queueSize, items);
            x !in s.late ==> x in s.delivered || (x in s.waiting && x.counter > s.last + 1)
  {
    var s := Run(queueSize, items);
    RunKeeps(queueSize, items);
    RunConserves(queueSize, items);
    NoDupCounts(items, x);
    assert x in Items(s);
    assert (x in s.waiting ==> x in multiset(s.waiting)) && (x in s.dropped ==> x in multiset(s.dropped))
           && (x in s.delivered ==> x in multiset(s.delivered));
    assert Items(s)[x] == multiset(s.delivered)[x] + multiset(s.waiting)[x] + multiset(s.dropped)[x];
  }

  /** Items waiting past the gap have distinct ids in a window, so there is a bound on them. */
  lemma BufferIsBounded(queueSize: int, items: seq<Item>)
    requires queueSize >= 1 && DistinctIds(items)
    ensures var s := Run(queueSize, items); |Ahead(s.last, s.waiting)| <= queueSize - 1
  {
    var s := Run(queueSize, items);
    RunKeeps(queueSize, items);
    AheadBehindHold(s.last, s.waiting);
    AheadIncreasing(s.last, s.waiting);
    IncreasingFits(Ahead(s.last, s.waiting), s.last + 2, s.last + queueSize + 1);
  }

  lemma {:induction false} IncreasingFits(s: seq<Item>, lo: int, hi: int)
    requires Increasing(s) && (forall x :: x in s ==> lo <= x.counter < hi)
    ensures |s| <= if hi >= lo then hi - lo else 0
  {
    if s != [] {
      IncreasingTail(s);
      assert s[0] in s;
      IncreasingFits(s[1..], s[0].counter + 1, hi);
    }
  }

  // --- Refinement of sorting ---

  /** No arrival is more than the queue size ahead of the cursor it meets. */
  ghost predicate WithinWindow(queueSize: int, items: seq<Item>)
  {
    items == [] ||
    (var front := items[..|items| - 1];
     WithinWindow(queueSize, front) && items[|items| - 1].counter <= Run(queueSize, front).last + queueSize)
  }

  /** The ids are 0..n-1 in some order. */
  ghost predicate Permutation(items: seq<Item>)
  {
    DistinctIds(items) && forall x :: x in items ==> 0 <= x.counter < |items|
  }

  /** Everything up to the cursor has been delivered. */
  ghost predicate Contiguous(s: State)
  {
    s.last == |s.delivered| - 1 && forall i :: 0 <= i < |s.delivered| ==> s.delivered[i].counter == i
  }

  lemma {:induction false} DrainContiguously(s: State)
    requires Contiguous(s)
    ensures Contiguous(Drain(s))
    decreases |s.waiting|
  {
    if s.waiting != [] {
      var head, rest := s.waiting[0], s.waiting[1..];
      if head.counter <= s.last {
        DrainContiguously(s.(waiting := rest, dropped := s.dropped + [head]));
      } else if head.counter == s.last + 1 {
        DrainContiguously(s.(last := head.counter, waiting := rest, delivered := s.delivered + [head]));
      }
    }
  }

  lemma {:induction false} RunContiguous(queueSize: int, items: seq<Item>)
    requires WithinWindow(queueSize, items)
    ensures Contiguous(Run(queueSize, items))
  {
    if items != [] {
      var front, item := items[..|items| - 1], items[|items| - 1];
      RunContiguous(queueSize, front);
      var s := Run(queueSize, front);
      if item.counter == s.last + 1 {
        DrainContiguously(State(item.counter, s.waiting, s.delivered + [item], s.late, s.dropped));
      }
    }
  }

  /** n distinct ids below n are all of them. */
  lemma IdsCover(items: seq<Item>, k: nat)
    requires Permutation(items) && k < |items|
    ensures exists x :: x in items && x.counter == k
  {
    var ids := set x | x in items :: x.counter;
    if k !in ids {
      IdsCount(items);
      SubsetCount(ids, Below(|items|) - {k});
    }
  }

  lemma {:induction false} IdsCount(items: seq<Item>)
    requires DistinctIds(items)
    ensures |set x | x in items :: x.counter| == |items|
  {
    if items == [] {
      assert (set x | x in items :: x.counter) == {};
    } else {
      IdsCount(items[1..]);
      assert (set x | x in items :: x.counter) == {items[0].counter} + (set x | x in items[1..] :: x.counter);
    }
  }

  function Below(n: nat): (r: set<int>)
    ensures |r| == n && forall i: int :: i in r <==> 0 <= i < n
  {
    if n == 0 then {} else Below(n - 1) + {n - 1}
  }

  lemma {:induction false} LateUnchanged(s: State)
    ensures Drain(s).late == s.late
    decreases |s.waiting|
  {
    if s.waiting != [] {
      var head, rest := s.waiting[0], s.waiting[1..];
      LateUnchanged(s.(waiting := rest, dropped := s.dropped + [head]));
      LateUnchanged(s.(last := head.counter, waiting := rest, delivered := s.delivered + [head]));
    }
  }

  lemma Arrived(queueSize: int, items: seq<Item>, x: Item)
    requires x in Run(queueSize, items).delivered || x in Run(queueSize, items).waiting
    ensures x in items
  {
    var s := Run(queueSize, items);
    RunConserves(queueSize, items);
    assert x in multiset(s.delivered) || x in multiset(s.waiting);
    assert x in multiset(items);
  }

  lemma DeliveredIsBehind(s: State)
    requires Contiguous(s)
    ensures forall x :: x in s.delivered ==> x.counter <= s.last
  {
  }

  /** An id that was not seen yet is ahead of everything delivered so far. */
  lemma UnseenIsAhead(queueSize: int, front: seq<Item>, item: Item)
    requires WithinWindow(queueSize, front) && item.counter >= 0
    requires forall x :: x in front ==> x.counter != item.counter
    ensures item.counter > Run(queueSize, front).last
  {
    var s := Run(queueSize, front);
    RunContiguous(queueSize, front);
    if item.counter <= s.last {
      Arrived(queueSize, front, s.delivered[item.counter]);
    }
  }

  lemma AheadIsNotLate(queueSize: int, s: State, item: Item)
    requires item.counter > s.last
    ensures Arrive(queueSize, s, item).late == s.late
  {
    LateUnchanged(State(item.counter, s.waiting, s.delivered + [item], s.late, s.dropped));
  }

  lemma LastIsUnseen(items: seq<Item>)
    requires items != [] && DistinctIds(items) && forall x :: x in items ==> x.counter >= 0
    ensures var front, item := items[..|items| - 1], items[|items| - 1];
            && DistinctIds(front) && item.counter >= 0
            && forall x :: x in front ==> x.counter >= 0 && x.counter != item.counter
  {
    assert items[|items| - 1] in items;
    var front := items[..|items| - 1];
    assert forall i :: 0 <= i < |front| ==> front[i] == items[i];
  }

  lemma {:induction false} NothingLate(queueSize: int, items: seq<Item>)
    requires DistinctIds(items) && WithinWindow(queueSize, items)
    requires forall x :: x in items ==> x.counter >= 0
    ensures Run(queueSize, items).late == []
  {
    if items != [] {
      var front, item := items[..|items| - 1], items[|items| - 1];
      LastIsUnseen(items);
      NothingLate(queueSize, front);
      UnseenIsAhead(queueSize, front, item);
      AheadIsNotLate(queueSize, Run(queueSize, front), item);
    }
  }

  lemma DroppedMeansLate(s: State)
    requires Explained(s) && s.dropped != []
    ensures s.late != []
  {
    assert s.dropped[0] in s.dropped;
  }

  /** Were something still waiting, the id it waits for would not have arrived. */
  lemma NothingWaits(queueSize: int, items: seq<Item>)
    requires queueSize >= 0 && Permutation(items) && WithinWindow(queueSize, items)
    ensures Run(queueSize, items).waiting == [] && Run(queueSize, items).dropped == []
  {
    var s := Run(queueSize, items);
    RunKeeps(queueSize, items);
    NothingLate(queueSize, items);
    if s.dropped != [] {
      DroppedMeansLate(s);
    }
    if s.waiting != [] {
      var head := s.waiting[0];
      IncreasingTail(s.waiting);
      Arrived(queueSize, items, head);
      RunContiguous(queueSize, items);
      DeliveredIsBehind(s);
      IdsCover(items, s.last + 1);
      var x :| x in items && x.counter == s.last + 1;
      LateIsNeverDelivered(queueSize, items, x);
    }
  }

  /** The buffer sorts: 0..n-1 arriving in any order within the window is delivered exactly in
      order, with nothing left behind and nothing dropped. */
  lemma BufferSorts(queueSize: int, items: seq<Item>)
    requires queueSize >= 0 && Permutation(items) && WithinWindow(queueSize, items)
    ensures Run(queueSize, items).waiting == [] && Run(queueSize, items).dropped == []
    ensures Run(queueSize, items).delivered == Sort(items, Counter)
  {
    var s := Run(queueSize, items);
    NothingWaits(queueSize, items);
    RunKeeps(queueSize, items);
    RunConserves(queueSize, items);
    SortSorts(items, Counter);
    SortedOnce(s.delivered, Sort(items, Counter));
  }

  lemma TailContents(s: seq<Item>)
    requires s != []
    ensures multiset(s[1..]) == multiset(s) - multiset{s[0]}
  {
    assert s == [s[0]] + s[1..];
  }

  lemma SortedTail(s: seq<Item>)
    requires SortedBy(s, Counter) && s != []
    ensures SortedBy(s[1..], Counter) && forall x :: x in s[1..] ==> x in s
  {
    forall i, j | 0 <= i < j < |s[1..]|
      ensures Counter(s[1..][i]) <= Counter(s[1..][j])
    {
      assert s[1..][i] == s[i + 1] && s[1..][j] == s[j + 1];
    }
  }

  /** A strictly ascending list is determined by its elements. */
  lemma {:induction false} SortedOnce(a: seq<Item>, b: seq<Item>)
    requires Increasing(a) && SortedBy(b, Counter) && multiset(a) == multiset(b)
    ensures a == b
    decreases |a|
  {
    assert |multiset(a)| == |a| && |multiset(b)| == |b|;
    if a != [] {
      SameTail(a, b);
      SortedOnce(a[1..], b[1..]);
      assert a == [a[0]] + a[1..] && b == [b[0]] + b[1..];
    }
  }

  lemma SameTail(a: seq<Item>, b: seq<Item>)
    requires Increasing(a) && SortedBy(b, Counter) && multiset(a) == multiset(b) && a != [] && b != []
    ensures a[0] == b[0] && multiset(a[1..]) == multiset(b[1..])
    ensures Increasing(a[1..]) && SortedBy(b[1..], Counter)
  {
    SameHead(a, b);
    TailContents(a);
    TailContents(b);
    IncreasingTail(a);
    SortedTail(b);
  }

  lemma SameHead(a: seq<Item>, b: seq<Item>)
    requires Increasing(a) && SortedBy(b, Counter) && multiset(a) == multiset(b) && a != [] && b != []
    ensures a[0] == b[0]
  {
    assert a[0] in multiset(b) && b[0] in multiset(a);
    var i :| 0 <= i < |b| && b[i] == a[0];
    var j :| 0 <= j < |a| && a[j] == b[0];
    assert Counter(b[0]) <= Counter(b[i]);
  }

  // --- Repeated ids ---

  /** Without distinct ids the flush republishes: it compares each buffered item with the cursor
      from before the flush, not with what it has just delivered. */
  lemma DuplicateIsRepublished(queueSize: int, frame: nat)
    requires queueSize > 3
    ensures var d := Item(3, frame);
            Run(queueSize, [d, d, Item(queueSize + 5, frame)]).delivered == [d, d, Item(queueSize + 5, frame)]
  {
    var d, e := Item(3, frame), Item(queueSize + 5, frame);
    var items := [d, d, e];
    assert items[..2] == [d, d];
    TwoWait(queueSize, d);
    TwoAhead(d);
  }

  /** An item that is not below the last buffered one goes to the end of the buffer. */
  lemma WaitsAtEnd(queueSize: int, s: State, d: Item)
    requires SortedBy(s.waiting, Counter) && (s.waiting != [] ==> s.waiting[|s.waiting| - 1].counter <= d.counter)
    requires s.last + 1 < d.counter <= s.last + queueSize
    ensures Arrive(queueSize, s, d) == s.(waiting := s.waiting + [d])
  {
    SortAppended(s.waiting, d, Counter);
  }

  lemma TwoWait(queueSize: int, d: Item)
    requires queueSize > d.counter > 0
    ensures Run(queueSize, [d, d]) == State(-1, [d, d], [], [], [])
  {
    WaitsAtEnd(queueSize, EMPTY, d);
    var one := Arrive(queueSize, EMPTY, d);
    WaitsAtEnd(queueSize, one, d);
    RunAppend(queueSize, [], d);
    RunAppend(queueSize, [d], d);
  }

  lemma RunAppend(queueSize: int, items: seq<Item>, x: Item)
    ensures Run(queueSize, items + [x]) == Arrive(queueSize, Run(queueSize, items), x)
  {
    assert (items + [x])[..|items|] == items;
  }

  lemma TwoAhead(d: Item)
    requires d.counter > -1
    ensures Ahead(-1, [d, d]) == [d, d]
  {
    assert [d, d][..1] == [d] && [d][..0] == [];
    assert Ahead(-1, [d]) == Ahead(-1, []) + [d];
  }

  /** One flush keeps the order strictly ascending exactly when the ids it flushes are distinct. */
  lemma FlushExact(queueSize: int, s: State, item: Item)
    requires queueSize >= 0 && item.counter > s.last + queueSize && item.counter != s.last + 1
    requires SortedBy(s.waiting, Counter) && forall w :: w in s.waiting ==> w.counter <= s.last + queueSize
    requires Increasing(s.delivered) && (s.delivered != [] ==> s.delivered[|s.delivered| - 1].counter == s.last)
    ensures Increasing(Arrive(queueSize, s, item).delivered) <==> DistinctIds(Ahead(s.last, s.waiting))
  {
    var a := Ahead(s.last, s.waiting);
    AheadBehindHold(s.last, s.waiting);
    AheadSorted(s.last, s.waiting);
    if DistinctIds(a) {
      DistinctSorted(a);
      FlushIncreasing(s.delivered, a, item, s.last);
    }
    if Increasing(s.delivered + a + [item]) {
      IncreasingMiddle(s.delivered, a, [item]);
    }
  }

  lemma DistinctSorted(a: seq<Item>)
    requires DistinctIds(a) && SortedBy(a, Counter)
    ensures Increasing(a)
  {
    forall i, j | 0 <= i < j < |a|
      ensures a[i].counter < a[j].counter
    {
      assert Counter(a[i]) <= Counter(a[j]);
    }
  }

  lemma IncreasingMiddle(s: seq<Item>, a: seq<Item>, e: seq<Item>)
    requires Increasing(s + a + e)
    ensures DistinctIds(a)
  {
    var t := s + a + e;
    forall i, j | 0 <= i < j < |a|
      ensures a[i].counter != a[j].counter
    {
      assert t[|s| + i] == a[i] && t[|s| + j] == a[j];
    }
  }

  lemma {:induction false} AheadSorted(last: int, s: seq<Item>)
    requires SortedBy(s, Counter)
    ensures SortedBy(Ahead(last, s), Counter)
  {
    if s != [] {
      var front, x := s[..|s| - 1], s[|s| - 1];
      AheadSorted(last, front);
      AheadBehindHold(last, front);
      var a := Ahead(last, front);
      forall i | 0 <= i < |a|
        ensures Counter(a[i]) <= Counter(x)
      {
        assert a[i] in front;
      }
    }
  }

  /** What holds of every run, repeated ids included: the buffer is sorted and inside the window, and
      the last delivered item is the one at the cursor. */
  ghost predicate Shaped(queueSize: int, s: State)
  {
    && SortedBy(s.waiting, Counter)
    && (forall w :: w in s.waiting ==> w.counter <= s.last + queueSize)
    && (s.delivered != [] ==> s.delivered[|s.delivered| - 1].counter == s.last)
  }

  lemma DeliverNext(s: seq<Item>, x: Item, last: int)
    requires (s != [] ==> s[|s| - 1].counter == last) && x.counter > last
    ensures Increasing(s + [x]) <==> Increasing(s)
  {
    if Increasing(s) {
      IncreasingAppend(s, x, last);
    }
    if Increasing(s + [x]) {
      PrefixIncreasing(s, [x]);
    }
  }

  lemma PrefixIncreasing(a: seq<Item>, b: seq<Item>)
    requires Increasing(a + b)
    ensures Increasing(a)
  {
    forall i, j | 0 <= i < j < |a|
      ensures a[i].counter < a[j].counter
    {
      assert (a + b)[i] == a[i] && (a + b)[j] == a[j];
    }
  }

  /** Draining delivers in order, so it does not change whether the output is ascending. */
  lemma {:induction false} DrainShaped(queueSize: int, s: State)
    requires queueSize >= 0 && Shaped(queueSize, s)
    ensures Shaped(queueSize, Drain(s))
    ensures Increasing(Drain(s).delivered) <==> Increasing(s.delivered)
    decreases |s.waiting|
  {
    if s.waiting != [] {
      var head, rest := s.waiting[0], s.waiting[1..];
      SortedTail(s.waiting);
      if head.counter <= s.last {
        DrainShaped(queueSize, s.(waiting := rest, dropped := s.dropped + [head]));
      } else if head.counter == s.last + 1 {
        DeliverNext(s.delivered, head, s.last);
        DrainShaped(queueSize, s.(last := head.counter, waiting := rest, delivered := s.delivered + [head]));
      }
    }
  }

  /** The gap before `item` is too large to wait out. */
  predicate Flushes(queueSize: int, s: State, item: Item)
  {
    item.counter != s.last + 1 && item.counter > s.last + queueSize
  }

  /** If `item` makes the buffer flush, the flush finds no id twice among what it delivers. */
  ghost predicate CleanFlush(queueSize: int, s: State, item: Item)
  {
    Flushes(queueSize, s, item) ==> DistinctIds(Ahead(s.last, s.waiting))
  }

  lemma FlushShaped(queueSize: int, s: State, item: Item)
    requires queueSize >= 0 && Shaped(queueSize, s) && Flushes(queueSize, s, item)
    ensures Shaped(queueSize, Arrive(queueSize, s, item))
    ensures Increasing(Arrive(queueSize, s, item).delivered) <==>
            Increasing(s.delivered) && DistinctIds(Ahead(s.last, s.waiting))
  {
    var a := Ahead(s.last, s.waiting);
    if Increasing(s.delivered) {
      FlushExact(queueSize, s, item);
    } else if Increasing(s.delivered + a + [item]) {
      assert s.delivered + a + [item] == s.delivered + (a + [item]);
      PrefixIncreasing(s.delivered, a + [item]);
    }
  }

  lemma WaitShaped(queueSize: int, s: State, item: Item)
    requires Shaped(queueSize, s) && item.counter <= s.last + queueSize
    ensures Shaped(queueSize, s.(waiting := Sort(s.waiting + [item], Counter)))
  {
    var w := Sort(s.waiting + [item], Counter);
    SortSorts(s.waiting + [item], Counter);
    forall x | x in w
      ensures x.counter <= s.last + queueSize
    {
      assert x in multiset(w);
    }
  }

  /** Only a flush of repeated ids spoils an ascending output; nothing mends a spoilt one. */
  lemma ArriveShaped(queueSize: int, s: State, item: Item)
    requires queueSize >= 0 && Shaped(queueSize, s)
    ensures Shaped(queueSize, Arrive(queueSize, s, item))
    ensures Increasing(Arrive(queueSize, s, item).delivered) <==>
            Increasing(s.delivered) && CleanFlush(queueSize, s, item)
  {
    if item.counter == s.last + 1 {
      DeliverNext(s.delivered, item, s.last);
      DrainShaped(queueSize, State(item.counter, s.waiting, s.delivered + [item], s.late, s.dropped));
    } else if Flushes(queueSize, s, item) {
      FlushShaped(queueSize, s, item);
    } else {
      WaitShaped(queueSize, s, item);
    }
  }

  ghost predicate CleanFlushes(queueSize: int, items: seq<Item>)
  {
    forall k :: 0 <= k < |items| ==> CleanFlush(queueSize, Run(queueSize, items[..k]), items[k])
  }

  lemma CleanFlushesNext(queueSize: int, front: seq<Item>, item: Item)
    ensures CleanFlushes(queueSize, front + [item]) <==>
            CleanFlushes(queueSize, front) && CleanFlush(queueSize, Run(queueSize, front), item)
  {
    var items := front + [item];
    assert items[..|front|] == front && items[|front|] == item;
    assert forall k :: 0 <= k < |front| ==> front[..k] == items[..k] && front[k] == items[k];
  }

  /**
   Over every arrival order, repeated ids included: the delivered ids are strictly ascending if and
   only if no flush finds one id twice among what it delivers.
   */
  lemma {:induction false} RunAscendsExactlyWhen(queueSize: int, items: seq<Item>)
    requires queueSize >= 0
    ensures Shaped(queueSize, Run(queueSize, items))
    ensures Increasing(Run(queueSize, items).delivered) <==> CleanFlushes(queueSize, items)
  {
    if items != [] {
      var front, item := items[..|items| - 1], items[|items| - 1];
      assert items == front + [item];
      RunAscendsExactlyWhen(queueSize, front);
      ArriveShaped(queueSize, Run(queueSize, front), item);
      CleanFlushesNext(queueSize, front, item);
    }
  }
}
