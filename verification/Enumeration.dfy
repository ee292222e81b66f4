/** One pass of the binary search over the whole bus (`Commissioning.binary_search`). */
module Enumeration {
  import opened Prelude
  import opened SearchBus
  import opened SearchAddress
  import opened Finder
  import opened Sequences

  const FAILED_SEARCHES_BEFORE_GIVING_UP: nat := 3

  datatype Stuck = Stuck(above: Random)

  // --- The searches of a pass ---

  /** One search: what it found, and the time from which and to which it went on. */
  datatype Search = Search(finding: Finding, from: nat, to: nat)

  function LastFound(searches: seq<Search>): Option<Random>
  {
    if searches == [] then None
    else
      var finding := searches[|searches| - 1].finding;
      if finding.Found? then Some(finding.addr) else LastFound(searches[..|searches| - 1])
  }

  /** The addresses that the searches found, in order. */
  function Finds(searches: seq<Search>): seq<Random>
  {
    if searches == [] then []
    else
      var finding := searches[|searches| - 1].finding;
      Finds(searches[..|searches| - 1]) + (if finding.Found? then [finding.addr] else [])
  }

  /** The find was not confirmed, or is the last one again. */
  predicate BringsNothing(finding: Finding, last: Option<Random>)
  {
    finding.Unconfirmed? || (finding.Found? && last == Some(finding.addr))
  }

  predicate InVainAt(searches: seq<Search>, k: nat)
    requires k < |searches|
  {
    BringsNothing(searches[k].finding, LastFound(searches[..k]))
  }

  /** How many searches in a row, up to the last, were in vain. */
  function InVain(searches: seq<Search>): nat
  {
    if searches == [] || !InVainAt(searches, |searches| - 1) then 0
    else InVain(searches[..|searches| - 1]) + 1
  }

  lemma OneMore(searches: seq<Search>, s: Search)
    ensures var more := searches + [s];
            && LastFound(more) == (if s.finding.Found? then Some(s.finding.addr) else LastFound(searches))
            && Finds(more) == Finds(searches) + (if s.finding.Found? then [s.finding.addr] else [])
            && (InVainAt(more, |searches|) <==> BringsNothing(s.finding, LastFound(searches)))
            && InVain(more) == (if BringsNothing(s.finding, LastFound(searches)) then InVain(searches) + 1 else 0)
    ensures forall n :: 0 <= n <= |searches| ==> (searches + [s])[..n] == searches[..n]
  {
    assert (searches + [s])[..|searches|] == searches;
  }

  lemma {:induction false} VainOnes(searches: seq<Search>, k: nat)
    requires k < InVain(searches)
    ensures k < |searches| && InVainAt(searches, |searches| - 1 - k)
  {
    if k > 0 {
      var front := searches[..|searches| - 1];
      VainOnes(front, k - 1);
      assert front[..|front| - k] == searches[..|front| - k];
    }
  }

  /** The searches went on one after the other between the two times. */
  ghost predicate InOrder(searches: seq<Search>, from: nat, to: nat)
  {
    && (forall k :: 0 <= k < |searches| ==> from <= searches[k].from <= searches[k].to <= to)
    && (forall j, k :: 0 <= j < k < |searches| ==> searches[j].to <= searches[k].from)
  }

  /** Search number `k` lost an answer of its bisection. */
  ghost predicate LostIn(w: World, searches: seq<Search>, k: nat)
    requires k < |searches|
  {
    LosesBetween(w, searches[k].from, searches[k].to)
  }

  ghost predicate LostFrom(w: World, searches: seq<Search>, k: nat)
  {
    k + 2 < |searches| && LostIn(w, searches, k) && LostIn(w, searches, k + 1) && LostIn(w, searches, k + 2)
  }

  /** Three searches in a row lost an answer of their bisection. */
  ghost predicate LostThrice(w: World, searches: seq<Search>)
  {
    exists k: nat :: LostFrom(w, searches, k)
  }

  /** Every search that was in vain lost an answer. */
  ghost predicate VainIsLost(w: World, searches: seq<Search>)
  {
    forall k :: 0 <= k < |searches| && InVainAt(searches, k) ==> LostIn(w, searches, k)
  }

  lemma VainIsLostMore(w: World, searches: seq<Search>, s: Search)
    requires VainIsLost(w, searches)
    requires BringsNothing(s.finding, LastFound(searches)) ==> LosesBetween(w, s.from, s.to)
    ensures VainIsLost(w, searches + [s])
  {
    OneMore(searches, s);
    forall k | 0 <= k < |searches| && InVainAt(searches + [s], k)
      ensures LostIn(w, searches + [s], k)
    {
      assert InVainAt(searches, k);
    }
  }

  lemma ThreeInVain(w: World, searches: seq<Search>)
    requires InVain(searches) >= 3 && VainIsLost(w, searches)
    ensures LostThrice(w, searches)
  {
    VainOnes(searches, 0);
    VainOnes(searches, 1);
    VainOnes(searches, 2);
    assert LostFrom(w, searches, |searches| - 3);
  }

  /** So at least three answers were lost in all. */
  lemma ThriceIsThree(w: World, searches: seq<Search>, from: nat, to: nat) returns (t1: nat, t2: nat, t3: nat)
    requires LostThrice(w, searches) && InOrder(searches, from, to)
    ensures from <= t1 < t2 < t3 < to && LosesProbe(w, t1) && LosesProbe(w, t2) && LosesProbe(w, t3)
  {
    var k: nat :| LostFrom(w, searches, k);
    t1 :| searches[k].from <= t1 < searches[k].to && LosesProbe(w, t1);
    t2 :| searches[k + 1].from <= t2 < searches[k + 1].to && LosesProbe(w, t2);
    t3 :| searches[k + 2].from <= t3 < searches[k + 2].to && LosesProbe(w, t3);
  }

  lemma LosslessNeverThrice(w: World, searches: seq<Search>)
    requires Lossless(w)
    ensures !LostThrice(w, searches)
  {
    LosslessNeverLoses(w);
  }

  /** What a loop over searches keeps: `failed` of them in a row were in vain, and never three before. */
  ghost predicate Tally(w: World, searches: seq<Search>, start: nat, now: nat, failed: nat, last: Option<Random>,
                        trusted: bool)
  {
    && start <= now && InOrder(searches, start, now)
    && failed == InVain(searches) && last == LastFound(searches)
    && (forall n :: 0 <= n < |searches| ==> InVain(searches[..n]) < 3)
    && (trusted ==> VainIsLost(w, searches))
  }

  lemma TallyStarts(w: World, t: nat, trusted: bool)
    ensures Tally(w, [], t, t, 0, None, trusted) && Finds([]) == []
  {
  }

  lemma TallyMore(w: World, searches: seq<Search>, s: Search, start: nat, failed: nat, last: Option<Random>,
                  trusted: bool)
    requires Tally(w, searches, start, s.from, failed, last, trusted) && failed < 3 && s.from <= s.to
    requires trusted && BringsNothing(s.finding, last) ==> LosesBetween(w, s.from, s.to)
    ensures Tally(w, searches + [s], start, s.to, if BringsNothing(s.finding, last) then failed + 1 else 0,
                  if s.finding.Found? then Some(s.finding.addr) else last, trusted)
    ensures Finds(searches + [s]) == Finds(searches) + (if s.finding.Found? then [s.finding.addr] else [])
  {
    hide InVain, LastFound, Finds, LosesBetween, InVainAt, VainIsLost;
    OneMore(searches, s);
    if trusted { VainIsLostMore(w, searches, s); }
    assert searches[..|searches|] == searches;
  }

  lemma TallyLater(w: World, searches: seq<Search>, start: nat, now: nat, failed: nat, last: Option<Random>,
                   trusted: bool, later: nat)
    requires Tally(w, searches, start, now, failed, last, trusted) && now <= later
    ensures Tally(w, searches, start, later, failed, last, trusted)
  {
  }

  lemma TallyEnds(w: World, searches: seq<Search>, start: nat, now: nat, failed: nat, last: Option<Random>,
                  trusted: bool)
    requires Tally(w, searches, start, now, failed, last, trusted)
    ensures start <= now && InOrder(searches, start, now) && InVain(searches) == failed
    ensures forall n :: 0 <= n < |searches| ==> InVain(searches[..n]) < 3
    ensures trusted && failed >= 3 ==> LostThrice(w, searches)
  {
    if trusted && failed >= 3 {
      ThreeInVain(w, searches);
    }
  }

  predicate Ascending(s: seq<int>)
  {
    forall i, j :: 0 <= i < j < |s| ==> s[i] < s[j]
  }

  /** The gear after the random addresses in `seen` were withdrawn and nothing else happened. */
  ghost predicate WithdrawnExactly(ds0: seq<Device>, ds: seq<Device>, seen: set<Random>)
  {
    && |ds| == |ds0|
    && forall i :: 0 <= i < |ds| ==>
         && ds[i].random == ds0[i].random
         && ds[i].mode == if ds0[i].random in seen then Withdrawn else Enabled
  }

  function RandomsUpTo(ds: seq<Device>, bound: int): set<Random>
  {
    set d | d in ds && d.random <= bound :: d.random
  }

  /** Every random address on the bus. */
  function Randoms(ds: seq<Device>): (rs: set<Random>)
    ensures forall d :: d in ds ==> d.random in rs
  {
    RandomsUpTo(ds, MAX_RANDOM)
  }

  /** A pass that has listed `res`: ascending, all there is up to its last address, all of it
      withdrawn and the rest still participating. */
  ghost predicate Pass(ds0: seq<Device>, ds: seq<Device>, res: seq<Random>)
  {
    && Ascending(res)
    && Elements(res) == RandomsUpTo(ds0, Last(res))
    && WithdrawnExactly(ds0, ds, Elements(res))
  }

  function Last(res: seq<Random>): int
  {
    if res == [] then -1 else res[|res| - 1]
  }

  lemma PassStarts(w: World, s: BusState)
    requires Obedient(w)
    ensures Pass(s.devices, Step(w, Step(w, s, Terminate), Initialise(Everyone)).devices, [])
  {
  }

  lemma RestIsAbove(ds0: seq<Device>, ds: seq<Device>, res: seq<Random>)
    requires Pass(ds0, ds, res)
    ensures AllAtLeast(ds, Last(res) + 1)
  {
    forall d | d in ds && d.mode == Enabled
      ensures d.random > Last(res)
    {
      var i :| 0 <= i < |ds| && ds[i] == d;
      assert ds0[i] in ds0 && ds0[i].random !in RandomsUpTo(ds0, Last(res));
    }
  }

  /** The lowest participant is the next address above what is listed. */
  lemma LowestIsNext(ds0: seq<Device>, ds: seq<Device>, res: seq<Random>, a: Random)
    requires Pass(ds0, ds, res) && IsLowest(ds, a)
    ensures a > Last(res)
    ensures RandomsUpTo(ds0, a) == RandomsUpTo(ds0, Last(res)) + {a}
  {
    LowestIsHeld(ds, a);
    RestIsAbove(ds0, ds, res);
    var d :| d in ds && d.mode == Enabled && d.random == a;
    var i :| 0 <= i < |ds| && ds[i] == d;
    assert ds0[i] in ds0;
    forall e | e in ds0 && e.random <= a
      ensures e.random <= Last(res) || e.random == a
    {
      var j :| 0 <= j < |ds0| && ds0[j] == e;
      assert ds[j] in ds;
    }
  }

  lemma AscendingAppend(res: seq<Random>, a: Random)
    requires Ascending(res) && a > Last(res)
    ensures Ascending(res + [a]) && Elements(res + [a]) == Elements(res) + {a}
  {
    forall i, j | 0 <= i < j < |res + [a]|
      ensures (res + [a])[i] < (res + [a])[j]
    {
      assert j == |res| ==> (res + [a])[i] <= Last(res);
    }
  }

  lemma PassContinues(w: World, s: BusState, ds0: seq<Device>, res: seq<Random>, a: Random)
    requires Obedient(w) && Pass(ds0, s.devices, res) && IsLowest(s.devices, a) && s.Search() == a
    ensures Pass(ds0, Step(w, s, Withdraw).devices, res + [a])
  {
    LowestIsNext(ds0, s.devices, res, a);
    AscendingAppend(res, a);
  }

  lemma PassAscends(ds0: seq<Device>, ds: seq<Device>, res: seq<Random>)
    requires Pass(ds0, ds, res)
    ensures Ascending(res)
  {
  }

  lemma PassEnds(ds0: seq<Device>, ds: seq<Device>, res: seq<Random>)
    requires Pass(ds0, ds, res)
    requires !SomeParticipant(ds, MAX_RANDOM) || Last(res) == MAX_RANDOM
    ensures Elements(res) == Randoms(ds0)
  {
    forall d | d in ds0
      ensures d.random in Elements(res)
    {
      var i :| 0 <= i < |ds0| && ds0[i] == d;
      assert ds[i] in ds && (Last(res) < MAX_RANDOM ==> !Participates(ds[i], MAX_RANDOM));
    }
  }

  /** What is heard of gear that answers QUERY SHORT ADDRESS with `truth` when it is asked `attempts` times
      from time `t` on: the first readable answer, or else the last. */
  function Asked(w: World, truth: Reply, t: nat, attempts: nat): Reply
    decreases attempts
  {
    var heard := w.hears(t, QueryShort, truth);
    if heard.Value? || attempts <= 1 then heard else Asked(w, truth, t + 1, attempts - 1)
  }

  /** Asks the selected gear for its short address until an answer is readable, three times at
      most; nothing on the bus but the clock moves. */
  method QuerySelected(bus: Bus) returns (resp: Reply)
    modifies bus
    ensures bus.st == old(bus.st).(tick := bus.st.tick) && old(bus.st.tick) <= bus.st.tick
    ensures resp == Asked(bus.world, Truth(bus.st.devices, bus.st.Search(), QueryShort), old(bus.st.tick), 3)
    ensures ClearShorts(bus.world) ==> resp == Truth(bus.st.devices, bus.st.Search(), QueryShort)
  {
    ghost var truth, t := Truth(bus.st.devices, bus.st.Search(), QueryShort), bus.st.tick;
    resp := Silent;
    for attempt := 0 to 3
      invariant bus.st == old(bus.st).(tick := bus.st.tick) && old(bus.st.tick) <= bus.st.tick
      invariant attempt > 0 && ClearShorts(bus.world) ==>
        resp == Truth(bus.st.devices, bus.st.Search(), QueryShort)
      invariant attempt == 3 ==> resp == Asked(bus.world, truth, t, 3)
      invariant attempt < 3 ==> Asked(bus.world, truth, bus.st.tick, 3 - attempt) == Asked(bus.world, truth, t, 3)
    {
      PassiveKeepsDevices(bus.world, bus.st, QueryShort);
      resp := bus.Send(QueryShort);
      if resp.Value? {
        break;
      }
    }
  }

  /** Neither the search address nor the record of programmed short addresses has changed. */
  predicate SameSearch(s: BusState, s': BusState)
  {
    s'.high == s.high && s'.medium == s.medium && s'.low == s.low && s'.programmed == s.programmed
  }

  method BeginPass(bus: Bus)
    modifies bus
    ensures SameSearch(old(bus.st), bus.st) && old(bus.st.tick) <= bus.st.tick
    ensures Obedient(bus.world) ==> Pass(old(bus.st.devices), bus.st.devices, [])
  {
    if Obedient(bus.world) { PassStarts(bus.world, bus.st); }
    var _ := bus.Send(Terminate);
    var _ := bus.Send(Initialise(Everyone));
  }

  /** Asks for the next address of a pass that has listed `res`. */
  method NextAddress(finder: BinarySearchAddressFinder, low: Random, ghost ds0: seq<Device>, ghost res: seq<Random>)
    returns (found: Finding)
    requires finder.selector.Valid()
    modifies finder.selector, finder.selector.bus
    ensures finder.selector.Valid()
    ensures finder.selector.bus.st.devices == old(finder.selector.bus.st.devices)
    ensures finder.selector.bus.st.programmed == old(finder.selector.bus.st.programmed)
    ensures old(finder.selector.bus.st.tick) <= finder.selector.bus.st.tick
    ensures found.Found? ==> low <= found.addr && finder.selector.bus.st.Search() == found.addr
    ensures Reliable(finder.selector.bus.world) && Pass(ds0, finder.selector.bus.st.devices, res) ==>
      && (found.Found? ==> found.addr > Last(res) && IsLowest(finder.selector.bus.st.devices, found.addr))
      && (found.Nothing? ==> Elements(res) == Randoms(ds0))
    ensures
      Reliable(finder.selector.bus.world) && Pass(ds0, finder.selector.bus.st.devices, res) && low <= Last(res) + 1
      && found.Unconfirmed?
      ==> LosesBetween(finder.selector.bus.world, old(finder.selector.bus.st.tick), finder.selector.bus.st.tick)
  {
    ghost var ds := finder.selector.bus.st.devices;
    if Pass(ds0, ds, res) { RestIsAbove(ds0, ds, res); }
    found := finder.FindNextDevice(low);
    if Reliable(finder.selector.bus.world) && Pass(ds0, ds, res) {
      if found.Found? { LowestIsNext(ds0, ds, res, found.addr); }
      if found.Nothing? { PassEnds(ds0, ds, res); }
    }
  }

  /** Queries the selected gear and makes it leave the search. */
  method WithdrawSelected(bus: Bus, ghost ds0: seq<Device>, ghost res: seq<Random>)
    modifies bus
    ensures SameSearch(old(bus.st), bus.st) && old(bus.st.tick) <= bus.st.tick
    ensures
      var a := old(bus.st).Search();
      a <= MAX_RANDOM && Obedient(bus.world) && Pass(ds0, old(bus.st.devices), res) && IsLowest(old(bus.st.devices), a)
      ==> Pass(ds0, bus.st.devices, res + [a])
  {
    var _ := QuerySelected(bus);
    ghost var a := bus.st.Search();
    if a <= MAX_RANDOM && Obedient(bus.world) && Pass(ds0, bus.st.devices, res) && IsLowest(bus.st.devices, a) {
      PassContinues(bus.world, bus.st, ds0, res, a);
    }
    var _ := bus.Send(Withdraw);
  }

  /**
   The pass ends on every bus, and gives up exactly when three searches in a row were in vain.  With
   lost answers but trustworthy confirmations and working WITHDRAW it lists every random address on
   the bus exactly once, ascending, unless three searches in a row lost answers.
   */
  method BinarySearch(finder: BinarySearchAddressFinder)
    returns (r: Result<seq<Random>, Stuck>, ghost searches: seq<Search>)
    requires finder.selector.Valid()
    modifies finder.selector, finder.selector.bus
    ensures finder.selector.Valid()
    ensures Reliable(finder.selector.bus.world) && Obedient(finder.selector.bus.world) && r.Ok? ==>
      Ascending(r.value) && Elements(r.value) == Randoms(old(finder.selector.bus.st.devices))
    ensures r.Err? <==> InVain(searches) == 3
    ensures forall n :: 0 <= n < |searches| ==> InVain(searches[..n]) < 3
    ensures r.Ok? ==> r.value == Finds(searches)
    ensures InOrder(searches, old(finder.selector.bus.st.tick), finder.selector.bus.st.tick)
    ensures
      Reliable(finder.selector.bus.world) && Obedient(finder.selector.bus.world)
      && !LostThrice(finder.selector.bus.world, searches)
      ==> r.Ok?
    ensures Lossless(finder.selector.bus.world) && Obedient(finder.selector.bus.world) ==> r.Ok?
    ensures Obedient(finder.selector.bus.world) ==> AllDisabled(finder.selector.bus.st.devices)
  {
    hide Reliable, Pass, InOrder, InVain, Finds, LosesBetween, LostThrice, Lossless, AllDisabled;
    var bus := finder.selector.bus;
    ghost var ds0, t0 := bus.st.devices, bus.st.tick;
    if Lossless(bus.world) { LosslessIsReliable(bus.world); }
    BeginPass(bus);
    ghost var t1 := bus.st.tick;
    r, searches := SearchUntilDone(finder, ds0);
    ghost var t2 := bus.st.tick;
    if Obedient(bus.world) { TerminateDisables(bus.world, bus.st); }
    var _ := bus.Send(Terminate);
    WiderInOrder(searches, t1, t2, t0, bus.st.tick);
    if Lossless(bus.world) { LosslessNeverThrice(bus.world, searches); }
  }

  /** The loop of the pass. */
  method SearchUntilDone(finder: BinarySearchAddressFinder, ghost ds0: seq<Device>)
    returns (r: Result<seq<Random>, Stuck>, ghost searches: seq<Search>)
    requires finder.selector.Valid()
    modifies finder.selector, finder.selector.bus
    ensures finder.selector.Valid()
    ensures
      Reliable(finder.selector.bus.world) && Obedient(finder.selector.bus.world)
      && Pass(ds0, old(finder.selector.bus.st.devices), []) ==>
      && (r.Ok? ==> Ascending(r.value) && Elements(r.value) == Randoms(ds0))
      && (r.Err? ==> LostThrice(finder.selector.bus.world, searches))
    ensures r.Err? <==> InVain(searches) == 3
    ensures forall n :: 0 <= n < |searches| ==> InVain(searches[..n]) < 3
    ensures r.Ok? ==> r.value == Finds(searches)
    ensures old(finder.selector.bus.st.tick) <= finder.selector.bus.st.tick
    ensures InOrder(searches, old(finder.selector.bus.st.tick), finder.selector.bus.st.tick)
  {
    hide Reliable, Pass, InOrder, InVain, Finds, LosesBetween, Tally, LostThrice, IsLowest, Obedient, Elements, Randoms;
    var bus := finder.selector.bus;
    ghost var w, t0 := bus.world, bus.st.tick;
    ghost var trusted := Reliable(w) && Obedient(w) && Pass(ds0, bus.st.devices, []);
    searches := [];
    TallyStarts(w, t0, trusted);
    var res: seq<Random> := [];
    var low: Random := 0;
    var last: Option<Random> := None;
    var failed := 0;
    while low < MAX_RANDOM
      invariant finder.selector.Valid()
      invariant failed < FAILED_SEARCHES_BEFORE_GIVING_UP
      invariant Tally(w, searches, t0, bus.st.tick, failed, last, trusted) && res == Finds(searches)
      invariant if last.Some? then low == last.value else low == 0
      invariant trusted ==> Pass(ds0, bus.st.devices, res)
      invariant trusted ==> Last(res) == if last.Some? then low else -1
      decreases MAX_RANDOM - low, if last.None? then 1 else 0, FAILED_SEARCHES_BEFORE_GIVING_UP - failed
    {
      ghost var from := bus.st.tick;
      var found := NextAddress(finder, low, ds0, res);
      ghost var search := Search(found, from, bus.st.tick);
      TallyMore(w, searches, search, t0, failed, last, trusted);
      searches := searches + [search];
      if found.Nothing? {
        TallyEnds(w, searches, t0, bus.st.tick, 0, last, trusted);
        if trusted { PassAscends(ds0, bus.st.devices, res); }
        return Ok(res), searches;
      }
      if found.Found? && last != Some(found.addr) {
        failed := 0;
        last := Some(found.addr);
      } else {
        failed := failed + 1;
        if failed >= FAILED_SEARCHES_BEFORE_GIVING_UP {
          TallyEnds(w, searches, t0, bus.st.tick, failed, last, trusted);
          return Err(Stuck(low)), searches;
        }
      }
      if found.Unconfirmed? {
        continue;
      }
      ghost var now := bus.st.tick;
      WithdrawSelected(bus, ds0, res);
      TallyLater(w, searches, t0, now, failed, last, trusted, bus.st.tick);
      low := found.addr;
      res := res + [found.addr];
    }
    TallyEnds(w, searches, t0, bus.st.tick, failed, last, trusted);
    if trusted {
      PassAscends(ds0, bus.st.devices, res);
      PassEnds(ds0, bus.st.devices, res);
    }
    return Ok(res), searches;
  }

  lemma WiderInOrder(searches: seq<Search>, from: nat, to: nat, from': nat, to': nat)
    requires InOrder(searches, from, to) && from' <= from && to <= to'
    ensures InOrder(searches, from', to')
  {
  }
}
