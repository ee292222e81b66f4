/** Commissioning as the application controller uses it, from the device list to the rebuilt one; and
    the run on which a lost answer of the poll makes two devices share a short address. */
module CommissioningRuns {
  import opened Prelude
  import opened Sequences
  import opened SearchBus
  import opened SearchAddress
  import opened Finder
  import opened Enumeration
  import opened Allocation
  import opened Classification
  import opened Exactness
  import opened Polling
  import opened Rerolling
  import opened Vacancy
  import opened Commissioning

  /** The short and random address of each device on the bus. */
  function AddressesOf(ds: seq<Device>): (a: seq<DeviceAddress>)
    ensures |a| == |ds| && forall i :: 0 <= i < |ds| ==> a[i] == DeviceAddress(ds[i].short, ds[i].random)
  {
    seq(|ds|, i requires 0 <= i < |ds| => DeviceAddress(ds[i].short, ds[i].random))
  }

  /** Once the bus is addressed, what the run recorded is what is on the bus. */
  lemma RecordIsBus(ds0: seq<Device>, ds: seq<Device>, found: map<nat, Random>, items: seq<DeviceAddress>)
    requires Addressed(ds0, ds, found) && DistinctShorts(items)
    requires forall s: nat, r: Random :: DeviceAddress(s, r) in items <==> s in found && found[s] == r
    ensures multiset(items) == multiset(AddressesOf(ds))
  {
    var a := AddressesOf(ds);
    forall d: DeviceAddress
      ensures d in items <==> d in a
    {
      if d in a {
        var i :| 0 <= i < |a| && a[i] == d;
      }
      if d in items {
        assert DeviceAddress(d.short, d.random) in items;
        var i :| 0 <= i < |ds| && ds[i].short == d.short;
        assert a[i] == d;
      }
    }
    SameContents(items, a);
  }

  /** The lists that `Rebuild` returns are the bus, and what is no longer there as it was. */
  lemma RebuiltIsBus(ds0: seq<Device>, ds: seq<Device>, found: map<nat, Random>, items: seq<DeviceAddress>,
                     devices: seq<DeviceAddress>, res: CommissioningResult)
    requires Addressed(ds0, ds, found) && DistinctShorts(items) && DistinctRandom(items)
    requires forall s: nat, r: Random :: DeviceAddress(s, r) in items <==> s in found && found[s] == r
    requires DistinctShorts(devices) && DistinctRandom(devices) && Classified(devices, items, res)
    ensures multiset(Classification.Kept(devices, res.kept)) + multiset(Nows(res.changed)) + multiset(res.added)
            == multiset(AddressesOf(ds))
    ensures forall d :: d in AtShorts(devices, RemovedShorts(res)) <==> d in devices && d !in AddressesOf(ds)
  {
    RebuiltIsFound(devices, items, res);
    RecordIsBus(ds0, ds, found, items);
    assert forall d :: d in items <==> d in multiset(items);
    assert forall d :: d in AddressesOf(ds) <==> d in multiset(AddressesOf(ds));
  }

  /**
   A commissioning run and the device list rebuilt from its result.  On an addressable bus and from
   a list without repeated addresses, the new list is the bus, by short address, and what is
   unpublished are exactly the old devices that are no longer on the bus as they were.
   */
  method Recommission(bus: Bus, devices: seq<DeviceAddress>)
    returns (r: Result<(seq<DeviceAddress>, seq<DeviceAddress>), Failure>)
    requires bus.st.programmed == []
    modifies bus
    ensures
      r.Ok? && Addressable(bus.world, StoredFrom(devices), old(bus.st.devices)) && DistinctShorts(devices)
      && DistinctRandom(devices)
      ==>
      var (rebuilt, removed) := r.value;
      && SortedBy(rebuilt, ShortOf)
      && multiset(rebuilt) == multiset(AddressesOf(bus.st.devices))
      && forall d :: d in removed <==> d in devices && d !in AddressesOf(bus.st.devices)
    ensures r.Err? && Addressable(bus.world, StoredFrom(devices), old(bus.st.devices)) ==>
      r.error.SearchStuck? && KeepsUnique(old(bus.st.devices), bus.st.devices) && !Lossless(bus.world)
  {
    hide Exact, Safe, Chosen, Addressed, Classified, Partitions, Addressable, KeepsUnique, DistinctRandom,
      NothingInUse, SortedBy, Lossless;
    ghost var ds0 := bus.st.devices;
    var run := new Commissioning(bus, devices);
    var outcome := run.SmartExtend();
    if outcome.Err? {
      if Lossless(bus.world) { LosslessNeverThrice(bus.world, run.searches); }
      return Err(outcome.error);
    }
    var rebuilt, removed := Rebuild(devices, outcome.value);
    if Addressable(bus.world, StoredFrom(devices), ds0) && DistinctShorts(devices) && DistinctRandom(devices) {
      StoredAsGiven(devices);
      RebuiltIsBus(ds0, bus.st.devices, run.found, run.FoundItems(), devices, outcome.value);
    }
    return Ok((rebuilt, removed));
  }

  // --- A device that another one duplicates ---

  /** A device at `s`, and one without a short address that has the same random address. */
  function Pair(a: Random, s: nat): seq<Device>
  {
    [Device(a, s, Disabled), Device(a, MASK, Disabled)]
  }

  lemma PairIsSeparable(a: Random, s: nat)
    requires a != UNSET_RANDOM && s <= MAX_SHORT
    ensures Separable(Pair(a, s)) && Backed(Pair(a, s), [DeviceAddress(s, a)])
  {
    var ds := Pair(a, s);
    assert UniqueShort(ds, 0) && !IsRerolled(ds, 0) && !IsRerolled(ds, 1);
    assert SharesKept(ds, 1, 0);
  }

  lemma PairIsAddressed(a: Random, s: nat, ds: seq<Device>, found: map<nat, Random>)
    requires a != UNSET_RANDOM && s <= MAX_SHORT && Addressed(Pair(a, s), ds, found)
    ensures |ds| == 2 && ds[0].random == a && ds[0].short == s && ds[1].random != a && ds[1].random != UNSET_RANDOM
    ensures ds[1].short != s && ds[1].short <= MAX_SHORT && found == map[s := a, ds[1].short := ds[1].random]
  {
    var ds0 := Pair(a, s);
    assert UniqueShort(ds0, 0) && OwnRandom(ds0, 0);
  }

  /** The whole run on that bus, the device at `s` being stored: it keeps both its addresses, and the other
      one is given a new random address and a short address of its own. */
  method DuplicateIsSeparated(world: World, a: Random, s: nat)
    returns (bus: Bus, run: Commissioning, r: Result<CommissioningResult, Failure>)
    requires a != UNSET_RANDOM && s <= MAX_SHORT && Faithful(world) && NewDraws(world, Pair(a, s))
    ensures bus.world == world && run.bus == bus
    ensures Lossless(world) ==> r.Ok?
    ensures r.Ok? ==>
      var ds := bus.st.devices;
      && |ds| == 2 && ds[0].random == a && ds[0].short == s
      && ds[1].random != a && ds[1].random != UNSET_RANDOM && ds[1].short != s && ds[1].short <= MAX_SHORT
      && run.found == map[s := a, ds[1].short := ds[1].random]
  {
    hide Exact, Safe, Chosen, Addressed, Classified, Partitions, KeepsUnique, DistinctRandom, NothingInUse, Lossless,
      Separable, Backed, NewDraws, Faithful, LostThrice;
    bus := new Bus(world, Pair(a, s), 0, 0, 0);
    StoredAsGiven([DeviceAddress(s, a)]);
    run := new Commissioning(bus, [DeviceAddress(s, a)]);
    PairIsSeparable(a, s);
    r := run.SmartExtend();
    if r.Ok? {
      PairIsAddressed(a, s, bus.st.devices, run.found);
    } else if Lossless(world) {
      LosslessNeverThrice(world, run.searches);
    }
  }

  // --- A short address that the poll missed ---

  lemma FreeIsValid(present: set<nat>, available: seq<nat>, recorded: set<nat>, late: set<nat>, log: seq<Handout>)
    requires Safe(present, available, recorded, late, log)
    ensures forall s :: s in available ==> s <= MAX_SHORT
    ensures available != [] ==> forall s :: s in available ==> available[0] <= s
  {
  }

  /** A device that reports a free short address keeps it, and the address stays free; when another
      device is then given that address, the first one's record is lost. */
  method KeptWhileFreeIsLost(run: Commissioning, a: Random, b: Random, s: nat)
    returns (first: Result<set<Target>, Failure>, second: Result<set<Target>, Failure>)
    requires run.Valid() && s in run.available && s !in run.found
    requires a != UNSET_RANDOM && b != UNSET_RANDOM && Picked(run.stored, run.available, b) == Some(s)
    modifies run`found, run`order, run`late, run`available, run`log, run`outstanding, run.search, run.bus
    ensures first == Ok({}) && (second.Ok? ==> run.found == old(run.found)[s := b])
    ensures Obedient(run.bus.world) ==> run.bus.st.devices == Readdress(old(run.bus.st.devices), b, s)
  {
    hide Exact, Safe, Chosen, Guarded, Confirms, Faithful;
    FreeIsValid(run.present, run.available, run.found.Keys, run.late, run.log);
    first := run.ProcessFoundDevice(a, Value(s), [], {}, {});
    second := run.ProcessFoundDevice(b, Value(MASK), [], {}, {});
    assert old(run.found)[s := a][s := b] == old(run.found)[s := b];
  }

  /** Gear obeys and every answer is heard, but for those of the poll at `s`. */
  function PollMisses(s: nat): World
  {
    World((t, f, r) => if f == QueryPresent(s) then Silent else r, (t, f, i) => true, (t, i) => 0)
  }

  lemma PollMissesOnly(s: nat)
    ensures var w := PollMisses(s);
            && Reliable(w) && Lossless(w) && Obedient(w) && ClearShorts(w) && LostAt(w, s)
            && forall x: nat :: x != s ==> HeardAt(w, x)
  {
  }

  lemma TruthOfOne(ds: seq<Device>, d: Device)
    requires d in ds && d.mode != Disabled && forall e :: e in ds && e.random == d.random ==> e == d
    ensures Truth(ds, d.random, QueryShort) == Value(d.short)
  {
    MergeOne(ds, (e: Device) => Selected(e, d.random), (e: Device) => e.short, d);
  }

  /** The search finds the lowest participant, and nothing else. */
  method FindLowest(run: Commissioning, low: Random, addr: Random) returns (next: Finding)
    requires run.Valid() && Reliable(run.bus.world) && Lossless(run.bus.world)
    requires IsLowest(run.bus.st.devices, addr) && AllAtLeast(run.bus.st.devices, low)
    modifies run.search, run.bus
    ensures run.Valid() && run.bus.st.devices == old(run.bus.st.devices)
    ensures next == Found(addr) && run.bus.st.Search() == addr
  {
    hide Exact, Safe, Chosen;
    next := run.FindNext(low, [], {});
    LowestIsIt(run.bus.st.devices, addr, if next.Found? then next.addr else addr);
  }

  lemma LowestIsIt(ds: seq<Device>, addr: Random, other: Random)
    requires IsLowest(ds, addr)
    ensures SomeParticipant(ds, MAX_RANDOM) && (IsLowest(ds, other) ==> other == addr)
  {
    var d :| d in ds && Participates(d, addr);
    assert Participates(d, MAX_RANDOM);
    if IsLowest(ds, other) {
      var e :| e in ds && Participates(e, other);
      assert !Participates(e, addr - 1) && !Participates(d, other - 1);
    }
  }

  /** The first device reports 0 and keeps it. */
  method KeepFirst(run: Commissioning, a: Random, b: Random)
    requires run.Valid() && run.bus.world == PollMisses(0) && run.found == map[] && run.outstanding == {}
    requires a < b < UNSET_RANDOM && run.bus.st.Search() == a
    requires run.bus.st.devices == [Device(a, 0, Enabled), Device(b, MASK, Enabled)]
    modifies run`found, run`order, run`late, run`available, run`log, run`outstanding, run.search, run.bus
    ensures run.Valid() && run.found == map[0 := a] && run.outstanding == {} && run.available == old(run.available)
    ensures run.bus.st.devices == [Device(a, 0, Withdrawn), Device(b, MASK, Enabled)]
  {
    hide Exact, Safe, Chosen, Guarded, Confirms, Truth, Reliable, Lossless, ClearQueries, LostAt, HeardAt,
      PollMisses, Faithful;
    PollMissesOnly(0);
    TruthOfOne(run.bus.st.devices, Device(a, 0, Enabled));
    assert WithdrawAt(run.bus.st.devices, a) == [Device(a, 0, Withdrawn), Device(b, MASK, Enabled)];
    var kept := run.HandleFound(a, [], {});
  }

  /** The second device has none and is given 0. */
  method GiveSecond(run: Commissioning, a: Random, b: Random)
    requires run.Valid() && run.bus.world == PollMisses(0) && run.found == map[0 := a] && run.outstanding == {}
    requires a < b < UNSET_RANDOM && run.bus.st.Search() == b
    requires run.stored == [] && run.available != [] && run.available[0] == 0
    requires run.bus.st.devices == [Device(a, 0, Withdrawn), Device(b, MASK, Enabled)]
    modifies run`found, run`order, run`late, run`available, run`log, run`outstanding, run.search, run.bus
    ensures run.Valid() && run.found == map[0 := b] && run.outstanding == {}
    ensures run.bus.st.devices == [Device(a, 0, Withdrawn), Device(b, 0, Withdrawn)]
  {
    hide Exact, Safe, Chosen, Guarded, Truth, Reliable, Lossless, ClearQueries, LostAt, HeardAt, PollMisses, Faithful;
    PollMissesOnly(0);
    TruthOfOne(run.bus.st.devices, Device(b, MASK, Enabled));
    var withdrawn := WithdrawAt(run.bus.st.devices, b);
    assert withdrawn == [Device(a, 0, Withdrawn), Device(b, MASK, Withdrawn)];
    assert Selected(withdrawn[1], b) && withdrawn[1] in withdrawn;
    assert Readdress(withdrawn, b, 0) == [Device(a, 0, Withdrawn), Device(b, 0, Withdrawn)];
    assert Picked([], run.available, b) == Some(0);
    var given := run.HandleFound(b, [], {});
    assert map[0 := a][0 := b] == map[0 := b];
  }

  /**
   The steps of a run, up to a search that finds nobody any more, which leave two devices at one short
   address: the answer of the first to the poll is lost, it is found and keeps address 0, and the
   second, which has none, is given 0.
   */
  method LostPollAnswerCollides(a: Random, b: Random) returns (bus: Bus, run: Commissioning, last: Finding)
    requires a < b < UNSET_RANDOM
    ensures run.Valid() && run.bus == bus && bus.world == PollMisses(0)
    ensures bus.st.devices == [Device(a, 0, Withdrawn), Device(b, 0, Withdrawn)]
    ensures run.found == map[0 := b] && run.outstanding == {} && last == Nothing
  {
    hide Exact, Safe, Chosen, Guarded, Reliable, Lossless, IsLowest, AllAtLeast, PollMisses;
    bus, run := PreparedRun(a, b);
    PollMissesOnly(0);
    LowestOfTwo(bus.st.devices);
    var next := FindLowest(run, 0, a);
    KeepFirst(run, a, b);
    LowestOfTwo(bus.st.devices);
    next := FindLowest(run, a, b);
    GiveSecond(run, a, b);
    last := FindNothing(run, b);
  }

  method FindNothing(run: Commissioning, low: Random) returns (next: Finding)
    requires run.Valid() && Reliable(run.bus.world) && forall d :: d in run.bus.st.devices ==> d.mode != Enabled
    modifies run.search, run.bus
    ensures run.Valid() && run.bus.st.devices == old(run.bus.st.devices) && next == Nothing
  {
    hide Exact, Safe, Chosen;
    next := run.FindNext(low, [], {});
  }

  /** Two devices, the second of which takes part in the search, and perhaps the first. */
  lemma LowestOfTwo(ds: seq<Device>)
    requires |ds| == 2 && ds[0].random < ds[1].random <= MAX_RANDOM && ds[1].mode == Enabled
    ensures IsLowest(ds, if ds[0].mode == Enabled then ds[0].random else ds[1].random)
    ensures AllAtLeast(ds, if ds[0].mode == Enabled then 0 else ds[0].random)
  {
    var k := if ds[0].mode == Enabled then 0 else 1;
    assert ds[k] in ds && Participates(ds[k], ds[k].random);
  }

  /** The poll of that run: nobody is heard, so every short address is free. */
  method PreparedRun(a: Random, b: Random) returns (bus: Bus, run: Commissioning)
    requires a < b < UNSET_RANDOM
    ensures fresh(bus) && fresh(run) && fresh(run.search) && run.bus == bus && bus.world == PollMisses(0)
    ensures run.Valid() && run.found == map[] && run.outstanding == {} && run.stored == []
    ensures run.available != [] && run.available[0] == 0
    ensures bus.st.devices == [Device(a, 0, Enabled), Device(b, MASK, Enabled)]
  {
    hide Exact, Safe, Chosen, Guarded, Reliable, Lossless, Tidy, Presence, PolledHolds, SameAddresses, Modes,
      ClearQueries, Addressable, PolledTo, Faithful, Obedient, DistinctRandom, DistinctShorts, NoDup, LostAt, HeardAt,
      Commissioning.Valid, Ascending;
    PollMissesOnly(0);
    bus, run := NewRun(a, b);
    ghost var ds := bus.st.devices;
    var known, _ := run.Prepare();
    AllFree(bus.world, ds, run.present, run.available);
    InitialisedPair(a, b, bus.st.devices);
  }

  method NewRun(a: Random, b: Random) returns (bus: Bus, run: Commissioning)
    ensures fresh(bus) && fresh(run) && fresh(run.search) && run.bus == bus && bus.world == PollMisses(0)
    ensures run.Valid() && run.found == map[] && run.log == [] && run.outstanding == {} && run.stored == []
    ensures bus.st.devices == [Device(a, 0, Disabled), Device(b, MASK, Disabled)]
  {
    bus := new Bus(PollMisses(0), [Device(a, 0, Disabled), Device(b, MASK, Disabled)], 0, 0, 0);
    run := new Commissioning(bus, []);
  }

  /** Where nobody is heard, all short addresses are free. */
  lemma AllFree(w: World, ds: seq<Device>, present: set<nat>, available: seq<nat>)
    requires Presence(w, ds, present) && LostAt(w, 0) && forall x: nat :: x != 0 ==> HeardAt(w, x)
    requires forall d :: d in ds ==> d.short == 0 || d.short > MAX_SHORT
    requires Ascending(available) && forall s: nat :: s in available <==> s <= MAX_SHORT && s !in present
    ensures present == {} && available != [] && available[0] == 0
  {
    NobodyHeard(w, ds, present);
    assert 0 in available;
  }

  lemma NobodyHeard(w: World, ds: seq<Device>, present: set<nat>)
    requires Presence(w, ds, present) && LostAt(w, 0) && forall x: nat :: x != 0 ==> HeardAt(w, x)
    requires forall d :: d in ds ==> d.short == 0 || d.short > MAX_SHORT
    ensures present == {}
  {
    forall s: nat | s <= MAX_SHORT
      ensures s !in present
    {
      assert s != 0 ==> HeardAt(w, s) && s !in Shorts(ds);
    }
  }

  lemma InitialisedPair(a: Random, b: Random, ds: seq<Device>)
    requires SameAddresses([Device(a, 0, Disabled), Device(b, MASK, Disabled)], ds) && Modes(ds, {})
    ensures ds == [Device(a, 0, Enabled), Device(b, MASK, Enabled)]
  {
  }
}
