/** The stand-alone addressing tool (`address_with_randomise`): one RANDOMISE for the whole bus,
    one search pass, and the configuration brought in line with it. */
module AddressWithRandomise {
  import opened Prelude
  import opened Sequences
  import opened SearchBus
  import opened SearchAddress
  import opened Finder
  import opened Enumeration
  import opened Allocation
  import opened Polling
  import opened Exactness
  import opened Classification
  import Commissioning

  datatype Aborted = NothingNew(above: Random) | NoneFree(random: Random) | NotConfirmed(short: nat)

  /** What a run may rely on at every moment.  `taken` answered the opening scan, `reported` are
      the short addresses gear has reported so far, and each hand-out is logged with what had been
      reported when it was made. */
  ghost predicate Fresh(taken: set<nat>, free: seq<nat>, reported: set<nat>, log: seq<Handout>)
  {
    && Ascending(free)
    && (forall s :: s in free ==> s <= MAX_SHORT && s !in taken && s !in reported)
    && (forall k :: 0 <= k < |log| ==>
          && log[k].short <= MAX_SHORT && log[k].short !in taken
          && log[k].short !in log[k].recorded && log[k].short !in free)
    && (forall j, k :: 0 <= j < k < |log| ==> log[j].short != log[k].short)
  }

  lemma FreshReport(taken: set<nat>, free: seq<nat>, reported: set<nat>, log: seq<Handout>, s: nat)
    requires Fresh(taken, free, reported, log)
    ensures Fresh(taken, Without(free, s), reported + {s}, log)
  {
    WithoutRemoves(free, s);
  }

  lemma FreshHandOut(taken: set<nat>, free: seq<nat>, reported: set<nat>, log: seq<Handout>, h: Handout)
    requires Fresh(taken, free, reported, log) && free != [] && h.short == free[0] && h.recorded == reported
    ensures Fresh(taken, free[1..], reported, log + [h])
  {
    var rest := free[1..];
    forall i | 0 <= i < |rest|
      ensures rest[i] in free && rest[i] != free[0]
    {
      assert rest[i] == free[i + 1];
    }
    assert Ascending(rest);
    assert forall s :: s in rest ==> s in free && s != free[0];
  }

  /** What is listed is what the gear with that random address holds, all of it. */
  ghost predicate Holders(ds: seq<Device>, g: DeviceAddress)
  {
    && (exists d :: d in ds && d.random == g.random)
    && forall d :: d in ds && d.random == g.random ==> d.short == g.short
  }

  ghost predicate Listed(ds: seq<Device>, gear: seq<DeviceAddress>)
  {
    forall g :: g in gear ==> Holders(ds, g)
  }

  /** The gear at `a` reported `s`, or was given it. */
  ghost predicate NowAt(ds: seq<Device>, ds': seq<Device>, a: Random, s: nat)
  {
    (ds' == ds && Truth(ds, a, QueryShort) == Value(s)) || ds' == Readdress(ds, a, s)
  }

  lemma NowHolders(ds: seq<Device>, ds': seq<Device>, a: Random, s: nat)
    requires NowAt(ds, ds', a, s) && (exists d :: d in ds && d.random == a)
    requires forall d :: d in ds && d.random == a ==> d.mode != Disabled
    ensures Holders(ds', DeviceAddress(s, a))
  {
    if ds' == Readdress(ds, a, s) {
      var d :| d in ds && d.random == a;
      var i :| 0 <= i < |ds| && ds[i] == d;
      assert ds'[i] in ds' && ds'[i].random == a;
      forall e | e in ds' && e.random == a
        ensures e.short == s
      {
        var j :| 0 <= j < |ds'| && ds'[j] == e;
        assert ds[j] in ds;
      }
    } else {
      MergeAllAgree(ds, (d: Device) => Selected(d, a), (d: Device) => d.short, s);
    }
  }

  /** Nobody else's short address moves. */
  lemma OthersStayListed(ds: seq<Device>, ds': seq<Device>, gear: seq<DeviceAddress>, a: Random, s: nat)
    requires Listed(ds, gear) && a !in RandomsOf(gear) && NowAt(ds, ds', a, s)
    ensures Listed(ds', gear)
  {
    forall g | g in gear
      ensures Holders(ds', g)
    {
      var k :| 0 <= k < |gear| && gear[k] == g;
      assert RandomsOf(gear)[k] == g.random != a;
      var d :| d in ds && d.random == g.random;
      var i :| 0 <= i < |ds| && ds[i] == d;
      assert ds'[i] in ds' && ds'[i].random == g.random;
      forall e | e in ds' && e.random == g.random
        ensures e.short == g.short
      {
        var j :| 0 <= j < |ds'| && ds'[j] == e;
        assert ds[j] in ds;
      }
    }
  }

  /** Modes do not matter to the list. */
  lemma StayListed(ds: seq<Device>, ds': seq<Device>, gear: seq<DeviceAddress>)
    requires Listed(ds, gear) && SameAddresses(ds, ds')
    ensures Listed(ds', gear)
  {
    forall g | g in gear
      ensures Holders(ds', g)
    {
      var d :| d in ds && d.random == g.random;
      var i :| 0 <= i < |ds| && ds[i] == d;
      assert ds'[i] in ds';
      forall e | e in ds' && e.random == g.random
        ensures e.short == g.short
      {
        var j :| 0 <= j < |ds'| && ds'[j] == e;
        assert ds[j] in ds;
      }
    }
  }

  /** The gear found is listed where it now is, and what was listed before stays right. */
  lemma FoundIsListed(ds0: seq<Device>, ds: seq<Device>, ds1: seq<Device>, ds2: seq<Device>, gear: seq<DeviceAddress>,
                      a: Random, s: nat)
    requires Pass(ds0, ds, RandomsOf(gear)) && IsLowest(ds, a) && Listed(ds, gear)
    requires NowAt(ds, ds1, a, s) && SameAddresses(ds1, ds2)
    ensures Listed(ds2, gear + [DeviceAddress(s, a)])
  {
    var res := RandomsOf(gear);
    LowestIsNext(ds0, ds, res, a);
    assert forall k :: 0 <= k < |res| ==> res[k] <= Last(res);
    OthersStayListed(ds, ds1, gear, a, s);
    LowestIsHeld(ds, a);
    forall d | d in ds && d.random == a
      ensures d.mode != Disabled
    {
      var i :| 0 <= i < |ds| && ds[i] == d;
    }
    NowHolders(ds, ds1, a, s);
    StayListed(ds1, ds2, gear + [DeviceAddress(s, a)]);
  }

  // --- Who holds what while the pass goes on ---

  /** The opening scan was complete, and no two devices have drawn the same random address. */
  ghost predicate Scanned(ds0: seq<Device>, taken: set<nat>)
  {
    && (forall i, j :: 0 <= i < j < |ds0| ==> ds0[i].random != ds0[j].random)
    && (forall s: nat :: s in taken <==> s <= MAX_SHORT && s in Shorts(ds0))
  }

  /** Only gear without a valid short address was given one, which it holds alone, and each address
      is free, handed out or taken. */
  ghost predicate Addressing(ds0: seq<Device>, ds: seq<Device>, taken: set<nat>, free: seq<nat>, handed: set<nat>)
  {
    && |ds| == |ds0|
    && (forall i :: 0 <= i < |ds| && ds[i].short != ds0[i].short ==> ds0[i].short > MAX_SHORT && ds[i].short in handed)
    && (forall i, j :: 0 <= i < |ds| && 0 <= j < |ds| && i != j && ds[i].short != ds0[i].short
          ==> ds[j].short != ds[i].short)
    && (forall s :: s in handed ==> s <= MAX_SHORT && s !in taken && s in Shorts(ds))
    && (forall s: nat :: s <= MAX_SHORT ==> s in free || s in handed || s in taken)
  }

  lemma AddressingIgnoresModes(ds0: seq<Device>, ds: seq<Device>, ds': seq<Device>, taken: set<nat>, free: seq<nat>,
                               handed: set<nat>)
    requires Addressing(ds0, ds, taken, free, handed) && SameAddresses(ds, ds')
    ensures Addressing(ds0, ds', taken, free, handed)
  {
    SameShorts(ds, ds');
  }

  /** Device `i` is the only one at the random address that the search has found. */
  ghost predicate Alone(ds: seq<Device>, i: nat, a: Random)
  {
    && i < |ds| && ds[i].random == a && ds[i].mode != Disabled
    && forall j :: 0 <= j < |ds| && j != i ==> ds[j].random != a
  }

  lemma FoundAlone(ds0: seq<Device>, ds: seq<Device>, res: seq<Random>, taken: set<nat>, a: Random) returns (i: nat)
    requires Scanned(ds0, taken) && Pass(ds0, ds, res) && IsLowest(ds, a)
    ensures Alone(ds, i, a) && Truth(ds, a, QueryShort) == Value(ds[i].short)
  {
    LowestIsHeld(ds, a);
    var d :| d in ds && d.mode == Enabled && d.random == a;
    i :| 0 <= i < |ds| && ds[i] == d;
    MergeOne(ds, (d: Device) => Selected(d, a), (d: Device) => d.short, ds[i]);
  }

  /** Gear that reports an address keeps it. */
  lemma ReportKeepsAddressing(ds0: seq<Device>, ds: seq<Device>, taken: set<nat>, free: seq<nat>, handed: set<nat>,
                              i: nat)
    requires Addressing(ds0, ds, taken, free, handed) && Scanned(ds0, taken) && Ascending(free)
    requires i < |ds| && ds[i].short <= MAX_SHORT
    ensures Addressing(ds0, ds, taken, Without(free, ds[i].short), handed)
  {
    WithoutHolds(free, ds[i].short);
    assert ds[i].short in handed || ds[i].short in taken;
  }

  /** Gear without one holds the address it is given alone. */
  lemma HandOutKeepsAddressing(ds0: seq<Device>, ds: seq<Device>, taken: set<nat>, free: seq<nat>, handed: set<nat>,
                               a: Random, i: nat)
    requires Addressing(ds0, ds, taken, free, handed) && Scanned(ds0, taken) && Alone(ds, i, a)
    requires ds[i].short > MAX_SHORT && free != [] && free[0] <= MAX_SHORT && free[0] !in taken && free[0] !in handed
    ensures Addressing(ds0, Readdress(ds, a, free[0]), taken, free[1..], handed + {free[0]})
  {
    NobodyHas(ds0, ds, taken, free, handed, free[0]);
    assert ds[i].short == ds0[i].short;
    OneMoves(ds0, ds, Readdress(ds, a, free[0]), taken, handed, i, free[0]);
    assert free == [free[0]] + free[1..];
  }

  lemma OneMoves(ds0: seq<Device>, ds: seq<Device>, ds': seq<Device>, taken: set<nat>, handed: set<nat>, i: nat, s: nat)
    requires |ds| == |ds0| == |ds'| && i < |ds| && ds'[i].short == s
    requires forall j :: 0 <= j < |ds| && j != i ==> ds'[j] == ds[j] && ds[j].short != s
    requires forall t :: t in handed ==> t in Shorts(ds)
    requires ds[i].short !in handed
    ensures forall t :: t in handed + {s} ==> t in Shorts(ds')
  {
    forall t | t in handed
      ensures t in Shorts(ds')
    {
      var d :| d in ds && d.short == t;
      var j :| 0 <= j < |ds| && ds[j] == d;
      assert ds'[j].short == t;
    }
    assert ds'[i].short == s;
  }

  lemma NobodyHas(ds0: seq<Device>, ds: seq<Device>, taken: set<nat>, free: seq<nat>, handed: set<nat>, s: nat)
    requires Addressing(ds0, ds, taken, free, handed) && Scanned(ds0, taken)
    requires s <= MAX_SHORT && s !in taken && s !in handed
    ensures forall j :: 0 <= j < |ds| ==> ds[j].short != s
  {
    forall j | 0 <= j < |ds|
      ensures ds[j].short != s
    {
      assert ds0[j].short in Shorts(ds0);
    }
  }

  /** The gear found has reported `s`, or was given it. */
  lemma GearAddressed(ds0: seq<Device>, ds: seq<Device>, ds': seq<Device>, taken: set<nat>, free: seq<nat>,
                      free': seq<nat>, handed: seq<nat>, handed': seq<nat>, a: Random, i: nat, s: nat)
    requires Addressing(ds0, ds, taken, free, Elements(handed)) && Scanned(ds0, taken) && Ascending(free)
    requires Alone(ds, i, a) && s <= MAX_SHORT
    requires if ds[i].short <= MAX_SHORT
             then s == ds[i].short && ds' == ds && free' == Without(free, s) && handed' == handed
             else ds' == Readdress(ds, a, s) && free == [s] + free' && handed' == handed + [s]
                  && s !in taken && s !in handed
    ensures Addressing(ds0, ds', taken, free', Elements(handed'))
  {
    hide Addressing, Scanned, Ascending, Without, Readdress;
    if ds[i].short <= MAX_SHORT {
      ReportKeepsAddressing(ds0, ds, taken, free, Elements(handed), i);
    } else {
      HandOutKeepsAddressing(ds0, ds, taken, free, Elements(handed), a, i);
      assert free[1..] == free' && Elements(handed') == Elements(handed) + {s};
    }
  }

  lemma FreeIsNew(taken: set<nat>, free: seq<nat>, reported: set<nat>, log: seq<Handout>, programmed: seq<nat>)
    requires Fresh(taken, free, reported, log) && |log| == |programmed|
    requires forall k :: 0 <= k < |log| ==> log[k].short == programmed[k]
    ensures Ascending(free)
    ensures forall s :: s in free ==> s !in taken && s !in programmed
  {
  }

  /** While one of at most 64 devices has no valid short address, one is free. */
  lemma FreeDoesNotRunOut(ds0: seq<Device>, ds: seq<Device>, taken: set<nat>, free: seq<nat>, handed: set<nat>, i: nat)
    requires Addressing(ds0, ds, taken, free, handed) && Scanned(ds0, taken) && |ds| <= MAX_SHORT + 1
    requires i < |ds| && ds[i].short > MAX_SHORT
    ensures free != []
  {
    if free == [] {
      var others := ds[..i] + ds[i + 1..];
      forall s: nat | s < MAX_SHORT + 1
        ensures s in Shorts(others)
      {
        var j := HolderOf(ds0, ds, taken, free, handed, s);
        assert ds[j] in others by {
          assert j < i ==> others[j] == ds[j];
          assert j > i ==> others[j - 1] == ds[j];
        }
      }
      SubsetCount(UpTo(MAX_SHORT + 1), Shorts(others));
      FewerShortsThanDevices(others);
      assert false;
    }
  }

  lemma HolderOf(ds0: seq<Device>, ds: seq<Device>, taken: set<nat>, free: seq<nat>, handed: set<nat>, s: nat)
    returns (j: nat)
    requires Addressing(ds0, ds, taken, free, handed) && Scanned(ds0, taken) && s <= MAX_SHORT && s !in free
    ensures j < |ds| && ds[j].short == s
  {
    if s in handed {
      var d :| d in ds && d.short == s;
      j :| 0 <= j < |ds| && ds[j] == d;
    } else {
      var d :| d in ds0 && d.short == s;
      j :| 0 <= j < |ds0| && ds0[j] == d;
    }
  }

  lemma AloneConfirms(w: World, ds0: seq<Device>, ds: seq<Device>, taken: set<nat>, free: seq<nat>, handed: set<nat>,
                      a: Random, i: nat)
    requires Obedient(w) && ClearShorts(w) && Alone(ds, i, a)
    requires Addressing(ds0, ds, taken, free, handed) && Scanned(ds0, taken)
    ensures Commissioning.Confirms(w, ds, a)
    ensures ds[i].short > MAX_SHORT && |ds0| <= MAX_SHORT + 1 ==> free != []
  {
    assert Selected(ds[i], a) && ds[i] in ds;
    if ds[i].short > MAX_SHORT && |ds0| <= MAX_SHORT + 1 {
      FreeDoesNotRunOut(ds0, ds, taken, free, handed, i);
    }
  }

  /** No two devices have the same valid short address. */
  ghost predicate NoneShared(ds: seq<Device>)
  {
    forall i, j :: 0 <= i < j < |ds| && ds[i].short == ds[j].short ==> ds[i].short > MAX_SHORT
  }

  /** When all gear is listed the list is the bus, one entry for each device; its short addresses are
      distinct exactly if none was shared before the pass. */
  lemma ListIsBus(ds0: seq<Device>, ds: seq<Device>, taken: set<nat>, free: seq<nat>, handed: set<nat>,
                  gear: seq<DeviceAddress>)
    requires Addressing(ds0, ds, taken, free, handed) && Scanned(ds0, taken) && Listed(ds, gear)
    requires forall i :: 0 <= i < |ds| ==> ds[i].random == ds0[i].random
    requires forall g :: g in gear ==> g.short <= MAX_SHORT
    requires Ascending(RandomsOf(gear)) && Elements(RandomsOf(gear)) == Randoms(ds)
    ensures |gear| == |ds| && forall i :: 0 <= i < |ds| ==> DeviceAddress(ds[i].short, ds[i].random) in gear
    ensures DistinctShorts(gear) <==> NoneShared(ds0)
  {
    hide Listed, NoneShared, Ascending;
    EntryCount(ds, gear);
    forall i | 0 <= i < |ds|
      ensures DeviceAddress(ds[i].short, ds[i].random) in gear
    {
      EntryOf(ds, gear, i);
    }
    if NoneShared(ds0) {
      EntriesApart(ds0, ds, taken, free, handed, gear);
    } else {
      SharedStays(ds0, ds, taken, free, handed, gear);
    }
  }

  lemma EntryOf(ds: seq<Device>, gear: seq<DeviceAddress>, i: nat)
    requires Listed(ds, gear) && i < |ds| && Elements(RandomsOf(gear)) == Randoms(ds)
    ensures DeviceAddress(ds[i].short, ds[i].random) in gear
  {
    assert ds[i] in ds && ds[i].random in RandomsOf(gear);
    var k :| 0 <= k < |gear| && RandomsOf(gear)[k] == ds[i].random;
    assert gear[k] in gear && Holders(ds, gear[k]);
  }

  lemma SharedStays(ds0: seq<Device>, ds: seq<Device>, taken: set<nat>, free: seq<nat>, handed: set<nat>,
                    gear: seq<DeviceAddress>)
    requires Addressing(ds0, ds, taken, free, handed) && Scanned(ds0, taken) && !NoneShared(ds0)
    requires forall i :: 0 <= i < |ds| ==> ds[i].random == ds0[i].random
    requires forall i :: 0 <= i < |ds| ==> DeviceAddress(ds[i].short, ds[i].random) in gear
    ensures !DistinctShorts(gear)
  {
    var i, j :| 0 <= i < j < |ds0| && ds0[i].short == ds0[j].short <= MAX_SHORT;
    assert DeviceAddress(ds[i].short, ds[i].random) in gear && DeviceAddress(ds[j].short, ds[j].random) in gear;
    var p :| 0 <= p < |gear| && gear[p] == DeviceAddress(ds[i].short, ds[i].random);
    var q :| 0 <= q < |gear| && gear[q] == DeviceAddress(ds[j].short, ds[j].random);
  }

  lemma EntryCount(ds: seq<Device>, gear: seq<DeviceAddress>)
    requires forall i, j :: 0 <= i < j < |ds| ==> ds[i].random != ds[j].random
    requires Ascending(RandomsOf(gear)) && Elements(RandomsOf(gear)) == Randoms(ds)
    ensures |gear| == |ds|
  {
    var rs: seq<Random> := seq(|ds|, i requires 0 <= i < |ds| => ds[i].random);
    forall r
      ensures r in Elements(rs) <==> r in Randoms(ds)
    {
      if r in Elements(rs) {
        var i :| 0 <= i < |rs| && rs[i] == r;
        assert ds[i] in ds;
      }
      if r in Randoms(ds) {
        var d :| d in ds && d.random == r;
        var i :| 0 <= i < |ds| && ds[i] == d;
        assert rs[i] == r;
      }
    }
    assert Elements(rs) == Randoms(ds);
    NoDupSize(rs);
    NoDupSize(RandomsOf(gear));
  }

  lemma EntriesApart(ds0: seq<Device>, ds: seq<Device>, taken: set<nat>, free: seq<nat>, handed: set<nat>,
                     gear: seq<DeviceAddress>)
    requires Addressing(ds0, ds, taken, free, handed) && Listed(ds, gear) && NoneShared(ds0)
    requires forall g :: g in gear ==> g.short <= MAX_SHORT
    requires Ascending(RandomsOf(gear))
    ensures DistinctShorts(gear)
  {
    forall p, q | 0 <= p < q < |gear|
      ensures gear[p].short != gear[q].short
    {
      var i := HolderIndex(ds, gear, p);
      var j := HolderIndex(ds, gear, q);
      assert RandomsOf(gear)[p] < RandomsOf(gear)[q];
    }
  }

  lemma HolderIndex(ds: seq<Device>, gear: seq<DeviceAddress>, k: nat) returns (i: nat)
    requires Listed(ds, gear) && k < |gear|
    ensures i < |ds| && ds[i].short == gear[k].short && ds[i].random == gear[k].random
  {
    assert Holders(ds, gear[k]);
    var d :| d in ds && d.random == gear[k].random;
    i :| 0 <= i < |ds| && ds[i] == d;
  }

  class AddressingPass {
    const finder: BinarySearchAddressFinder
    const bus: Bus
    var free: seq<nat>
    var gear: seq<DeviceAddress>
    ghost var taken: set<nat>
    ghost var reported: set<nat>
    ghost var log: seq<Handout>

    /** Every address programmed is in the log, and the log is `Fresh`. */
    ghost predicate Valid()
      reads this, finder, finder.selector, bus
    {
      && finder.selector.bus == bus && finder.selector.Valid()
      && (forall g :: g in gear ==> g.short <= MAX_SHORT)
      && Fresh(taken, free, reported, log)
      && |log| == |bus.st.programmed|
      && forall k :: 0 <= k < |log| ==> log[k].short == bus.st.programmed[k]
    }

    /** The gear is as the scan found it, but for the addresses handed out since. */
    ghost predicate AccountedFor(ds0: seq<Device>)
      reads this, bus
    {
      Scanned(ds0, taken) && Addressing(ds0, bus.st.devices, taken, free, Elements(bus.st.programmed))
    }

    /** On a bus on which `random` is the next find of a pass, commands are obeyed and short addresses
        arrive as they are reported. */
    ghost predicate Due(ds0: seq<Device>, ds: seq<Device>, res: seq<Random>, random: Random)
      reads this
    {
      Obedient(bus.world) && ClearShorts(bus.world) && Pass(ds0, ds, res) && IsLowest(ds, random)
    }

    constructor (finder: BinarySearchAddressFinder, present: seq<nat>)
      requires finder.selector.Valid() && finder.selector.bus.st.programmed == []
      ensures Valid() && this.finder == finder && bus == finder.selector.bus
      ensures taken == (set s | s in present) && gear == []
      ensures forall s: nat :: s in free <==> s <= MAX_SHORT && s !in present
    {
      this.finder := finder;
      bus := finder.selector.bus;
      var f := FreeAfterPoll(present);
      free := f;
      gear := [];
      taken, reported, log := set s | s in present, {}, [];
    }

    method ReadShortAddress() returns (short: Option<nat>)
      modifies bus
      ensures bus.st == old(bus.st).(tick := bus.st.tick) && old(bus.st.tick) <= bus.st.tick
      ensures short.Some? ==> short.value <= MAX_SHORT
      ensures ClearShorts(bus.world) ==>
        var answer := Truth(bus.st.devices, bus.st.Search(), QueryShort);
        short == if answer.Value? && answer.v <= MAX_SHORT then Some(answer.v) else None
    {
      var resp := QuerySelected(bus);
      return if resp.Value? && resp.v <= MAX_SHORT then Some(resp.v) else None;
    }

    /** Leaves the selected gear with a short address: its own, or the lowest free one. */
    method AddressFoundGear(random: Random) returns (r: Result<nat, Aborted>)
      requires Valid()
      modifies this`free, this`reported, this`log, bus
      ensures Valid()
      ensures r.Ok? ==> r.value <= MAX_SHORT
      ensures r.Ok? ==>
        if bus.st.programmed == old(bus.st.programmed)
        then reported == old(reported) + {r.value} && free == Without(old(free), r.value)
        else reported == old(reported) && old(free) == [r.value] + free
             && bus.st.programmed == old(bus.st.programmed) + [r.value]
      ensures r.Err? && r.error.NoneFree? ==> old(free) == []
      ensures ClearShorts(bus.world) ==>
        var answer := Truth(old(bus.st.devices), old(bus.st).Search(), QueryShort);
        if answer.Value? && answer.v <= MAX_SHORT then r == Ok(answer.v) && bus.st.programmed == old(bus.st.programmed)
        else r.Err? || bus.st.programmed == old(bus.st.programmed) + [r.value]
      ensures Obedient(bus.world) ==> SameSearchers(old(bus.st.devices), bus.st.devices)
      ensures Obedient(bus.world) && r.Ok? ==>
        bus.st.devices == if bus.st.programmed == old(bus.st.programmed) then old(bus.st.devices)
                          else Readdress(old(bus.st.devices), old(bus.st).Search(), r.value)
      ensures Obedient(bus.world) && ClearShorts(bus.world) && r.Ok? && old(bus.st).Search() <= MAX_RANDOM ==>
        NowAt(old(bus.st.devices), bus.st.devices, old(bus.st).Search(), r.value)
      ensures SameAddress(old(bus.st), bus.st)
      ensures r.Err? ==> !r.error.NothingNew?
      ensures old(bus.st.tick) <= bus.st.tick
      ensures Commissioning.Confirms(bus.world, old(bus.st.devices), old(bus.st).Search()) && old(free) != [] ==> r.Ok?
    {
      hide Fresh, Readdress, Without, Truth, ClearShorts, Commissioning.Confirms, Commissioning.HeardConfirmed;
      var short := ReadShortAddress();
      if short.Some? {
        TakeReported(short.value);
        return Ok(short.value);
      }
      if free == [] {
        return Err(NoneFree(random));
      }
      r := HandOut(random);
      if Obedient(bus.world) {
        ReaddressedSearchers(old(bus.st.devices), old(bus.st).Search(), old(free[0]));
      }
    }

    /** The gear found has reported `short`, which is not free any more if it was. */
    method TakeReported(short: nat)
      requires Valid()
      modifies this`free, this`reported
      ensures Valid() && reported == old(reported) + {short} && free == Without(old(free), short)
    {
      FreshReport(taken, free, reported, log, short);
      WithoutAbsent(free, short);
      if short in free {
        free := Without(free, short);
      }
      reported := reported + {short};
    }

    /** Programs the lowest free address into the gear found. */
    method HandOut(random: Random) returns (r: Result<nat, Aborted>)
      requires Valid() && free != []
      modifies this`free, this`log, bus
      ensures Valid() && old(free) == [old(free[0])] + free && old(free[0]) <= MAX_SHORT
      ensures r == Ok(old(free[0])) || r == Err(NotConfirmed(old(free[0])))
      ensures bus.st.programmed == old(bus.st.programmed) + [old(free[0])]
      ensures Obedient(bus.world) ==>
        bus.st.devices == Readdress(old(bus.st.devices), old(bus.st).Search(), old(free[0]))
      ensures SameAddress(old(bus.st), bus.st) && old(bus.st.tick) <= bus.st.tick
      ensures Commissioning.Confirms(bus.world, old(bus.st.devices), old(bus.st).Search()) ==> r.Ok?
    {
      hide Readdress, Commissioning.Confirms, Commissioning.HeardConfirmed;
      var newShort := free[0];
      ghost var h := Handout(newShort, random, free, reported, {}, Shorts(bus.st.devices));
      FreshHandOut(taken, free, reported, log, h);
      assert newShort in free;
      free := free[1..];
      log := log + [h];
      var ok := Commissioning.ProgramAndVerify(bus, newShort);
      return if ok then Ok(newShort) else Err(NotConfirmed(newShort));
    }

    /** `AddressFoundGear` for gear that is alone at its random address. */
    method AddressLowest(random: Random, ghost ds0: seq<Device>, ghost res: seq<Random>)
      returns (r: Result<nat, Aborted>)
      requires Valid() && bus.st.Search() == random
      modifies this`free, this`reported, this`log, bus
      ensures Valid()
      ensures r.Ok? ==> r.value <= MAX_SHORT
      ensures r.Err? ==> !r.error.NothingNew?
      ensures Obedient(bus.world) ==> SameSearchers(old(bus.st.devices), bus.st.devices)
      ensures Obedient(bus.world) && ClearShorts(bus.world) && r.Ok? ==>
        NowAt(old(bus.st.devices), bus.st.devices, random, r.value)
      ensures SameAddress(old(bus.st), bus.st) && old(bus.st.tick) <= bus.st.tick
      ensures
        Due(ds0, old(bus.st.devices), res, random) && old(AccountedFor(ds0)) ==>
        (r.Ok? ==> AccountedFor(ds0)) && (|ds0| <= MAX_SHORT + 1 ==> r.Ok?)
    {
      hide Fresh, Readdress, Without, SameSearchers, ClearShorts, Addressing, Scanned, Pass, IsLowest, Truth, Alone,
        NowAt;
      ghost var ds, before, handed := bus.st.devices, free, bus.st.programmed;
      ghost var due := Due(ds0, ds, res, random) && AccountedFor(ds0);
      FreeIsNew(taken, free, reported, log, handed);
      ghost var i: nat := 0;
      if due {
        i := FoundAlone(ds0, ds, res, taken, random);
        AloneConfirms(bus.world, ds0, ds, taken, free, Elements(handed), random, i);
      }
      r := AddressFoundGear(random);
      if due && r.Ok? {
        GearAddressed(ds0, ds, bus.st.devices, taken, before, free, handed, bus.st.programmed, random, i, r.value);
      }
    }

    /** Queries, addresses (unless only searching) and withdraws the gear just found. */
    method HandleFound(random: Random, searchOnly: bool, ghost ds0: seq<Device>, ghost res: seq<Random>)
      returns (aborted: Option<Aborted>)
      requires Valid() && bus.st.Search() == random
      modifies this`free, this`gear, this`reported, this`log, bus
      ensures Valid()
      ensures searchOnly ==> gear == old(gear) && bus.st.programmed == old(bus.st.programmed) && aborted.None?
      ensures !searchOnly && aborted.None? ==>
        exists s: nat :: s <= MAX_SHORT && gear == old(gear) + [DeviceAddress(s, random)]
      ensures !searchOnly && aborted.None? ==> RandomsOf(gear) == RandomsOf(old(gear)) + [random]
      ensures aborted.Some? ==> !aborted.value.NothingNew? && gear == old(gear)
      ensures
        Obedient(bus.world) && Pass(ds0, old(bus.st.devices), res) && IsLowest(old(bus.st.devices), random)
        && aborted.None?
        ==> Pass(ds0, bus.st.devices, res + [random])
      ensures
        ClearShorts(bus.world) && Obedient(bus.world) && Pass(ds0, old(bus.st.devices), res)
        && IsLowest(old(bus.st.devices), random) && res == RandomsOf(old(gear))
        && Listed(old(bus.st.devices), old(gear)) && !searchOnly && aborted.None?
        ==> Listed(bus.st.devices, gear)
      ensures old(bus.st.tick) <= bus.st.tick
      ensures Obedient(bus.world) ==> SameRandoms(old(bus.st.devices), bus.st.devices)
      ensures
        Due(ds0, old(bus.st.devices), res, random) && old(AccountedFor(ds0)) && !searchOnly ==>
        (aborted.None? ==> AccountedFor(ds0)) && (|ds0| <= MAX_SHORT + 1 ==> aborted.None?)
    {
      hide Pass, IsLowest, Listed, NowAt, Fresh, SameAddresses, Addressing, Scanned;
      ghost var ds, before := bus.st.devices, gear;
      if searchOnly {
        var _ := ReadShortAddress();
      } else {
        var outcome := AddressLowest(random, ds0, res);
        if outcome.Err? {
          return Some(outcome.error);
        }
        gear := gear + [DeviceAddress(outcome.value, random)];
      }
      ghost var after := bus.st.devices;
      if Obedient(bus.world) && Pass(ds0, ds, res) && IsLowest(ds, random) {
        SearchersKeepPass(ds0, ds, bus.st.devices, res, random);
        PassContinues(bus.world, bus.st, ds0, res, random);
      }
      ModesOnly(bus.world, bus.st);
      SearchersKeepRandoms(ds, after, Step(bus.world, bus.st, Withdraw).devices);
      if AccountedFor(ds0) {
        AddressingIgnoresModes(ds0, after, Step(bus.world, bus.st, Withdraw).devices, taken, free,
                               Elements(bus.st.programmed));
      }
      var _ := bus.Send(Withdraw);
      if !searchOnly && ClearShorts(bus.world) && Obedient(bus.world) && Pass(ds0, ds, res)
         && IsLowest(ds, random) && res == RandomsOf(before) && Listed(ds, before) {
        FoundIsListed(ds0, ds, after, bus.st.devices, before, random, gear[|gear| - 1].short);
      }
      return None;
    }

    /**
     One pass over the bus.  On every bus it ends and keeps `Valid`, and stops for want of progress
     exactly when three searches in a row were in vain.  All gear that obeys has drawn a new random
     address.  With lost answers but trustworthy confirmations the pass lists every random address
     once, ascending, or it stops; it does not stop for want of progress unless three searches in a
     row lost answers.  If the draws differ and the opening scan was complete, the list is the bus, one
     entry for each device, and at most 64 devices never run it out of addresses.
     */
    method AddressBus(searchOnly: bool) returns (aborted: Option<Aborted>, ghost searches: seq<Search>)
      requires Valid() && gear == []
      modifies this`free, this`gear, this`reported, this`log, finder.selector, bus
      ensures Valid()
      ensures searchOnly ==> gear == [] && bus.st.programmed == old(bus.st.programmed)
      ensures Obedient(bus.world) ==> AllDrew(bus.world, old(bus.st.tick) + 2, old(bus.st.devices), bus.st.devices)
      ensures Obedient(bus.world) ==> AllDisabled(bus.st.devices)
      ensures Reliable(bus.world) && Obedient(bus.world) && aborted.None? && !searchOnly ==>
        Ascending(RandomsOf(gear)) && Elements(RandomsOf(gear)) == Randoms(bus.st.devices)
      ensures aborted.Some? && aborted.value.NothingNew? <==> InVain(searches) == 3
      ensures forall n :: 0 <= n < |searches| ==> InVain(searches[..n]) < 3
      ensures InOrder(searches, old(bus.st.tick), bus.st.tick)
      ensures Reliable(bus.world) && Obedient(bus.world) && !LostThrice(bus.world, searches) ==>
        InVain(searches) < 3
      ensures Lossless(bus.world) && Obedient(bus.world) && aborted.Some? ==> !aborted.value.NothingNew?
      ensures ClearShorts(bus.world) && Reliable(bus.world) && Obedient(bus.world) && aborted.None? && !searchOnly ==>
        Listed(bus.st.devices, gear)
      ensures
        Reliable(bus.world) && Obedient(bus.world) && ClearShorts(bus.world) && !searchOnly
        && DrawsDiffer(bus.world, old(bus.st.tick) + 2, old(bus.st.devices))
        && ScanComplete(old(bus.st.devices), taken, old(free), old(bus.st.programmed)) ==>
        && (|bus.st.devices| <= MAX_SHORT + 1 && !LostThrice(bus.world, searches) ==> aborted.None?)
        && (aborted.None? ==> OneEntryEach(old(bus.st.devices), bus.st.devices, gear))
    {
      hide Listed, Pass, Reliable, Lossless, ClearShorts, Addressing, InVain, InOrder, LostThrice, Ascending, AllDrew,
        Scanned, DrawsDiffer, ScanComplete, OneEntryEach, DrewTogether, SameRandoms, SameAddresses, Fresh, Elements,
        Tally, Obedient, Randoms, RandomsOf, AllDisabled;
      ghost var w, t0, before := bus.world, bus.st.tick, bus.st.devices;
      if Lossless(w) { LosslessIsReliable(w); }
      ghost var exact := Reliable(w) && Obedient(w) && ClearShorts(w) && !searchOnly
        && DrawsDiffer(w, t0 + 2, before) && ScanComplete(before, taken, free, bus.st.programmed);
      RandomiseAll(bus);
      ghost var ds0, t1 := bus.st.devices, bus.st.tick;
      if exact { AccountStarts(w, t0 + 2, before, ds0, taken, free, bus.st.programmed); }
      ghost var trusted, vain, last := Reliable(w) && Obedient(w), 0, None;
      aborted, searches, vain, last := SearchAll(searchOnly, ds0, trusted, exact);
      TallyEnds(w, searches, t1, bus.st.tick, vain, last, trusted);
      if Lossless(w) { LosslessNeverThrice(w, searches); }
      ghost var ds, t2 := bus.st.devices, bus.st.tick;
      EndPass(bus, ds0, RandomsOf(gear));
      WiderInOrder(searches, t1, t2, t0, bus.st.tick);
      if Obedient(w) { DrawsStay(w, t0 + 2, before, ds0, ds, bus.st.devices); }
      if trusted && aborted.None? && !searchOnly {
        PassOver(w, t0 + 2, before, ds0, ds, bus.st.devices, gear, taken, free, Elements(bus.st.programmed), exact);
      }
    }

    /** One search, which leaves the gear as it is. */
    method NextFind(low: Random, ghost ds0: seq<Device>, ghost res: seq<Random>)
      returns (found: Finding, ghost search: Search)
      requires Valid()
      modifies finder.selector, bus
      ensures Valid()
      ensures bus.st.devices == old(bus.st.devices) && bus.st.programmed == old(bus.st.programmed)
      ensures search == Search(found, old(bus.st.tick), bus.st.tick) && search.from <= search.to
      ensures found.Found? ==> low <= found.addr && bus.st.Search() == found.addr
      ensures Reliable(bus.world) && Pass(ds0, bus.st.devices, res) ==>
        && (found.Found? ==> found.addr > Last(res) && IsLowest(bus.st.devices, found.addr))
        && (found.Nothing? ==> Elements(res) == Randoms(ds0))
        && (low <= Last(res) + 1 && found.Unconfirmed? ==> LosesBetween(bus.world, search.from, search.to))
      ensures old(AccountedFor(ds0)) ==> AccountedFor(ds0)
    {
      ghost var from := bus.st.tick;
      found := NextAddress(finder, low, ds0, res);
      search := Search(found, from, bus.st.tick);
    }

    /** The loop of the pass, at whose end `vain` searches in a row were in vain.  `trusted` and `exact`
        say what is being relied on. */
    method SearchAll(searchOnly: bool, ghost ds0: seq<Device>, ghost trusted: bool, ghost exact: bool)
      returns (aborted: Option<Aborted>, ghost searches: seq<Search>, ghost vain: nat, ghost last: Option<Random>)
      requires Valid() && gear == []
      requires trusted ==> Reliable(bus.world) && Obedient(bus.world) && Pass(ds0, bus.st.devices, [])
      requires exact ==> trusted && ClearShorts(bus.world) && AccountedFor(ds0) && !searchOnly
      modifies this`free, this`gear, this`reported, this`log, finder.selector, bus
      ensures Valid()
      ensures searchOnly ==> gear == [] && bus.st.programmed == old(bus.st.programmed)
      ensures Obedient(bus.world) ==> SameRandoms(old(bus.st.devices), bus.st.devices)
      ensures Tally(bus.world, searches, old(bus.st.tick), bus.st.tick, vain, last, trusted)
      ensures if aborted.Some? && aborted.value.NothingNew? then vain == 3 else vain < 3
      ensures trusted && aborted.None? && !searchOnly ==>
        && Pass(ds0, bus.st.devices, RandomsOf(gear)) && Elements(RandomsOf(gear)) == Randoms(ds0)
        && (ClearShorts(bus.world) ==> Listed(bus.st.devices, gear))
      ensures exact ==>
        (aborted.None? ==> AccountedFor(ds0)) && (|ds0| <= MAX_SHORT + 1 && vain < 3 ==> aborted.None?)
    {
      hide Fresh, Holders, Pass, Reliable, ClearShorts, IsLowest, LosesBetween, Addressing, Scanned, SameRandoms,
        RandomsUpTo, Randoms, Tally, Listed, RandomsOf, Elements, Obedient, AddressingPass.Valid,
        AddressingPass.AccountedFor;
      ghost var w, t0 := bus.world, bus.st.tick;
      ghost var res: seq<Random> := [];
      searches, vain, last := [], 0, None;
      TallyStarts(w, t0, trusted);
      RandomsAreSame(bus.st.devices, bus.st.devices, bus.st.devices);
      var low: Random := 0;
      var lastFound: Option<Random> := None;
      var failed := 0;
      while low < MAX_RANDOM
        invariant Valid()
        invariant failed < FAILED_SEARCHES_BEFORE_GIVING_UP && vain == failed && last == lastFound
        invariant Tally(w, searches, t0, bus.st.tick, vain, last, trusted)
        invariant if last.Some? then low == last.value else low == 0
        invariant searchOnly ==> gear == [] && bus.st.programmed == old(bus.st.programmed)
        invariant !searchOnly ==> RandomsOf(gear) == res
        invariant Obedient(w) ==> SameRandoms(old(bus.st.devices), bus.st.devices)
        invariant trusted ==> Pass(ds0, bus.st.devices, res)
        invariant trusted && ClearShorts(w) && !searchOnly ==> Listed(bus.st.devices, gear)
        invariant exact ==> AccountedFor(ds0)
        invariant trusted ==> Last(res) == if last.Some? then low else -1
        decreases MAX_RANDOM - low, if last.None? then 1 else 0, FAILED_SEARCHES_BEFORE_GIVING_UP - failed
      {
        var found;
        ghost var search;
        found, search := NextFind(low, ds0, res);
        TallyMore(w, searches, search, t0, vain, last, trusted);
        vain := if BringsNothing(found, last) then vain + 1 else 0;
        last := if found.Found? then Some(found.addr) else last;
        searches := searches + [search];
        if found.Nothing? {
          return None, searches, vain, last;
        }
        if found.Unconfirmed? || lastFound == Some(found.addr) {
          failed := failed + 1;
          if failed >= FAILED_SEARCHES_BEFORE_GIVING_UP {
            return Some(NothingNew(low)), searches, vain, last;
          }
          continue;
        }
        failed := 0;
        lastFound := Some(found.addr);
        ghost var foundAt, ds := bus.st.tick, bus.st.devices;
        aborted := HandleFound(found.addr, searchOnly, ds0, res);
        TallyLater(w, searches, t0, foundAt, vain, last, trusted, bus.st.tick);
        RandomsAreSame(old(bus.st.devices), ds, bus.st.devices);
        if aborted.Some? {
          return aborted, searches, vain, last;
        }
        low := found.addr;
        res := res + [found.addr];
      }
      if trusted { PassEnds(ds0, bus.st.devices, res); }
      return None, searches, vain, last;
    }
  }

  /** Each device has the random address that it drew at time `t`. */
  ghost predicate AllDrew(w: World, t: nat, ds: seq<Device>, ds': seq<Device>)
  {
    |ds'| == |ds| && forall i :: 0 <= i < |ds| ==> ds'[i].random == w.draws(t, i)
  }

  lemma DrawsStay(w: World, t: nat, ds: seq<Device>, ds0: seq<Device>, ds1: seq<Device>, ds2: seq<Device>)
    requires DrewTogether(w, t, ds, ds0, Everyone) && SameRandoms(ds0, ds1) && SameAddresses(ds1, ds2)
    ensures AllDrew(w, t, ds, ds2) && SameRandoms(ds0, ds2)
  {
  }

  ghost predicate DrawsDiffer(w: World, t: nat, ds: seq<Device>)
  {
    forall i, j :: 0 <= i < j < |ds| ==> w.draws(t, i) != w.draws(t, j)
  }

  /** The opening scan heard exactly the short addresses on the bus, and the others are free. */
  ghost predicate ScanComplete(ds: seq<Device>, taken: set<nat>, free: seq<nat>, programmed: seq<nat>)
  {
    && programmed == []
    && (forall s: nat :: s in taken <==> s <= MAX_SHORT && s in Shorts(ds))
    && (forall s: nat :: s <= MAX_SHORT ==> s in free || s in taken)
  }

  /** The list has one entry for each device, at the address it now has; no address is listed twice
      exactly if no two devices shared one before. */
  ghost predicate OneEntryEach(before: seq<Device>, ds: seq<Device>, gear: seq<DeviceAddress>)
  {
    && |gear| == |ds| && (forall i :: 0 <= i < |ds| ==> DeviceAddress(ds[i].short, ds[i].random) in gear)
    && (DistinctShorts(gear) <==> NoneShared(before))
  }

  lemma AccountStarts(w: World, t: nat, ds: seq<Device>, ds0: seq<Device>, taken: set<nat>, free: seq<nat>,
                      programmed: seq<nat>)
    requires DrewTogether(w, t, ds, ds0, Everyone) && DrawsDiffer(w, t, ds)
    requires ScanComplete(ds, taken, free, programmed)
    ensures Scanned(ds0, taken) && Addressing(ds0, ds0, taken, free, Elements(programmed))
  {
    SameShorts(ds, ds0);
  }

  /** What the end of a pass, which only changes modes, leaves of what its loop has done. */
  lemma PassOver(w: World, t: nat, before: seq<Device>, ds0: seq<Device>, ds: seq<Device>, ds': seq<Device>,
                 gear: seq<DeviceAddress>, taken: set<nat>, free: seq<nat>, handed: set<nat>, exact: bool)
    requires Pass(ds0, ds, RandomsOf(gear)) && SameAddresses(ds, ds') && SameRandoms(ds0, ds')
    requires Elements(RandomsOf(gear)) == Randoms(ds') && forall g :: g in gear ==> g.short <= MAX_SHORT
    requires exact ==>
      && DrewTogether(w, t, before, ds0, Everyone) && Listed(ds, gear)
      && Scanned(ds0, taken) && Addressing(ds0, ds, taken, free, handed)
    ensures Ascending(RandomsOf(gear))
    ensures Listed(ds, gear) ==> Listed(ds', gear)
    ensures exact ==> OneEntryEach(before, ds', gear)
  {
    hide Pass, SameAddresses, SameRandoms, Listed, Addressing, Scanned, DrewTogether, OneEntryEach;
    PassAscends(ds0, ds, RandomsOf(gear));
    if Listed(ds, gear) {
      StayListed(ds, ds', gear);
    }
    if exact {
      AddressingIgnoresModes(ds0, ds, ds', taken, free, handed);
      AccountEnds(w, t, before, ds0, ds', taken, free, handed, gear);
    }
  }

  lemma AccountEnds(w: World, t: nat, ds: seq<Device>, ds0: seq<Device>, ds1: seq<Device>, taken: set<nat>,
                    free: seq<nat>, handed: set<nat>, gear: seq<DeviceAddress>)
    requires DrewTogether(w, t, ds, ds0, Everyone) && SameRandoms(ds0, ds1)
    requires Addressing(ds0, ds1, taken, free, handed) && Scanned(ds0, taken) && Listed(ds1, gear)
    requires forall g :: g in gear ==> g.short <= MAX_SHORT
    requires Ascending(RandomsOf(gear)) && Elements(RandomsOf(gear)) == Randoms(ds1)
    ensures OneEntryEach(ds, ds1, gear)
  {
    ListIsBus(ds0, ds1, taken, free, handed, gear);
    assert NoneShared(ds) <==> NoneShared(ds0);
  }

  lemma RandomsAreSame(ds: seq<Device>, ds': seq<Device>, ds'': seq<Device>)
    ensures SameRandoms(ds, ds) && Listed(ds, [])
    ensures SameRandoms(ds, ds') && SameRandoms(ds', ds'') ==> SameRandoms(ds, ds'')
  {
  }

  lemma {:induction false} WithoutAbsent(s: seq<nat>, x: nat)
    ensures x !in s ==> Without(s, x) == s
  {
    if s != [] {
      WithoutAbsent(s[1..], x);
    }
  }

  lemma ModesOnly(w: World, s: BusState)
    ensures SameAddresses(s.devices, Step(w, s, Withdraw).devices)
    ensures SameAddresses(s.devices, Step(w, s, Terminate).devices)
  {
  }

  predicate SameAddress(s: BusState, s': BusState)
  {
    s'.high == s.high && s'.medium == s.medium && s'.low == s.low
  }

  /** The gear looks the same to the search. */
  ghost predicate SameSearchers(ds: seq<Device>, ds': seq<Device>)
  {
    |ds'| == |ds| && forall i :: 0 <= i < |ds| ==> ds'[i].random == ds[i].random && ds'[i].mode == ds[i].mode
  }

  lemma ReaddressedSearchers(ds: seq<Device>, a: nat, s: nat)
    ensures SameSearchers(ds, Readdress(ds, a, s))
  {
  }

  lemma SearchersParticipate(ds: seq<Device>, ds': seq<Device>, addr: int)
    requires SameSearchers(ds, ds') && SomeParticipant(ds, addr)
    ensures SomeParticipant(ds', addr)
  {
    var d :| d in ds && Participates(d, addr);
    var i :| 0 <= i < |ds| && ds[i] == d;
    assert ds'[i] in ds' && Participates(ds'[i], addr);
  }

  lemma SearchersKeepPass(ds0: seq<Device>, ds: seq<Device>, ds': seq<Device>, res: seq<Random>, a: Random)
    requires SameSearchers(ds, ds') && Pass(ds0, ds, res) && IsLowest(ds, a)
    ensures Pass(ds0, ds', res) && IsLowest(ds', a)
  {
    SearchersParticipate(ds, ds', a);
    if SomeParticipant(ds', a - 1) {
      SearchersParticipate(ds', ds, a - 1);
    }
  }

  ghost predicate SameRandoms(ds: seq<Device>, ds': seq<Device>)
  {
    |ds'| == |ds| && forall i :: 0 <= i < |ds| ==> ds'[i].random == ds[i].random
  }

  lemma SearchersKeepRandoms(ds: seq<Device>, ds': seq<Device>, ds'': seq<Device>)
    ensures SameSearchers(ds, ds') && SameAddresses(ds', ds'') ==> SameRandoms(ds, ds'')
  {
  }

  lemma PassKeepsRandoms(ds0: seq<Device>, ds: seq<Device>, ds': seq<Device>, res: seq<Random>)
    requires Pass(ds0, ds, res) && SameRandoms(ds, ds')
    ensures Randoms(ds') == Randoms(ds0)
  {
    forall d | d in ds0
      ensures d.random in Randoms(ds')
    {
      var i :| 0 <= i < |ds0| && ds0[i] == d;
      assert ds'[i] in ds';
    }
    forall d | d in ds'
      ensures d.random in Randoms(ds0)
    {
      var i :| 0 <= i < |ds'| && ds'[i] == d;
      assert ds0[i] in ds0;
    }
  }

  method EndPass(bus: Bus, ghost ds0: seq<Device>, ghost res: seq<Random>)
    modifies bus
    ensures SameSearch(old(bus.st), bus.st) && old(bus.st.tick) <= bus.st.tick
    ensures Obedient(bus.world) && Pass(ds0, old(bus.st.devices), res) ==> Randoms(bus.st.devices) == Randoms(ds0)
    ensures SameAddresses(old(bus.st.devices), bus.st.devices)
    ensures Obedient(bus.world) ==> AllDisabled(bus.st.devices)
  {
    hide AllDisabled;
    if Obedient(bus.world) { TerminateDisables(bus.world, bus.st); }
    if Obedient(bus.world) && Pass(ds0, bus.st.devices, res) {
      PassKeepsRandoms(ds0, bus.st.devices, Step(bus.world, bus.st, Terminate).devices, res);
    }
    ModesOnly(bus.world, bus.st);
    var _ := bus.Send(Terminate);
  }

  /** TERMINATE, INITIALISE and RANDOMISE, all to the whole bus: all gear that obeys draws and takes
      part in the search. */
  method RandomiseAll(bus: Bus)
    modifies bus
    ensures SameSearch(old(bus.st), bus.st) && bus.st.tick == old(bus.st.tick) + 3
    ensures Obedient(bus.world) ==> Pass(bus.st.devices, bus.st.devices, [])
    ensures Obedient(bus.world) ==>
      DrewTogether(bus.world, old(bus.st.tick) + 2, old(bus.st.devices), bus.st.devices, Everyone)
  {
    var _ := bus.Send(Terminate);
    var _ := bus.Send(Initialise(Everyone));
    var _ := bus.Send(Randomise);
  }
}
