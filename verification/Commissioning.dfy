/** The commissioning run (`Commissioning`): poll, withdrawal of known gear, search and allocation. */
module Commissioning {
  import opened Prelude
  import opened Sequences
  import opened SearchBus
  import opened SearchAddress
  import opened Finder
  import opened Enumeration
  import opened Allocation
  import opened Classification
  import opened Exactness
  import opened Polling
  import opened Rerolling
  import opened Vacancy

  const MAX_PASSES: nat := 3

  datatype Failure =
    | OutOfAddresses(random: Random)
    | NotConfirmed(short: nat, random: Random)
    | SearchStuck(above: Random)

  /** What becomes of gear found at a random address. */
  datatype Treatment = Leave | Keep(short: nat) | Assign | Reset | Trust

  function Treat(found: map<nat, Random>, random: Random, resp: Reply): Treatment
  {
    if resp == Silent then Leave
    else if resp == Garbled then Trust
    else if resp.v == MASK then (if random == UNSET_RANDOM then Leave else Assign)
    else if resp.v > MAX_SHORT then Reset
    else if resp.v !in found then (if random == UNSET_RANDOM then Leave else Keep(resp.v))
    else if random == UNSET_RANDOM then Reset
    else if found[resp.v] == random then Leave
    else Assign
  }

  /** The gear that has to draw new random addresses before the next pass: whoever shares the
      random address, has none, or was reset. */
  function ToRandomise(found: map<nat, Random>, random: Random, resp: Reply): set<Target>
  {
    if Treat(found, random, resp) in {Trust, Reset} then {Unaddressed}
    else if random == UNSET_RANDOM && resp.Value? then {if resp.v == MASK then Unaddressed else At(resp.v)}
    else {}
  }

  /** The first of the stored devices with this random address whose short address is free. */
  function StoredFree(stored: seq<DeviceAddress>, free: seq<nat>, random: Random): Option<nat>
  {
    if stored == [] then None
    else if stored[0].random == random && stored[0].short in free then Some(stored[0].short)
    else StoredFree(stored[1..], free, random)
  }

  /** The short address that a device without one is given: the stored one if it is free, else the
      first free one. */
  function Picked(stored: seq<DeviceAddress>, free: seq<nat>, random: Random): (r: Option<nat>)
    ensures r.None? <==> free == []
    ensures r.Some? ==> r.value in free
  {
    if free == [] then None
    else
      StoredFreeHolds(stored, free, random);
      if StoredFree(stored, free, random).Some? then StoredFree(stored, free, random) else Some(free[0])
  }

  lemma {:induction false} StoredFreeHolds(stored: seq<DeviceAddress>, free: seq<nat>, random: Random)
    ensures var r := StoredFree(stored, free, random);
            && (r.Some? ==> r.value in free && DeviceAddress(r.value, random) in stored)
            && (r.None? ==> forall s :: s in free ==> DeviceAddress(s, random) !in stored)
  {
    if stored != [] {
      StoredFreeHolds(stored[1..], free, random);
      assert forall d :: d in stored <==> d == stored[0] || d in stored[1..];
    }
  }

  /** Gear whose stored short address is free gets it back; any other gets the lowest free one. */
  lemma PickedKeepsStored(stored: seq<DeviceAddress>, free: seq<nat>, random: Random)
    requires Ascending(free) && free != []
    ensures var s := Picked(stored, free, random).value;
            if exists x :: x in free && DeviceAddress(x, random) in stored then DeviceAddress(s, random) in stored
            else forall x :: x in free ==> s <= x
  {
    StoredFreeHolds(stored, free, random);
  }

  /** What is free after a device was given an address. */
  function FreeAfter(stored: seq<DeviceAddress>, free: seq<nat>, random: Random): seq<nat>
  {
    if free == [] then [] else Without(free, Picked(stored, free, random).value)
  }

  /** Every address handed out was the one to be picked. */
  ghost predicate Chosen(stored: seq<DeviceAddress>, log: seq<Handout>)
  {
    forall k :: 0 <= k < |log| ==> Some(log[k].short) == Picked(stored, log[k].free, log[k].random)
  }

  /** What a found device is treated by and changes: the record, the free addresses, those recorded
      while free, and the gear. */
  datatype Record = Record(found: map<nat, Random>, available: seq<nat>, late: set<nat>, devices: seq<Device>)

  function Recorded(r: Record, short: nat, random: Random): Record
  {
    r.(found := r.found[short := random], late := if short in r.available then r.late + {short} else r.late)
  }

  /** The gear at `random` was given the address picked for it; it is recorded there if the write was
      confirmed. */
  ghost predicate AssignedTo(stored: seq<DeviceAddress>, random: Random, obedient: bool, r: Record, r': Record,
                             ok: bool)
  {
    var s := Picked(stored, r.available, random);
    && (ok ==> s.Some?)
    && r'.available == FreeAfter(stored, r.available, random) && r'.late == r.late
    && r'.found == (if ok then r.found[s.value := random] else r.found)
    && (if s.None? then r'.devices == r.devices
        else obedient ==> r'.devices == Allocation.Readdress(r.devices, random, s.value))
  }

  ghost predicate ResetAt(random: Random, obedient: bool, r: Record, r': Record)
  {
    && r'.found == r.found && r'.available == r.available && r'.late == r.late
    && (obedient ==> r'.devices == Allocation.Readdress(r.devices, random, MASK))
  }

  /** What each treatment does; `ok` unless an address could not be given. */
  ghost predicate Treated(treatment: Treatment, stored: seq<DeviceAddress>, random: Random, obedient: bool,
                          confirmed: set<nat>, r: Record, r': Record, ok: bool)
  {
    match treatment
    case Leave => ok && r' == r
    case Keep(short) => ok && r' == Recorded(r, short, random)
    case Assign => AssignedTo(stored, random, obedient, r, r', ok)
    case Reset => ok && ResetAt(random, obedient, r, r')
    case Trust =>
      ok && if random != UNSET_RANDOM && |confirmed| == 1
            then exists s :: confirmed == {s} && r' == Recorded(r, s, random)
            else ResetAt(random, obedient, r, r')
  }

  /**
   What an answer means for the gear at `random`, answer by answer.  Nobody there: nothing.  A collision:
   the device that configuration and poll agree on is recorded, or all of the gear loses its short
   address, and what then has none is to draw.  An impossible address, or one that is recorded while the
   random address is unset, is taken away.  Gear without a random address is to draw.  A valid address
   not recorded yet is kept; gear without one, or with one recorded for another, is given the address
   picked for it.
   */
  ghost predicate Verdict(stored: seq<DeviceAddress>, random: Random, resp: Reply, obedient: bool, confirmed: set<nat>,
                          r: Record, r': Record, res: Result<set<Target>, Failure>)
  {
    var valid := resp.Value? && resp.v <= 63;
    var recorded := valid && resp.v in r.found;
    var unset := random == UNSET_RANDOM;
    var removed := r'.found == r.found && r'.available == r.available && r'.late == r.late
                   && (obedient ==> r'.devices == Allocation.Readdress(r.devices, random, 255));
    && (resp == Silent ==> res == Ok({}) && r' == r)
    && (resp == Garbled ==>
          && res == Ok({Unaddressed})
          && (if !unset && |confirmed| == 1
              then forall s: nat :: confirmed == {s} ==>
                     r'.found == r.found[s := random] && r'.available == r.available && r'.devices == r.devices
              else removed))
    && (resp.Value? && resp.v > 63 && resp.v != 255 ==> res == Ok({Unaddressed}) && removed)
    && (recorded && unset ==> res == Ok({Unaddressed}) && removed)
    && (resp == Value(255) && unset ==> res == Ok({Unaddressed}) && r' == r)
    && (valid && !recorded && unset ==> res == Ok({At(resp.v)}) && r' == r)
    && (valid && !recorded && !unset ==>
          && res == Ok({})
          && r'.found == r.found[resp.v := random] && r'.available == r.available && r'.devices == r.devices)
    && (recorded && !unset && r.found[resp.v] == random ==> res == Ok({}) && r' == r)
    && ((resp == Value(255) || (recorded && r.found[resp.v] != random)) && !unset ==>
          var s := Picked(stored, r.available, random);
          if s.None? then res.Err? && r'.found == r.found && r'.devices == r.devices
          else
            && r'.found == (if res.Ok? then r.found[s.value := random] else r.found) && (res.Ok? ==> res == Ok({}))
            && r'.available == Without(r.available, s.value)
            && (obedient ==> r'.devices == Allocation.Readdress(r.devices, random, s.value)))
  }

  /** Only colliding answers are settled by what the configuration and the poll confirm. */
  lemma AnswerNeedsNoConfirmation(treatment: Treatment, stored: seq<DeviceAddress>, random: Random, obedient: bool,
                                  confirmed: set<nat>, r: Record, r': Record, ok: bool)
    requires treatment != Trust && Treated(treatment, stored, random, obedient, {}, r, r', ok)
    ensures Treated(treatment, stored, random, obedient, confirmed, r, r', ok)
  {
  }

  /** The treatment when no short address can be read. */
  lemma WithoutAnswer(stored: seq<DeviceAddress>, found: map<nat, Random>, random: Random, obedient: bool,
                      confirmed: set<nat>, r: Record)
    ensures Treated(Treat(found, random, Silent), stored, random, obedient, confirmed, r, r, true)
    ensures ToRandomise(found, random, Silent) == {}
    ensures Treat(found, random, Garbled) == Trust && ToRandomise(found, random, Garbled) == {Unaddressed}
    ensures forall v :: Treat(found, random, Value(v)) != Trust
  {
  }

  /** The treatment of each answer does what must follow it. */
  lemma TreatmentIsVerdict(stored: seq<DeviceAddress>, random: Random, resp: Reply, obedient: bool, confirmed: set<nat>,
                           r: Record, r': Record, res: Result<set<Target>, Failure>)
    requires Treated(Treat(r.found, random, resp), stored, random, obedient, confirmed, r, r', res.Ok?)
    requires res.Ok? ==> res.value == ToRandomise(r.found, random, resp)
    ensures Verdict(stored, random, resp, obedient, confirmed, r, r', res)
  {
    hide Without, Readdress, Picked, StoredFree;
  }

  lemma TreatedShrinks(treatment: Treatment, stored: seq<DeviceAddress>, random: Random, obedient: bool,
                       confirmed: set<nat>, r: Record, r': Record, ok: bool)
    requires Ascending(r.available) && Treated(treatment, stored, random, obedient, confirmed, r, r', ok)
    ensures forall s :: s in r'.available ==> s in r.available
  {
    if treatment == Assign && r.available != [] {
      WithoutHolds(r.available, Picked(stored, r.available, random).value);
    }
  }

  /** The gear at `random` will confirm that it has been programmed. */
  ghost predicate Confirms(w: World, ds: seq<Device>, random: nat)
  {
    ClearShorts(w) && Obedient(w) && exists d :: d in ds && Selected(d, random)
  }

  /** Nobody held an address when it was handed out, and no device recorded by then had it. */
  ghost predicate NothingInUse(log: seq<Handout>)
  {
    forall k :: 0 <= k < |log| ==> log[k].short !in log[k].recorded && log[k].short !in log[k].held
  }

  /** Writing `items[d.short] = d.random` into a dictionary given by its items. */
  function Put(items: seq<DeviceAddress>, d: DeviceAddress): seq<DeviceAddress>
  {
    if items == [] then [d]
    else if items[0].short == d.short then [d] + items[1..]
    else [items[0]] + Put(items[1..], d)
  }

  /** The dictionary that a list of devices makes, a later one with the same short address winning. */
  function StoredFrom(devices: seq<DeviceAddress>): seq<DeviceAddress>
  {
    if devices == [] then [] else Put(StoredFrom(devices[..|devices| - 1]), devices[|devices| - 1])
  }

  lemma {:induction false} PutNew(items: seq<DeviceAddress>, d: DeviceAddress)
    requires forall x :: x in items ==> x.short != d.short
    ensures Put(items, d) == items + [d]
  {
    if items != [] {
      PutNew(items[1..], d);
    }
  }

  /** A list in which no short address occurs twice is kept as it is. */
  lemma {:induction false} StoredAsGiven(devices: seq<DeviceAddress>)
    requires DistinctShorts(devices)
    ensures StoredFrom(devices) == devices
  {
    if devices != [] {
      StoredAsGiven(devices[..|devices| - 1]);
      PutNew(devices[..|devices| - 1], devices[|devices| - 1]);
    }
  }

  function ShortsOf(items: seq<DeviceAddress>): set<nat>
  {
    set d | d in items :: d.short
  }

  lemma {:induction false} PutKeepsDistinct(items: seq<DeviceAddress>, d: DeviceAddress)
    requires DistinctShorts(items)
    ensures DistinctShorts(Put(items, d)) && ShortsOf(Put(items, d)) == ShortsOf(items) + {d.short}
  {
    if items != [] {
      var head, tail := items[0], items[1..];
      assert ShortsOf(items) == {head.short} + ShortsOf(tail);
      assert head.short !in ShortsOf(tail);
      PutKeepsDistinct(tail, d);
      if head.short == d.short {
        assert ShortsOf([d] + tail) == {d.short} + ShortsOf(tail);
      } else {
        var rest := Put(tail, d);
        assert ShortsOf([head] + rest) == {head.short} + ShortsOf(rest);
        assert forall i :: 0 <= i < |rest| ==> rest[i] in rest && rest[i].short in ShortsOf(rest);
      }
    }
  }

  lemma FaithfulConfirms(w: World, ds: seq<Device>, random: nat)
    requires Faithful(w) && exists d :: d in ds && Selected(d, random)
    ensures Confirms(w, ds, random) && Obedient(w)
  {
  }

  class Commissioning {
    const bus: Bus
    const search: SearchAddressWriter
    const finder: BinarySearchAddressFinder
    var stored: seq<DeviceAddress>
    var found: map<nat, Random>
    var order: seq<nat>
    var available: seq<nat>
    var polled: map<nat, Random>
    ghost var present: set<nat>
    ghost var late: set<nat>
    ghost var log: seq<Handout>
    // Marked for RANDOMISE and not yet sent it, and the search passes made.
    ghost var outstanding: set<Target>
    ghost var passes: nat
    // The searches of the last pass.
    ghost var searches: seq<Search>

    /** What holds throughout a run on any bus; `log` explains every address programmed. */
    ghost predicate Valid()
      reads this`stored, this`order, this`found, this`polled, this`present, this`available, this`late, this`log,
        search, bus
    {
      && search.bus == bus && finder.selector == search && search.Valid()
      && DistinctShorts(stored)
      && NoDup(order) && (forall s :: s in order <==> s in found)
      && polled.Keys <= present
      && Safe(present, available, found.Keys, late, log)
      && Chosen(stored, log)
      && |log| == |bus.st.programmed|
      && forall k :: 0 <= k < |log| ==> log[k].short == bus.st.programmed[k]
    }

    ghost function Rec(): Record
      reads this, bus
    {
      Record(found, available, late, bus.st.devices)
    }

    /** No gear holds a free address, and none was recorded at one. */
    ghost predicate Kept()
      reads this`available, this`late, this`log, bus
    {
      Guarded(bus.st.devices, available, late, log)
    }

    constructor (bus: Bus, oldDevices: seq<DeviceAddress>)
      requires bus.st.programmed == []
      ensures Valid() && this.bus == bus && found == map[] && log == [] && outstanding == {} && fresh(search)
      ensures stored == StoredFrom(oldDevices)
    {
      this.bus := bus;
      var writer := new SearchAddressWriter(bus);
      search := writer;
      finder := new BinarySearchAddressFinder(writer);
      found, order, available, polled := map[], [], [], map[];
      present, late, log := {}, {}, [];
      outstanding, passes, searches := {}, 0, [];
      stored := [];
      new;
      for i := 0 to |oldDevices|
        invariant Valid() && found == map[] && log == [] && outstanding == {} && fresh(search)
        invariant stored == StoredFrom(oldDevices[..i])
      {
        PutKeepsDistinct(stored, oldDevices[i]);
        assert oldDevices[..i + 1][..i] == oldDevices[..i];
        stored := Put(stored, oldDevices[i]);
      }
      assert oldDevices[..|oldDevices|] == oldDevices;
    }

    method AddDevice(short: nat, random: Random)
      requires Valid()
      modifies this`found, this`order, this`late
      ensures Valid()
      ensures found == old(found)[short := random]
      ensures late == if short in available then old(late) + {short} else old(late)
      ensures order == if short in old(found) then old(order) else old(order) + [short]
    {
      SafeRecord(present, available, found.Keys, late, log, short);
      if short !in found {
        order := order + [short];
      }
      if short in available {
        late := late + {short};
      }
      found := found[short := random];
      assert found.Keys == old(found.Keys) + {short};
    }

    /** Takes the address picked for `random` off the free list. */
    method PickNewShortAddress(random: Random) returns (r: Option<nat>)
      requires Ascending(available)
      modifies this`available
      ensures r == Picked(stored, old(available), random)
      ensures available == if r.None? then [] else Without(old(available), r.value)
    {
      if available == [] {
        return None;
      }
      for i := 0 to |stored|
        invariant available == old(available)
        invariant StoredFree(stored, available, random) == StoredFree(stored[i..], available, random)
      {
        if stored[i].random == random && stored[i].short in available {
          available := Without(available, stored[i].short);
          return Some(stored[i].short);
        }
      }
      var first := available[0];
      available := available[1..];
      return Some(first);
    }

    /** Programs a new short address into the selected gear and has the gear confirm it. */
    method AssignShortAddress(random: Random, ghost ds0: seq<Device>, ghost done: set<Random>, ghost gone: set<Random>)
      returns (r: Result<nat, Failure>)
      requires Valid()
      modifies this`available, this`log, bus
      ensures Valid()
      ensures r.Ok? ==> Some(r.value) == Picked(stored, old(available), random)
      ensures r.Err? && r.error.NotConfirmed? ==>
        r.error.random == random && Some(r.error.short) == Picked(stored, old(available), random)
      ensures r.Err? && !r.error.NotConfirmed? ==> r.error == OutOfAddresses(random) && old(available) == []
      ensures available == FreeAfter(stored, old(available), random)
      ensures old(available) == [] ==> bus.st == old(bus.st)
      ensures Confirms(bus.world, old(bus.st.devices), old(bus.st).Search()) && old(available) != [] ==> r.Ok?
      ensures Obedient(bus.world) && old(available) != [] ==>
        var short := Picked(stored, old(available), random).value;
        bus.st.devices == Readdress(old(bus.st.devices), old(bus.st).Search(), short)
      ensures
        Faithful(bus.world) && Assignable(ds0, old(bus.st.devices), found, old(available), done, gone, random)
        && old(bus.st).Search() == random
        ==> r.Ok? && Exact(ds0, bus.st.devices, found[r.value := random], available, done + {random}, gone)
      ensures old(Kept()) ==> Kept()
      ensures old(bus.st.tick) <= bus.st.tick
      ensures r.Err? ==> !r.error.SearchStuck?
    {
      hide Exact, Assignable, Readdress, Faithful, Obedient, Confirms, Without, Chosen, Guarded, ShortsFrom;
      ghost var ds := bus.st.devices;
      ghost var due := Faithful(bus.world) && bus.st.Search() == random
        && Assignable(ds0, ds, found, available, done, gone, random);
      if due {
        AssignableHasFree(ds0, ds, found, available, done, gone, random);
        FaithfulConfirms(bus.world, ds, random);
      }
      var pick := PickNewShortAddress(random);
      if pick.None? {
        return Err(OutOfAddresses(random));
      }
      var short := pick.value;
      ghost var h := Handout(short, random, old(available), found.Keys, late, Shorts(ds));
      SafeHandOut(present, old(available), found.Keys, late, log, h);
      var ok := ProgramPicked(short, h);
      if due {
        ExactAssigns(ds0, ds, found, old(available), done, gone, random, short);
      }
      if Guarded(ds, old(available), late, old(log)) {
        GuardedHandOut(ds, bus.st.devices, old(available), late, old(log), h);
      }
      return if ok then Ok(short) else Err(NotConfirmed(short, random));
    }

    /** Programs `short`, which has just been taken off the free list, and logs it. */
    method ProgramPicked(short: nat, ghost h: Handout) returns (ok: bool)
      requires Valid() && short <= MAX_SHORT && h.short == short && Some(short) == Picked(stored, h.free, h.random)
      requires Safe(present, available, found.Keys, late, log + [h])
      modifies this`log, bus
      ensures Valid()
      ensures log == old(log) + [h]
      ensures ShortsFrom(old(bus.st.devices), bus.st.devices, {short})
      ensures Obedient(bus.world) ==> bus.st.devices == Readdress(old(bus.st.devices), old(bus.st).Search(), short)
      ensures Confirms(bus.world, old(bus.st.devices), old(bus.st).Search()) ==> ok
      ensures old(bus.st.tick) <= bus.st.tick
    {
      log := log + [h];
      ok := ProgramAndVerify(bus, short);
    }

    /** The short addresses that the configuration holds for `random` and the poll confirmed. */
    ghost function Confirmed(random: Random): set<nat>
      reads this
    {
      ConfirmedBy(stored, polled, random)
    }

    /** The one such address, if there is exactly one. */
    method PollConfirmedConfigShort(random: Random) returns (r: Option<nat>)
      requires DistinctShorts(stored)
      ensures r.Some? <==> random != UNSET_RANDOM && |Confirmed(random)| == 1
      ensures r.Some? ==> Confirmed(random) == {r.value} && r.value in polled
    {
      if random == UNSET_RANDOM {
        return None;
      }
      var matching: seq<nat> := [];
      for i := 0 to |stored|
        invariant NoDup(matching)
        invariant forall s: nat :: s in matching <==>
          exists k :: 0 <= k < i && stored[k].short == s && stored[k].random == random
                      && s in polled && polled[s] == random
      {
        if stored[i].random == random && stored[i].short in polled && polled[stored[i].short] == random {
          matching := matching + [stored[i].short];
        }
      }
      NoDupSize(matching);
      assert Elements(matching) == Confirmed(random);
      return if |matching| == 1 then Some(matching[0]) else None;
    }

    /** Programs and records.  The address given was recorded for another device, whose record is
        lost, exactly if it had been kept while it was free. */
    method AssignNew(random: Random, ghost ds0: seq<Device>, ghost done: set<Random>, ghost gone: set<Random>)
      returns (r: Result<nat, Failure>)
      requires Valid()
      modifies this`found, this`order, this`late, this`available, this`log, search, bus
      ensures Valid()
      ensures r.Ok? ==> Some(r.value) == Picked(stored, old(available), random)
      ensures AssignedTo(stored, random, Obedient(bus.world), old(Rec()), Rec(), r.Ok?)
      ensures Confirms(bus.world, old(bus.st.devices), random) && old(available) != [] ==> r.Ok?
      ensures var s := Picked(stored, old(available), random);
              s.Some? ==> (s.value in old(found) <==> s.value in old(late))
      ensures
        Faithful(bus.world) && Assignable(ds0, old(bus.st.devices), old(found), old(available), done, gone, random)
        ==> r.Ok? && Exact(ds0, bus.st.devices, found, available, done + {random}, gone)
      ensures old(Kept()) ==> Kept()
      ensures old(bus.st.tick) <= bus.st.tick
      ensures r.Err? ==> !r.error.SearchStuck?
    {
      hide Exact, Assignable, Faithful, Confirms, Readdress, Chosen, Guarded;
      ghost var free := available;
      search.SetSearchAddr(random);
      r := AssignShortAddress(random, ds0, done, gone);
      if free != [] {
        WithoutRemoves(free, Picked(stored, free, random).value);
      }
      if r.Ok? {
        AddDevice(r.value, random);
      }
    }

    /** Takes the short address away from the gear at `random`. */
    method ResetShort(random: Random)
      requires Valid()
      modifies search, bus
      ensures Valid()
      ensures Obedient(bus.world) ==> bus.st.devices == Readdress(old(bus.st.devices), random, MASK)
      ensures old(Kept()) ==> Kept()
      ensures old(bus.st.tick) <= bus.st.tick
    {
      search.SetSearchAddr(random);
      if Obedient(bus.world) {
        ProgramReaddresses(bus.world, bus.st, MASK);
      }
      ghost var ds := bus.st.devices;
      StepShorts(bus.world, bus.st, ProgramShort(MASK));
      var _ := bus.Send(ProgramShort(MASK));
      if NobodyAt(ds, available) {
        StillNobody(ds, bus.st.devices, available);
      }
    }

    /** Several devices share `random`: the one the configuration and the poll agree on keeps its
        short address; if there is none, all of them lose theirs. */
    method TrustConfigOrReset(random: Random)
      requires Valid()
      modifies this`found, this`order, this`late, search, bus
      ensures Valid()
      ensures Treated(Trust, stored, random, Obedient(bus.world), old(Confirmed(random)), old(Rec()), Rec(), true)
      ensures old(Kept()) ==> Kept()
      ensures old(bus.st.tick) <= bus.st.tick
    {
      var trusted := PollConfirmedConfigShort(random);
      if trusted.Some? {
        AddDevice(trusted.value, random);
      } else {
        ResetShort(random);
      }
    }

    /**
     Decides what becomes of the device found at `random` that answered `resp`; returns the short
     addresses whose holders are to be randomised.  On a faithful bus nobody is, and the device is
     recorded: at its own address if that is valid and not taken, else at a free one.
     */
    method ProcessFoundDevice(random: Random, resp: Reply,
                              ghost ds0: seq<Device>, ghost done: set<Random>, ghost gone: set<Random>)
      returns (r: Result<set<Target>, Failure>)
      requires Valid()
      modifies this`found, this`order, this`late, this`available, this`log, this`outstanding, search, bus
      ensures Valid()
      ensures
        Faithful(bus.world) && Trusts(stored, polled, ds0)
        && Exact(ds0, old(bus.st.devices), old(found), old(available), done, gone)
        && random !in done && Expected(ds0, random, resp)
        ==> r == Ok(Marks(ds0, {random})) && Exact(ds0, bus.st.devices, found, available, done + {random}, gone)
      ensures r.Ok? ==> r.value == ToRandomise(old(found), random, resp)
      ensures Treated(Treat(old(found), random, resp), stored, random, Obedient(bus.world),
                      old(Confirmed(random)), old(Rec()), Rec(), r.Ok?)
      ensures Confirms(bus.world, old(bus.st.devices), random) && old(available) != [] ==> r.Ok?
      ensures outstanding == old(outstanding) + ToRandomise(old(found), random, resp)
      ensures old(Kept()) && Taken(old(available), resp) ==> Kept()
      ensures old(bus.st.tick) <= bus.st.tick
      ensures r.Err? ==> !r.error.SearchStuck?
      ensures Verdict(stored, random, resp, Obedient(bus.world), old(Confirmed(random)), old(Rec()), Rec(), r)
    {
      hide Exact, Expected, Safe, Chosen, Faithful, Guarded, Confirms, Marks, Verdict, Treated, Treat, ToRandomise,
        Trusts, Readdress;
      ghost var before, confirmed := Rec(), Confirmed(random);
      r := TreatFound(random, resp, ds0, done, gone);
      TreatmentIsVerdict(stored, random, resp, Obedient(bus.world), confirmed, before, Rec(), r);
    }

    /** Takes the decision. */
    method TreatFound(random: Random, resp: Reply,
                      ghost ds0: seq<Device>, ghost done: set<Random>, ghost gone: set<Random>)
      returns (r: Result<set<Target>, Failure>)
      requires Valid()
      modifies this`found, this`order, this`late, this`available, this`log, this`outstanding, search, bus
      ensures Valid()
      ensures
        Faithful(bus.world) && Trusts(stored, polled, ds0)
        && Exact(ds0, old(bus.st.devices), old(found), old(available), done, gone)
        && random !in done && Expected(ds0, random, resp)
        ==> r == Ok(Marks(ds0, {random})) && Exact(ds0, bus.st.devices, found, available, done + {random}, gone)
      ensures r.Ok? ==> r.value == ToRandomise(old(found), random, resp)
      ensures Treated(Treat(old(found), random, resp), stored, random, Obedient(bus.world),
                      old(Confirmed(random)), old(Rec()), Rec(), r.Ok?)
      ensures Confirms(bus.world, old(bus.st.devices), random) && old(available) != [] ==> r.Ok?
      ensures outstanding == old(outstanding) + ToRandomise(old(found), random, resp)
      ensures old(Kept()) && Taken(old(available), resp) ==> Kept()
      ensures old(bus.st.tick) <= bus.st.tick
      ensures r.Err? ==> !r.error.SearchStuck?
    {
      hide Exact, Expected, Safe, Chosen, Faithful, Guarded, Confirms, Marks, Trusts, Readdress, Treated, Treat,
        ToRandomise;
      WithoutAnswer(stored, found, random, Obedient(bus.world), Confirmed(random), Rec());
      outstanding := outstanding + ToRandomise(found, random, resp);
      if resp == Silent {
        if Exact(ds0, bus.st.devices, found, available, done, gone) && random !in done
           && Expected(ds0, random, resp) {
          ExactCases(ds0, bus.st.devices, found, available, done, gone, random, resp);
        }
        return Ok({});
      }
      if resp == Garbled {
        r := ProcessCollision(random, ds0, done, gone);
        return;
      }
      ghost var treatment, confirmed, before := Treat(found, random, resp), Confirmed(random), Rec();
      r := ProcessAnswered(random, resp.v, ds0, done, gone);
      AnswerNeedsNoConfirmation(treatment, stored, random, Obedient(bus.world), confirmed, before, Rec(), r.Ok?);
    }

    /** `ProcessFoundDevice` for devices whose answers collide. */
    method ProcessCollision(random: Random, ghost ds0: seq<Device>, ghost done: set<Random>, ghost gone: set<Random>)
      returns (r: Result<set<Target>, Failure>)
      requires Valid()
      modifies this`found, this`order, this`late, search, bus
      ensures Valid()
      ensures r == Ok({Unaddressed})
      ensures
        Trusts(stored, polled, ds0) && Exact(ds0, old(bus.st.devices), old(found), available, done, gone)
        && random !in done && Expected(ds0, random, Garbled)
        ==> r == Ok(Marks(ds0, {random})) && Exact(ds0, bus.st.devices, found, available, done + {random}, gone)
      ensures Treated(Trust, stored, random, Obedient(bus.world), old(Confirmed(random)), old(Rec()), Rec(), true)
      ensures old(Kept()) ==> Kept()
      ensures old(bus.st.tick) <= bus.st.tick
    {
      hide Exact, Expected, Safe, Chosen, Guarded, Marks;
      if Exact(ds0, bus.st.devices, found, available, done, gone) && random !in done
         && Expected(ds0, random, Garbled) {
        ExactCases(ds0, bus.st.devices, found, available, done, gone, random, Garbled);
      }
      TrustConfigOrReset(random);
      return Ok({Unaddressed});
    }

    /** `ProcessFoundDevice` for a device that reported `short`. */
    method ProcessAnswered(random: Random, short: nat,
                           ghost ds0: seq<Device>, ghost done: set<Random>, ghost gone: set<Random>)
      returns (r: Result<set<Target>, Failure>)
      requires Valid()
      modifies this`found, this`order, this`late, this`available, this`log, search, bus
      ensures Valid()
      ensures
        Faithful(bus.world) && Exact(ds0, old(bus.st.devices), old(found), old(available), done, gone)
        && random !in done && Expected(ds0, random, Value(short))
        ==> r == Ok(Marks(ds0, {random})) && Exact(ds0, bus.st.devices, found, available, done + {random}, gone)
      ensures r.Ok? ==> r.value == ToRandomise(old(found), random, Value(short))
      ensures Treated(Treat(old(found), random, Value(short)), stored, random, Obedient(bus.world),
                      {}, old(Rec()), Rec(), r.Ok?)
      ensures Confirms(bus.world, old(bus.st.devices), random) && old(available) != [] ==> r.Ok?
      ensures old(Kept()) && short !in old(available) ==> Kept()
      ensures old(bus.st.tick) <= bus.st.tick
      ensures r.Err? ==> !r.error.SearchStuck?
    {
      hide Exact, Expected, Assignable, Safe, Chosen, Guarded, Faithful, Confirms, Marks;
      if Faithful(bus.world) && random !in done && Expected(ds0, random, Value(short))
        && Exact(ds0, bus.st.devices, found, available, done, gone) {
        ExactCases(ds0, bus.st.devices, found, available, done, gone, random, Value(short));
      }
      if short == MASK {
        r := ProcessUnaddressed(random, ds0, done, gone);
        return;
      }
      if short > MAX_SHORT {
        ResetShort(random);
        return Ok({Unaddressed});
      }
      if short in found {
        r := ProcessTaken(random, short, ds0, done, gone);
        return;
      }
      r := ProcessUntaken(random, short);
    }

    /** `ProcessFoundDevice` for a device without a short address. */
    method ProcessUnaddressed(random: Random, ghost ds0: seq<Device>, ghost done: set<Random>, ghost gone: set<Random>)
      returns (r: Result<set<Target>, Failure>)
      requires Valid()
      modifies this`found, this`order, this`late, this`available, this`log, search, bus
      ensures Valid()
      ensures
        Faithful(bus.world) && Assignable(ds0, old(bus.st.devices), old(found), old(available), done, gone, random)
        && random != UNSET_RANDOM
        ==> r == Ok({}) && Exact(ds0, bus.st.devices, found, available, done + {random}, gone)
      ensures r.Ok? ==> r.value == ToRandomise(old(found), random, Value(MASK))
      ensures Treated(if random == UNSET_RANDOM then Leave else Assign, stored, random, Obedient(bus.world),
                      {}, old(Rec()), Rec(), r.Ok?)
      ensures Confirms(bus.world, old(bus.st.devices), random) && old(available) != [] ==> r.Ok?
      ensures old(Kept()) ==> Kept()
      ensures old(bus.st.tick) <= bus.st.tick
      ensures r.Err? ==> !r.error.SearchStuck?
    {
      if random == UNSET_RANDOM {
        return Ok({Unaddressed});
      }
      var outcome := AssignNew(random, ds0, done, gone);
      return if outcome.Ok? then Ok({}) else Err(outcome.error);
    }

    /** `ProcessFoundDevice` for a device whose short address nobody recorded has. */
    method ProcessUntaken(random: Random, short: nat) returns (r: Result<set<Target>, Failure>)
      requires Valid() && short !in found && short <= MAX_SHORT
      modifies this`found, this`order, this`late
      ensures Valid()
      ensures r == Ok(ToRandomise(old(found), random, Value(short)))
      ensures Rec() == if random == UNSET_RANDOM then old(Rec()) else Recorded(old(Rec()), short, random)
      ensures old(Kept()) && short !in available ==> Kept()
    {
      if random == UNSET_RANDOM {
        return Ok({At(short)});
      }
      AddDevice(short, random);
      return Ok({});
    }

    /** `ProcessFoundDevice` for a device whose short address this run has already recorded. */
    method ProcessTaken(random: Random, short: nat,
                        ghost ds0: seq<Device>, ghost done: set<Random>, ghost gone: set<Random>)
      returns (r: Result<set<Target>, Failure>)
      requires Valid() && short in found && short <= MAX_SHORT
      modifies this`found, this`order, this`late, this`available, this`log, search, bus
      ensures Valid()
      ensures
        Faithful(bus.world) && Assignable(ds0, old(bus.st.devices), old(found), old(available), done, gone, random)
        && random != UNSET_RANDOM && old(found)[short] != random
        ==> r == Ok({}) && Exact(ds0, bus.st.devices, found, available, done + {random}, gone)
      ensures r.Ok? ==> r.value == ToRandomise(old(found), random, Value(short))
      ensures Treated(Treat(old(found), random, Value(short)), stored, random, Obedient(bus.world),
                      {}, old(Rec()), Rec(), r.Ok?)
      ensures Confirms(bus.world, old(bus.st.devices), random) && old(available) != [] ==> r.Ok?
      ensures old(Kept()) ==> Kept()
      ensures old(bus.st.tick) <= bus.st.tick
      ensures r.Err? ==> !r.error.SearchStuck?
    {
      search.SetSearchAddr(random);
      if random == UNSET_RANDOM {
        ResetShort(random);
        return Ok({Unaddressed});
      }
      if found[short] == random {
        return Ok({});
      }
      var outcome := AssignNew(random, ds0, done, gone);
      return if outcome.Ok? then Ok({}) else Err(outcome.error);
    }

    /** Queries the device the search has selected and makes it leave the search. */
    method QueryAndWithdraw(random: Random, ghost ds0: seq<Device>, ghost done: set<Random>) returns (resp: Reply)
      requires Valid() && bus.st.Search() == random
      modifies bus
      ensures Valid()
      ensures
        Faithful(bus.world) && Exact(ds0, old(bus.st.devices), found, available, done, done) && random !in done
        ==> Expected(ds0, random, resp) && Exact(ds0, bus.st.devices, found, available, done, done + {random})
      ensures ClearQueries(bus.world) && old(Kept()) ==> Kept() && Taken(available, resp)
      ensures ClearShorts(bus.world) ==> resp == Truth(old(bus.st.devices), random, QueryShort)
      ensures Obedient(bus.world) ==> bus.st.devices == WithdrawAt(old(bus.st.devices), random)
      ensures old(bus.st.tick) <= bus.st.tick
    {
      hide Exact, Safe, Chosen, Expected;
      ghost var exact := Faithful(bus.world) && Exact(ds0, bus.st.devices, found, available, done, done)
        && random !in done;
      if exact {
        AnswersAsAtStart(ds0, bus.st.devices, found, available, done, done, random);
      }
      resp := QuerySelected(bus);
      if exact {
        ExactWithdraws(bus.world, bus.st, ds0, found, available, done, done);
      }
      if NobodyAt(bus.st.devices, available) {
        ReportedIsTaken(bus.st.devices, bus.st.Search(), available);
        StepShorts(bus.world, bus.st, Withdraw);
        StillNobody(bus.st.devices, Step(bus.world, bus.st, Withdraw).devices, available);
      }
      if Obedient(bus.world) {
        WithdrawWithdraws(bus.world, bus.st);
      }
      var _ := bus.Send(Withdraw);
    }

    /** What the pass does with the device it has found. */
    method HandleFound(random: Random, ghost ds0: seq<Device>, ghost done: set<Random>)
      returns (r: Result<set<Target>, Failure>)
      requires Valid() && bus.st.Search() == random
      modifies this`found, this`order, this`late, this`available, this`log, this`outstanding, search, bus
      ensures Valid()
      ensures
        Faithful(bus.world) && Trusts(stored, polled, ds0)
        && Exact(ds0, old(bus.st.devices), old(found), old(available), done, done)
        && random !in done
        ==> r == Ok(Marks(ds0, {random}))
            && Exact(ds0, bus.st.devices, found, available, done + {random}, done + {random})
      ensures r.Ok? ==> outstanding == old(outstanding) + r.value
      ensures ClearQueries(bus.world) && old(Kept()) ==> Kept()
      ensures ClearShorts(bus.world) && Obedient(bus.world) ==>
        var resp := Truth(old(bus.st.devices), random, QueryShort);
        var before := old(Rec()).(devices := WithdrawAt(old(bus.st.devices), random));
        && Treated(Treat(old(found), random, resp), stored, random, true, old(Confirmed(random)), before, Rec(), r.Ok?)
        && (r.Ok? ==> r.value == ToRandomise(old(found), random, resp))
        && (Confirms(bus.world, before.devices, random) && before.available != [] ==> r.Ok?)
      ensures old(bus.st.tick) <= bus.st.tick
      ensures r.Err? ==> !r.error.SearchStuck?
    {
      var resp := QueryAndWithdraw(random, ds0, done);
      r := ProcessFoundDevice(random, resp, ds0, done, done + {random});
    }

    method FindNext(low: Random, ghost ds0: seq<Device>, ghost done: set<Random>) returns (r: Finding)
      requires Valid()
      modifies search, bus
      ensures Valid()
      ensures bus.st.devices == old(bus.st.devices) && old(bus.st.tick) <= bus.st.tick
      ensures r.Found? ==> low <= r.addr && bus.st.Search() == r.addr
      ensures
        Faithful(bus.world) && Exact(ds0, bus.st.devices, found, available, done, done) && RestAbove(ds0, done, low)
        ==>
        && (r.Nothing? ==> AllDone(ds0, done))
        && (r.Found? ==> r.addr !in done && RestAbove(ds0, done + {r.addr}, r.addr))
        && (r.Unconfirmed? ==> LosesBetween(bus.world, old(bus.st.tick), bus.st.tick))
      ensures Reliable(bus.world) ==>
        && (r.Nothing? <==> !SomeParticipant(bus.st.devices, MAX_RANDOM))
        && (r.Found? ==> IsLowest(bus.st.devices, r.addr))
      ensures Reliable(bus.world) && AllAtLeast(bus.st.devices, low) && r.Unconfirmed? ==>
        LosesBetween(bus.world, old(bus.st.tick), bus.st.tick)
      ensures old(Kept()) ==> Kept()
    {
      if Faithful(bus.world) && Exact(ds0, bus.st.devices, found, available, done, done) {
        RestParticipates(ds0, bus.st.devices, found, available, done);
      }
      r := finder.FindNextDevice(low);
    }

    /** How a run may fail on a bus that only loses COMPARE answers: the search gets stuck, which
        leaves every unique short address where it was and takes three searches in a row that lost
        answers. */
    ghost predicate Interrupted(f: Failure, ds0: seq<Device>)
      reads this, bus
    {
      f.SearchStuck? && KeepsUnique(ds0, bus.st.devices) && LostThrice(bus.world, searches)
    }

    /** The last pass got stuck exactly when three searches in a row were in vain, and at once. */
    ghost predicate StuckExactlyWhen(stuck: bool)
      reads this
    {
      && (stuck <==> InVain(searches) == 3)
      && forall n :: 0 <= n < |searches| ==> InVain(searches[..n]) < 3
    }

    /** One pass of the binary search: what it finds is processed as it is found. */
    method SearchPass(conflicts: set<Target>, ghost ds0: seq<Device>, ghost done0: set<Random>)
      returns (r: Result<set<Target>, Failure>, ghost done: set<Random>)
      requires Valid() && conflicts == outstanding
      modifies this`found, this`order, this`late, this`available, this`log, this`outstanding,
        this`searches, this`passes, search, bus
      ensures Valid()
      ensures
        Faithful(bus.world) && Trusts(stored, polled, ds0)
        && Exact(ds0, old(bus.st.devices), old(found), old(available), done0, done0)
        && conflicts == Marks(ds0, done0)
        ==>
        if r.Ok? then
          && r.value == Marks(ds0, done) && AllDone(ds0, done)
          && Exact(ds0, bus.st.devices, found, available, done, done)
          && (NoSpare(ds0) ==> r.value == {} && Addressed(ds0, bus.st.devices, found))
        else Interrupted(r.error, ds0)
      ensures passes == old(passes) + 1
      ensures r.Ok? ==> r.value == outstanding
      ensures ClearQueries(bus.world) && old(Kept()) ==> Kept()
      ensures StuckExactlyWhen(r.Err? && r.error.SearchStuck?) && InOrder(searches, old(bus.st.tick), bus.st.tick)
    {
      ghost var exact := conflicts == Marks(ds0, done0) && Faithful(bus.world) && Trusts(stored, polled, ds0)
        && Exact(ds0, bus.st.devices, found, available, done0, done0);
      passes := passes + 1;
      ghost var vain, last;
      r, done, vain, last := SearchLoop(conflicts, ds0, done0, exact, ClearQueries(bus.world) && Kept());
      TallyEnds(bus.world, searches, old(bus.st.tick), bus.st.tick, vain, last, exact);
      if exact {
        if r.Ok? && NoSpare(ds0) {
          MarksLeft(ds0, done);
          LedgerComplete(ds0, bus.st.devices, found, done);
        }
        ExactKeepsUnique(ds0, bus.st.devices, found, available, done, done);
      }
    }

    /** The loop of the pass; `done` are the random addresses processed by its end, and `vain` searches
        in a row were in vain then.  `exact` and `kept` say what is being relied on. */
    method SearchLoop(conflicts: set<Target>, ghost ds0: seq<Device>, ghost done0: set<Random>, ghost exact: bool,
                      ghost kept: bool)
      returns (r: Result<set<Target>, Failure>, ghost done: set<Random>, ghost vain: nat, ghost last: Option<Random>)
      requires Valid() && conflicts == outstanding && (kept ==> ClearQueries(bus.world) && Kept())
      requires exact ==>
        && Faithful(bus.world) && Trusts(stored, polled, ds0) && conflicts == Marks(ds0, done0)
        && Exact(ds0, bus.st.devices, found, available, done0, done0)
      modifies this`found, this`order, this`late, this`available, this`log, this`outstanding,
        this`searches, search, bus
      ensures Valid() && (kept ==> Kept())
      ensures exact ==>
        && Exact(ds0, bus.st.devices, found, available, done, done)
        && if r.Ok? then r.value == Marks(ds0, done) && AllDone(ds0, done) else r.error.SearchStuck?
      ensures r.Ok? ==> r.value == outstanding
      ensures Tally(bus.world, searches, old(bus.st.tick), bus.st.tick, vain, last, exact)
      ensures if r.Err? && r.error.SearchStuck? then vain == 3 else vain < 3
    {
      hide Exact, Tally, Trusts, Marks, ClearQueries, Faithful, RestAbove, Commissioning.Valid, Commissioning.Kept;
      ghost var w, t0 := bus.world, bus.st.tick;
      searches := [];
      TallyStarts(w, t0, exact);
      EverythingAbove(ds0, done0);
      done, vain, last := done0, 0, None;
      var marked := conflicts;
      var low: Random := 0;
      var lastFound: Option<Random> := None;
      var failed := 0;
      while low < MAX_RANDOM
        invariant Valid() && marked == outstanding && (kept ==> Kept())
        invariant failed < FAILED_SEARCHES_BEFORE_GIVING_UP && vain == failed && last == lastFound
        invariant Tally(w, searches, t0, bus.st.tick, vain, last, exact)
        invariant if last.Some? then low == last.value else low == 0
        invariant exact ==>
          && Exact(ds0, bus.st.devices, found, available, done, done) && RestAbove(ds0, done, low)
          && (last.Some? ==> last.value in done) && marked == Marks(ds0, done)
        decreases MAX_RANDOM - low, if last.None? then 1 else 0, FAILED_SEARCHES_BEFORE_GIVING_UP - failed
      {
        var next;
        ghost var search;
        next, search := NextFind(low, ds0, done, exact, kept);
        TallyMore(w, searches, search, t0, vain, last, exact);
        vain := if BringsNothing(next, last) then vain + 1 else 0;
        last := if next.Found? then Some(next.addr) else last;
        searches := searches + [search];
        if next.Nothing? {
          return Ok(marked), done, vain, last;
        }
        if next.Found? && lastFound != Some(next.addr) {
          failed := 0;
          lastFound := Some(next.addr);
        } else {
          failed := failed + 1;
          if failed >= FAILED_SEARCHES_BEFORE_GIVING_UP {
            return Err(SearchStuck(low)), done, vain, last;
          }
        }
        if next.Unconfirmed? {
          continue;
        }
        ghost var foundAt := bus.st.tick;
        var handled := TakeFind(next.addr, marked, ds0, done, exact, kept);
        TallyLater(w, searches, t0, foundAt, vain, last, exact, bus.st.tick);
        if handled.Err? {
          return handled, done, vain, last;
        }
        marked := handled.value;
        low := next.addr;
        done := done + {next.addr};
      }
      if exact { NothingAbove(ds0, done, low); }
      return Ok(marked), done, vain, last;
    }

    /** One search of the loop; `exact` and `kept` say what is being relied on. */
    method NextFind(low: Random, ghost ds0: seq<Device>, ghost done: set<Random>, ghost exact: bool, ghost kept: bool)
      returns (next: Finding, ghost search: Search)
      requires Valid() && (kept ==> Kept())
      requires exact ==>
        && Faithful(bus.world) && Exact(ds0, bus.st.devices, found, available, done, done) && RestAbove(ds0, done, low)
      modifies this.search, bus
      ensures Valid() && (kept ==> Kept())
      ensures search == Search(next, old(bus.st.tick), bus.st.tick) && search.from <= search.to
      ensures next.Found? ==> low <= next.addr && bus.st.Search() == next.addr
      ensures exact ==>
        && Exact(ds0, bus.st.devices, found, available, done, done)
        && (next.Nothing? ==> AllDone(ds0, done))
        && (next.Found? ==> next.addr !in done && RestAbove(ds0, done + {next.addr}, next.addr))
        && (next.Unconfirmed? ==> LosesBetween(bus.world, search.from, search.to))
    {
      hide Exact, RestAbove, AllDone, LosesBetween, Reliable, Safe, Chosen;
      ghost var from := bus.st.tick;
      next := FindNext(low, ds0, done);
      search := Search(next, from, bus.st.tick);
    }

    /** What the loop does with a find; returns all that is marked by then. */
    method TakeFind(random: Random, marked: set<Target>, ghost ds0: seq<Device>, ghost done: set<Random>,
                    ghost exact: bool, ghost kept: bool)
      returns (r: Result<set<Target>, Failure>)
      requires Valid() && bus.st.Search() == random && marked == outstanding
      requires kept ==> ClearQueries(bus.world) && Kept()
      requires exact ==>
        && Faithful(bus.world) && Trusts(stored, polled, ds0) && random !in done && marked == Marks(ds0, done)
        && Exact(ds0, bus.st.devices, found, available, done, done)
      modifies this`found, this`order, this`late, this`available, this`log, this`outstanding, search, bus
      ensures Valid() && (kept ==> Kept()) && old(bus.st.tick) <= bus.st.tick
      ensures if r.Ok? then r.value == outstanding else !r.error.SearchStuck?
      ensures exact ==>
        && r == Ok(Marks(ds0, done + {random}))
        && Exact(ds0, bus.st.devices, found, available, done + {random}, done + {random})
    {
      hide Exact, Safe, Chosen, Guarded, Trusts, Marks, Treated, Treat, ToRandomise, Truth, ClearShorts;
      var handled := HandleFound(random, ds0, done);
      MarksAdd(ds0, done, random);
      return if handled.Ok? then Ok(marked + handled.value) else handled;
    }

    /**
     Queries and withdraws gear by known random addresses, as one batch of commands.  The answers
     are picked out of the batch by the positions of their queries.
     */
    method QueryKnown(rands: seq<Random>, ghost ds0: seq<Device>) returns (resps: seq<Reply>)
      requires Valid()
      modifies search, bus
      ensures Valid()
      ensures |resps| == |rands|
      ensures
        Faithful(bus.world) && Exact(ds0, old(bus.st.devices), found, available, {}, {})
        ==>
        && Exact(ds0, bus.st.devices, found, available, {}, Elements(rands))
        && forall k :: 0 <= k < |rands| ==> Expected(ds0, rands[k], resps[k])
      ensures ClearQueries(bus.world) && old(Kept()) ==>
        Kept() && forall k :: 0 <= k < |rands| ==> Taken(available, resps[k])
    {
      ghost var current := search.current;
      BatchIsHeard(bus.world, bus.st, current, rands, ds0, found, available);
      resps := SendBatch(bus, search, rands);
    }

    /** `ProcessFoundDevice`, which never frees a short address. */
    method ProcessNext(random: Random, resp: Reply,
                       ghost ds0: seq<Device>, ghost done: set<Random>, ghost gone: set<Random>)
      returns (r: Result<set<Target>, Failure>)
      requires Valid()
      modifies this`found, this`order, this`late, this`available, this`log, this`outstanding, search, bus
      ensures Valid()
      ensures
        Faithful(bus.world) && Trusts(stored, polled, ds0)
        && Exact(ds0, old(bus.st.devices), old(found), old(available), done, gone)
        && random !in done && Expected(ds0, random, resp)
        ==> r == Ok(Marks(ds0, {random})) && Exact(ds0, bus.st.devices, found, available, done + {random}, gone)
      ensures r.Ok? ==> outstanding == old(outstanding) + r.value
      ensures forall s :: s in available ==> s in old(available)
      ensures old(Kept()) && Taken(old(available), resp) ==> Kept()
      ensures r.Err? ==> !r.error.SearchStuck?
    {
      ghost var treatment, confirmed := Treat(found, random, resp), Confirmed(random);
      ghost var before := Rec();
      r := ProcessFoundDevice(random, resp, ds0, done, gone);
      TreatedShrinks(treatment, stored, random, Obedient(bus.world), confirmed, before, Rec(), r.Ok?);
    }

    /** Processes the answers to the known random addresses, in order. */
    method ProcessKnown(rands: seq<Random>, resps: seq<Reply>, ghost ds0: seq<Device>)
      returns (r: Result<set<Target>, Failure>)
      requires Valid() && |resps| == |rands|
      modifies this`found, this`order, this`late, this`available, this`log, this`outstanding, search, bus
      ensures Valid()
      ensures
        Faithful(bus.world) && Trusts(stored, polled, ds0)
        && Exact(ds0, old(bus.st.devices), old(found), old(available), {}, Elements(rands))
        && NoDup(rands) && (forall k :: 0 <= k < |rands| ==> Expected(ds0, rands[k], resps[k]))
        ==> r == Ok(Marks(ds0, Elements(rands)))
            && Exact(ds0, bus.st.devices, found, available, Elements(rands), Elements(rands))
      ensures r.Ok? ==> outstanding == old(outstanding) + r.value
      ensures old(Kept()) && (forall k :: 0 <= k < |rands| ==> Taken(old(available), resps[k])) ==> Kept()
      ensures r.Err? ==> !r.error.SearchStuck?
    {
      hide Exact, Expected, Safe, Chosen, Guarded, Faithful, Trusts;
      ghost var kept, free := Kept() && (forall k :: 0 <= k < |rands| ==> Taken(available, resps[k])), available;
      ghost var exact := Faithful(bus.world) && Trusts(stored, polled, ds0) && NoDup(rands)
        && Exact(ds0, bus.st.devices, found, available, {}, Elements(rands))
        && (forall k :: 0 <= k < |rands| ==> Expected(ds0, rands[k], resps[k]));
      var conflicts: set<Target> := {};
      assert Elements(rands[..0]) == {};
      for i := 0 to |rands|
        invariant Valid() && outstanding == old(outstanding) + conflicts
        invariant forall s :: s in available ==> s in free
        invariant kept ==> Kept()
        invariant exact ==>
          && conflicts == Marks(ds0, Elements(rands[..i]))
          && Exact(ds0, bus.st.devices, found, available, Elements(rands[..i]), Elements(rands))
      {
        MarksAdd(ds0, Elements(rands[..i]), rands[i]);
        assert Elements(rands[..i + 1]) == Elements(rands[..i]) + {rands[i]};
        var handled := ProcessNext(rands[i], resps[i], ds0, Elements(rands[..i]), Elements(rands));
        if handled.Err? {
          return Err(handled.error);
        }
        conflicts := conflicts + handled.value;
      }
      assert rands[..|rands|] == rands;
      return Ok(conflicts);
    }

    /** Polls the bus and takes what answered out of the free addresses; all gear that hears
        INITIALISE then takes part in the search. */
    method Prepare() returns (known: seq<DeviceAddress>, ghost base: seq<Device>)
      requires Valid() && found == map[] && log == []
      modifies this`polled, this`available, this`present, bus
      ensures Valid()
      ensures Ascending(available) && forall s: nat :: s in available <==> s <= MAX_SHORT && s !in present
      ensures ClearQueries(bus.world) ==>
        forall s: nat :: s in present <==> s <= MAX_SHORT && s in Shorts(old(bus.st.devices))
      ensures ClearQueries(bus.world) && Obedient(bus.world) ==> PolledHolds(bus.st.devices, polled)
      ensures Faithful(bus.world) && Tidy(old(bus.st.devices)) ==>
        DistinctRandom(known) && Exact(old(bus.st.devices), bus.st.devices, found, available, {}, {})
      ensures Addressable(bus.world, stored, old(bus.st.devices)) ==>
        && DistinctRandom(known) && PolledTo(bus.world, old(bus.st.devices), base)
        && Exact(base, bus.st.devices, found, available, {}, {}) && Trusts(stored, polled, base)
      ensures ClearQueries(bus.world) ==> Kept()
      ensures Presence(bus.world, old(bus.st.devices), present)
      ensures forall s: nat :: s in polled ==> s in present
      ensures Obedient(bus.world) && present == {} ==>
        known == [] && SameAddresses(old(bus.st.devices), bus.st.devices) && Modes(bus.st.devices, {})
    {
      hide Exact, Chosen, Presence, Separable, NewDraws, Tidy, PolledTo, DistinctRandom, SameAddresses, Modes,
        PolledHolds, NobodyAt, DistinctShorts;
      ghost var ds0 := bus.st.devices;
      known := Poll();
      base := bus.st.devices;
      InitialiseAll(bus);
      if ClearQueries(bus.world) {
        StillNobody(base, bus.st.devices, available);
      }
      if ClearQueries(bus.world) && Obedient(bus.world) {
        HoldsStill(base, bus.st.devices, polled);
      }
      if Faithful(bus.world) {
        ExactStarts(bus.world, ds0, base, bus.st.devices, available);
      }
    }

    /** The poll: who is there, with which random address, and what is free. */
    method Poll() returns (known: seq<DeviceAddress>)
      requires Valid() && found == map[] && log == []
      modifies this`polled, this`available, this`present, bus
      ensures Valid()
      ensures Ascending(available) && forall s: nat :: s in available <==> s <= MAX_SHORT && s !in present
      ensures ClearQueries(bus.world) ==>
        forall s: nat :: s in present <==> s <= MAX_SHORT && s in Shorts(old(bus.st.devices))
      ensures ClearQueries(bus.world) && Obedient(bus.world) ==>
        PolledHolds(bus.st.devices, polled) && PolledAll(bus.st.devices, present, polled)
      ensures Faithful(bus.world) && Tidy(old(bus.st.devices)) ==>
        DistinctRandom(known) && bus.st.devices == old(bus.st.devices)
      ensures Addressable(bus.world, stored, old(bus.st.devices)) ==>
        && DistinctRandom(known) && PolledTo(bus.world, old(bus.st.devices), bus.st.devices)
        && Trusts(stored, polled, bus.st.devices)
      ensures ClearQueries(bus.world) ==> NobodyAt(bus.st.devices, available)
      ensures Presence(bus.world, old(bus.st.devices), present)
      ensures present == {} ==> known == [] && bus.st.devices == old(bus.st.devices)
    {
      ghost var ds0 := bus.st.devices;
      var shorts := PresentShorts(bus);
      known := ReadKnown(shorts);
      polled := DictOf(known);
      present := Elements(shorts);
      available := FreeAfterPoll(shorts);
      assert shorts != [] ==> shorts[0] in present;
      if ClearQueries(bus.world) {
        NobodyAfterPoll(ds0, bus.st.devices, present, available);
      }
      if ClearQueries(bus.world) && Obedient(bus.world) {
        ReadingsHold(bus.st.devices, known);
        AllReadingsHold(bus.st.devices, shorts, known);
      }
      if Addressable(bus.world, stored, ds0) {
        DictOfDistinct(known);
        VouchedIsTrusted(stored, known, polled, bus.st.devices);
      }
    }

    /** Reads the random addresses of the present gear, once more after re-rolling shared ones. */
    method ReadKnown(shorts: seq<nat>) returns (known: seq<DeviceAddress>)
      requires Ascending(shorts) && forall s :: s in shorts ==> s <= MAX_SHORT
      modifies bus
      ensures SameSearch(old(bus.st), bus.st)
      ensures forall a :: a in known ==> a.short in shorts
      ensures ClearQueries(bus.world) && Obedient(bus.world) ==> ReadFrom(bus.st.devices, known)
      ensures ClearQueries(bus.world) && Obedient(bus.world) ==>
        forall k :: 0 <= k < |shorts| ==> ReadAt(bus.st.devices, shorts[k], known)
      ensures Faithful(bus.world) && Tidy(old(bus.st.devices)) ==>
        DistinctRandom(known) && bus.st.devices == old(bus.st.devices)
      ensures
        Addressable(bus.world, stored, old(bus.st.devices))
        && (forall s: nat :: s in shorts <==> s <= MAX_SHORT && s in Shorts(old(bus.st.devices)))
        ==>
        && DistinctRandom(known) && DistinctShorts(known) && Vouched(bus.st.devices, stored, known)
        && PolledTo(bus.world, old(bus.st.devices), bus.st.devices) && Tidy(bus.st.devices)
      ensures ShortsFrom(old(bus.st.devices), bus.st.devices, {})
      ensures shorts == [] ==> known == [] && bus.st.devices == old(bus.st.devices)
    {
      hide Separable, NewDraws, DistinctRandoms, AllSet, Tidy, PolledTo, DrewAt, DistinctRandom, ClearQueries, Obedient,
        Reliable, ReadFrom, ReadAt, Backed, Vouched, DistinctShorts;
      var first := ReadRandoms(bus, shorts);
      assert first != [] ==> first[0] in first;
      ghost var ds := bus.st.devices;
      var kept, sent := RandomiseDuplicates(bus, first);
      if ClearQueries(bus.world) && Obedient(bus.world) {
        FirstReadings(bus.world, stored, ds, bus.st.devices, shorts, first, kept, sent);
      }
      known := kept;
      ghost var reread: seq<DeviceAddress> := [];
      if sent != [] {
        var again := ReadRandoms(bus, sent);
        reread := again;
        if ClearQueries(bus.world) && Obedient(bus.world) {
          BothReadings(bus.st.devices, first, kept, sent, again);
          StillVouched(bus.st.devices, stored, kept, again);
        }
        known := known + again;
      }
      if ClearQueries(bus.world) && Obedient(bus.world) {
        assert known == kept + reread;
        AllRead(bus.world, ds, bus.st.devices, shorts, first, kept, sent, reread);
      }
    }

    /** Up to three passes; between them the gear in conflict draws new random addresses. */
    method SearchPasses(conflicts: set<Target>, ghost ds0: seq<Device>, ghost done: set<Random>)
      returns (r: Option<Failure>)
      requires Valid() && conflicts == outstanding
      modifies this`found, this`order, this`late, this`available, this`log, this`outstanding,
        this`searches, this`passes, search, bus
      ensures Valid()
      ensures
        Faithful(bus.world) && Trusts(stored, polled, ds0)
        && Exact(ds0, old(bus.st.devices), old(found), old(available), done, done)
        && conflicts == Marks(ds0, done) && (NoSpare(ds0) || NewDraws(bus.world, ds0))
        ==> if r.None? then Addressed(ds0, bus.st.devices, found) else Interrupted(r.value, ds0)
      ensures passes <= old(passes) + 3
      ensures r.None? ==> outstanding == {} || passes == old(passes) + 3
      ensures ClearQueries(bus.world) && old(Kept()) ==> Kept()
      ensures r.Some? && r.value.SearchStuck? ==> StuckExactlyWhen(true) && InOrder(searches, 0, bus.st.tick)
    {
      hide Exact, Safe, Chosen, Guarded, Addressed, Marks, NewDraws, Renew, KeepsUnique, NoSpare, Trusts, LostThrice,
        Repolled, InVain, InOrder;
      var marked := conflicts;
      ghost var base, processed := ds0, done;
      ghost var exact := Faithful(bus.world) && Trusts(stored, polled, ds0) && conflicts == Marks(ds0, done)
        && Exact(ds0, bus.st.devices, found, available, done, done) && (NoSpare(ds0) || NewDraws(bus.world, ds0));
      SameIsRepolled(ds0);
      var counter := 0;
      while true
        invariant ClearQueries(bus.world) && old(Kept()) ==> Kept()
        invariant Valid() && counter < MAX_PASSES && marked == outstanding && passes == old(passes) + counter
        invariant exact ==>
          && Exact(base, bus.st.devices, found, available, processed, processed) && marked == Marks(base, processed)
          && Repolled(ds0, base) && Trusts(stored, polled, base)
          && (if counter == 0 then base == ds0 else counter == 1 && NoSpare(base))
        decreases MAX_PASSES - counter
      {
        counter := counter + 1;
        var pass;
        ghost var from := bus.st.tick;
        pass, processed := SearchPass(marked, base, processed);
        WiderInOrder(searches, from, bus.st.tick, 0, bus.st.tick);
        if exact { AddressedThrough(ds0, base, bus.st.devices, found); }
        if pass.Err? {
          return Some(pass.error);
        }
        marked := pass.value;
        if exact { MarksLeft(base, processed); }
        if marked == {} || counter >= MAX_PASSES {
          return None;
        }
        ghost var ds := bus.st.devices;
        RandomiseConflicts(marked);
        marked := {};
        if exact {
          base, processed := NextPass(ds0, ds, processed);
        }
      }
    }

    lemma SameIsRepolled(ds: seq<Device>)
      ensures Repolled(ds, ds)
    {
    }

    /** The account of the second pass. */
    lemma NextPass(ds0: seq<Device>, ds: seq<Device>, done: set<Random>)
      returns (base: seq<Device>, processed: set<Random>)
      requires Exact(ds0, ds, found, available, done, done) && AllDone(ds0, done) && NewDraws(bus.world, ds0)
      requires exists t: nat :: DrewTogether(bus.world, t, ds, bus.st.devices, Unaddressed)
      ensures Exact(base, bus.st.devices, found, available, processed, processed)
      ensures NoSpare(base) && Repolled(ds0, base) && Marks(base, processed) == {} && Trusts(stored, polled, base)
    {
      var t: nat :| DrewTogether(bus.world, t, ds, bus.st.devices, Unaddressed);
      Redraws(bus.world, t, ds0, ds, bus.st.devices, found, available, done);
      base, processed := Renew(ds0, bus.st.devices), TakenRandoms(ds0);
      ExactIsTidy(base, bus.st.devices, found, available, processed, processed);
      RenewedIsRepolled(ds0, base);
      NoDuplicates(base);
    }

    /** Exactly the gear in conflict draws new random addresses, and nobody's short address changes. */
    method RandomiseConflicts(conflicts: set<Target>)
      requires Valid()
      modifies this`outstanding, bus
      ensures Valid()
      ensures outstanding == old(outstanding) - conflicts
      ensures Obedient(bus.world) ==> TheseDrew(bus.world, old(bus.st.devices), bus.st.devices, conflicts)
      ensures old(Kept()) ==> Kept()
      ensures Obedient(bus.world) && conflicts == {Unaddressed} ==>
        exists t: nat :: DrewTogether(bus.world, t, old(bus.st.devices), bus.st.devices, Unaddressed)
    {
      hide Safe, Chosen, DrewTogether, NobodyAt, ShortsFrom;
      var left := conflicts;
      while left != {}
        invariant Valid() && left <= conflicts
        invariant outstanding == old(outstanding) - (conflicts - left)
        invariant old(Kept()) ==> Kept()
        invariant left == conflicts ==> bus.st.devices == old(bus.st.devices)
        invariant Obedient(bus.world) && conflicts == {Unaddressed} && left == {} ==>
          exists t: nat :: DrewTogether(bus.world, t, old(bus.st.devices), bus.st.devices, Unaddressed)
        invariant Obedient(bus.world) ==> TheseDrew(bus.world, old(bus.st.devices), bus.st.devices, conflicts - left)
      {
        var target :| target in left;
        ghost var before, ds := left, bus.st.devices;
        left := left - {target};
        assert conflicts == {Unaddressed} ==> target == Unaddressed && left == {};
        RandomiseOne(bus, target);
        if NobodyAt(ds, available) {
          StillNobody(ds, bus.st.devices, available);
        }
        outstanding := outstanding - {target};
        assert conflicts - left == conflicts - before + {target};
        if Obedient(bus.world) {
          DrawMore(bus.world, old(bus.st.devices), ds, bus.st.devices, conflicts - before, target);
        }
      }
      assert conflicts - {} == conflicts;
    }

    /**
     A whole run.  On any bus it ends, and every short address it programmed is explained by the
     log in `Valid`.  If answers to queries arrive as given, the poll was complete and nothing that
     was programmed was in use, whatever gear there is and whatever it obeys.  On an addressable
     bus it succeeds, unless the search gets stuck: the record is the bus, all random addresses are
     set and distinct, all short addresses are valid and distinct, and no device has lost either that
     had it alone.  It gets stuck exactly after three searches in a row in vain.
     */
    method SmartExtend() returns (r: Result<CommissioningResult, Failure>)
      requires Valid() && outstanding == {} && found == map[] && log == []
      modifies this`found, this`order, this`late, this`available, this`log, this`outstanding,
        this`searches, this`passes, this`polled, this`present, search, bus
      ensures Valid() && stored == old(stored)
      ensures r.Ok? ==> Classified(stored, FoundItems(), r.value)
      ensures Addressable(bus.world, stored, old(bus.st.devices)) ==>
        if r.Ok? then Addressed(old(bus.st.devices), bus.st.devices, found) && DistinctRandom(FoundItems())
        else Interrupted(r.error, old(bus.st.devices))
      ensures Addressable(bus.world, stored, old(bus.st.devices)) && r.Ok? ==>
        (Partitions(stored, FoundItems(), r.value) <==> DistinctRandom(stored))
      ensures r.Ok? ==> outstanding == {} || passes == old(passes) + 3
      ensures ClearQueries(bus.world) ==> NothingInUse(log)
      ensures r.Err? && r.error.SearchStuck? ==> StuckExactlyWhen(true) && InOrder(searches, 0, bus.st.tick)
      ensures Obedient(bus.world) ==> AllDisabled(bus.st.devices)
    {
      hide AllDisabled, Exact, Safe, Chosen, Addressed, Interrupted, Addressable, Partitions, Classified, NothingInUse,
        Guarded;
      var failure := PrepareAndRun();
      if failure.Some? {
        return Err(failure.value);
      }
      var result := Classify(stored, FoundItems());
      if DistinctRandom(FoundItems()) {
        PartitionOfDistinct(stored, FoundItems(), result);
      }
      return Ok(result);
    }

    /** Everything of a run that goes over the bus. */
    method PrepareAndRun() returns (failure: Option<Failure>)
      requires Valid() && outstanding == {} && found == map[] && log == []
      modifies this`found, this`order, this`late, this`available, this`log, this`outstanding,
        this`searches, this`passes, this`polled, this`present, search, bus
      ensures Valid()
      ensures Addressable(bus.world, stored, old(bus.st.devices)) ==>
        if failure.None? then Addressed(old(bus.st.devices), bus.st.devices, found) && DistinctRandom(FoundItems())
        else Interrupted(failure.value, old(bus.st.devices))
      ensures failure.None? ==> outstanding == {} || passes == old(passes) + 3
      ensures ClearQueries(bus.world) ==> NothingInUse(log)
      ensures failure.Some? && failure.value.SearchStuck? ==>
        StuckExactlyWhen(true) && InOrder(searches, 0, bus.st.tick)
      ensures Obedient(bus.world) ==> AllDisabled(bus.st.devices)
    {
      hide AllDisabled, Exact, Safe, Chosen, Presence, Addressed, KeepsUnique, Addressable, PolledTo, Ready,
        PolledHolds, Guarded;
      ghost var ds0 := bus.st.devices;
      var known, base := Prepare();
      failure := RunToEnd(known, base);
      if ClearQueries(bus.world) {
        NothingCollides(bus.st.devices, present, available, found.Keys, late, log);
      }
      if Addressable(bus.world, stored, ds0) {
        PolledToThen(bus.world, ds0, base, bus.st.devices, found);
      }
      if Addressable(bus.world, stored, ds0) && failure.None? {
        RecordedOnce(ds0, bus.st.devices, found, FoundItems());
      }
    }

    /** The run after the poll; TERMINATE ends it whatever happened. */
    method RunToEnd(known: seq<DeviceAddress>, ghost ds0: seq<Device>) returns (failure: Option<Failure>)
      requires Valid() && outstanding == {}
      modifies this`found, this`order, this`late, this`available, this`log, this`outstanding,
        this`searches, this`passes, search, bus
      ensures Valid()
      ensures
        Ready(bus.world, ds0) && Trusts(stored, polled, ds0) && DistinctRandom(known)
        && Exact(ds0, old(bus.st.devices), old(found), old(available), {}, {})
        ==> if failure.None? then Addressed(ds0, bus.st.devices, found) else Interrupted(failure.value, ds0)
      ensures failure.None? ==> outstanding == {} || passes == old(passes) + 3
      ensures ClearQueries(bus.world) && old(Kept()) ==> Kept()
      ensures failure.Some? && failure.value.SearchStuck? ==>
        StuckExactlyWhen(true) && InOrder(searches, 0, bus.st.tick)
      ensures Obedient(bus.world) ==> AllDisabled(bus.st.devices)
    {
      hide AllDisabled, Exact, Safe, Chosen, Addressed, KeepsUnique, SameAddresses, DistinctRandom, NewDraws, NoSpare,
        ClearQueries, Lossless, Reliable, ShortsFrom, Trusts, LostThrice, InVain, InOrder;
      failure := Run(known, ds0);
      ghost var ds := bus.st.devices;
      ghost var now := bus.st.tick;
      TerminateBus(bus);
      if InOrder(searches, 0, now) { WiderInOrder(searches, 0, now, 0, bus.st.tick); }
      if NobodyAt(ds, available) {
        StillNobody(ds, bus.st.devices, available);
      }
      if Obedient(bus.world) {
        AddressedIgnoresModes(ds, bus.st.devices, ds0, found);
      }
    }

    method Run(known: seq<DeviceAddress>, ghost ds0: seq<Device>) returns (r: Option<Failure>)
      requires Valid() && outstanding == {}
      modifies this`found, this`order, this`late, this`available, this`log, this`outstanding,
        this`searches, this`passes, search, bus
      ensures Valid()
      ensures
        Ready(bus.world, ds0) && Trusts(stored, polled, ds0) && DistinctRandom(known)
        && Exact(ds0, old(bus.st.devices), old(found), old(available), {}, {})
        ==> if r.None? then Addressed(ds0, bus.st.devices, found) else Interrupted(r.value, ds0)
      ensures r.None? ==> outstanding == {} || passes == old(passes) + 3
      ensures ClearQueries(bus.world) && old(Kept()) ==> Kept()
      ensures r.Some? && r.value.SearchStuck? ==> StuckExactlyWhen(true) && InOrder(searches, 0, bus.st.tick)
    {
      hide Exact, Safe, Chosen, Addressed, Interrupted;
      var all := AppendStored(known, stored);
      var rands := RandomsOf(all);
      var resps := QueryKnown(rands, ds0);
      var processed := ProcessKnown(rands, resps, ds0);
      if processed.Err? {
        return Some(processed.error);
      }
      r := SearchPasses(processed.value, ds0, Elements(rands));
    }

    /** The items of `found_devices`, in the order of their first entry. */
    function FoundItems(): (items: seq<DeviceAddress>)
      requires Valid()
      reads this, search, bus
      ensures DistinctShorts(items)
      ensures forall s: nat, r: Random :: DeviceAddress(s, r) in items <==> s in found && found[s] == r
    {
      var items := seq(|order|, i requires 0 <= i < |order| && order[i] in found reads this =>
                         DeviceAddress(order[i], found[order[i]]));
      assert forall s: nat :: s in order ==> exists i :: 0 <= i < |items| && order[i] == s && items[i].short == s;
      items
    }
  }

  /** What tells whether the selected gear has `short`: an answer to VERIFY SHORT ADDRESS, sent at time `t`,
      or else the short address that is read back. */
  ghost predicate HeardConfirmed(w: World, ds: seq<Device>, search: nat, t: nat, short: nat)
  {
    || w.hears(t, VerifyShort(short), Truth(ds, search, VerifyShort(short))) != Silent
    || Asked(w, Truth(ds, search, QueryShort), t + 1, 3) == Value(short)
  }

  /** PROGRAM SHORT ADDRESS, confirmed by VERIFY or else by reading the short address back. */
  method ProgramAndVerify(bus: Bus, short: nat) returns (ok: bool)
    requires short != MASK
    modifies bus
    ensures bus.st.high == old(bus.st.high) && bus.st.medium == old(bus.st.medium) && bus.st.low == old(bus.st.low)
    ensures bus.st.programmed == old(bus.st.programmed) + [short] && old(bus.st.tick) <= bus.st.tick
    ensures Obedient(bus.world) ==> bus.st.devices == Readdress(old(bus.st.devices), old(bus.st).Search(), short)
    ensures ok <==> HeardConfirmed(bus.world, bus.st.devices, bus.st.Search(), old(bus.st.tick) + 1, short)
    ensures Confirms(bus.world, old(bus.st.devices), old(bus.st).Search()) ==> ok
    ensures ShortsFrom(old(bus.st.devices), bus.st.devices, {short})
  {
    hide HeardConfirmed, ShortsFrom, Readdress, Truth;
    ghost var ds, a := bus.st.devices, bus.st.Search();
    if Obedient(bus.world) {
      ProgramReaddresses(bus.world, bus.st, short);
    }
    StepShorts(bus.world, bus.st, ProgramShort(short));
    var _ := bus.Send(ProgramShort(short));
    if Confirms(bus.world, ds, a) {
      ProgrammedIsHeard(bus.world, ds, a, bus.st.tick, short);
    }
    ok := ConfirmShort(bus, short);
  }

  lemma ProgrammedIsHeard(w: World, ds: seq<Device>, a: nat, t: nat, short: nat)
    requires Confirms(w, ds, a)
    ensures HeardConfirmed(w, Readdress(ds, a, short), a, t, short)
  {
    var d :| d in ds && Selected(d, a);
    var i: nat :| i < |ds| && ds[i] == d;
    ReaddressedAnswers(ds, a, short, i, a);
  }

  method ConfirmShort(bus: Bus, short: nat) returns (ok: bool)
    modifies bus
    ensures bus.st == old(bus.st).(tick := bus.st.tick) && old(bus.st.tick) <= bus.st.tick
    ensures ok <==> HeardConfirmed(bus.world, bus.st.devices, bus.st.Search(), old(bus.st.tick), short)
  {
    hide Truth;
    PassiveKeepsDevices(bus.world, bus.st, VerifyShort(short));
    var verified := bus.Send(VerifyShort(short));
    if verified != Silent {
      return true;
    }
    var back := QuerySelected(bus);
    return back == Value(short);
  }

  /** The commands for one known random address. */
  function Chunk(current: Parts, a: Random): seq<Frame>
  {
    Delta(current, a) + [QueryShort, Withdraw]
  }

  function After(current: Parts, rands: seq<Random>): Parts
  {
    if rands == [] then current else FromInt(rands[|rands| - 1])
  }

  /** The batch for several known random addresses, and where in it the query for the last one is. */
  function BatchOf(current: Parts, rands: seq<Random>): seq<Frame>
  {
    if rands == [] then []
    else var front, last := rands[..|rands| - 1], rands[|rands| - 1];
         BatchOf(current, front) + Chunk(After(current, front), last)
  }

  function LastQuery(current: Parts, rands: seq<Random>): (index: nat)
    requires rands != []
    ensures index < |BatchOf(current, rands)|
  {
    var front, last := rands[..|rands| - 1], rands[|rands| - 1];
    |BatchOf(current, front)| + |Delta(After(current, front), last)|
  }

  lemma {:induction false} BatchPrefix(current: Parts, rands: seq<Random>, k: nat)
    requires k < |rands|
    ensures LastQuery(current, rands[..k + 1]) < |BatchOf(current, rands)|
    decreases |rands|
  {
    if k + 1 == |rands| {
      assert rands[..k + 1] == rands;
    } else {
      var front := rands[..|rands| - 1];
      assert front[..k + 1] == rands[..k + 1];
      BatchPrefix(current, front, k);
    }
  }

  lemma {:induction false} BatchRuns(w: World, s0: BusState, current: Parts, rands: seq<Random>)
    requires Synced(current, s0)
    ensures var s := Run(w, s0, BatchOf(current, rands));
            Synced(After(current, rands), s) && s.programmed == s0.programmed
  {
    if rands != [] {
      var front, last := rands[..|rands| - 1], rands[|rands| - 1];
      BatchRuns(w, s0, current, front);
      RunConcat(w, s0, BatchOf(current, front), Chunk(After(current, front), last));
      ChunkRuns(w, Run(w, s0, BatchOf(current, front)), After(current, front), last);
    }
  }

  /** Sent to a faithful bus, the batch withdraws exactly the gear it names. */
  lemma {:induction false} BatchWithdraws(w: World, s0: BusState, current: Parts, rands: seq<Random>,
                                          ds0: seq<Device>, found: map<nat, Random>, available: seq<nat>)
    requires Faithful(w) && Synced(current, s0) && Exact(ds0, s0.devices, found, available, {}, {})
    ensures Exact(ds0, Run(w, s0, BatchOf(current, rands)).devices, found, available, {}, Elements(rands))
  {
    if rands != [] {
      var front, last := rands[..|rands| - 1], rands[|rands| - 1];
      BatchRuns(w, s0, current, front);
      BatchWithdraws(w, s0, current, front, ds0, found, available);
      RunConcat(w, s0, BatchOf(current, front), Chunk(After(current, front), last));
      ChunkExact(w, Run(w, s0, BatchOf(current, front)), After(current, front), last, ds0, found, available,
                 Elements(front));
      assert Elements(rands) == Elements(front) + {last};
    }
  }

  /** The answer at the place of the k-th query is the truth about the k-th random address. */
  lemma {:induction false} BatchAnswers(w: World, s0: BusState, current: Parts, rands: seq<Random>, k: nat,
                                        ds0: seq<Device>, found: map<nat, Random>, available: seq<nat>)
    requires Faithful(w) && Synced(current, s0) && Exact(ds0, s0.devices, found, available, {}, {})
    requires k < |rands|
    ensures LastQuery(current, rands[..k + 1]) < |BatchOf(current, rands)|
    ensures Expected(ds0, rands[k], Answers(w, s0, BatchOf(current, rands))[LastQuery(current, rands[..k + 1])])
    decreases |rands|
  {
    var front, last := rands[..|rands| - 1], rands[|rands| - 1];
    var s := Run(w, s0, BatchOf(current, front));
    BatchPrefix(current, rands, k);
    RunConcat(w, s0, BatchOf(current, front), Chunk(After(current, front), last));
    if k + 1 == |rands| {
      assert rands[..k + 1] == rands;
      BatchRuns(w, s0, current, front);
      BatchWithdraws(w, s0, current, front, ds0, found, available);
      ChunkRuns(w, s, After(current, front), last);
      AnswersAsAtStart(ds0, s.devices, found, available, {}, Elements(front), last);
    } else {
      assert front[..k + 1] == rands[..k + 1];
      BatchAnswers(w, s0, current, front, k, ds0, found, available);
    }
  }

  /** The answer to the k-th query of the batch. */
  function AnswerTo(w: World, s: BusState, current: Parts, rands: seq<Random>, k: nat): Reply
    requires k < |rands|
  {
    var index := LastQuery(current, rands[..k + 1]);
    if index < |BatchOf(current, rands)| then Answers(w, s, BatchOf(current, rands))[index] else Silent
  }

  /** What the batch does and hears. */
  lemma BatchIsHeard(w: World, s: BusState, current: Parts, rands: seq<Random>,
                     ds0: seq<Device>, found: map<nat, Random>, available: seq<nat>)
    requires Synced(current, s)
    ensures var s' := Run(w, s, BatchOf(current, rands));
            && Synced(After(current, rands), s') && s'.programmed == s.programmed
            && (Faithful(w) && Exact(ds0, s.devices, found, available, {}, {}) ==>
                  Exact(ds0, s'.devices, found, available, {}, Elements(rands)))
            && (ClearQueries(w) && NobodyAt(s.devices, available) ==> NobodyAt(s'.devices, available))
    ensures Faithful(w) && Exact(ds0, s.devices, found, available, {}, {}) ==>
      forall k :: 0 <= k < |rands| ==> Expected(ds0, rands[k], AnswerTo(w, s, current, rands, k))
    ensures ClearQueries(w) && NobodyAt(s.devices, available) ==>
      forall k :: 0 <= k < |rands| ==> Taken(available, AnswerTo(w, s, current, rands, k))
  {
    BatchRuns(w, s, current, rands);
    BatchSearches(current, rands);
    if Faithful(w) && Exact(ds0, s.devices, found, available, {}, {}) {
      BatchWithdraws(w, s, current, rands, ds0, found, available);
      forall k: nat | k < |rands|
        ensures Expected(ds0, rands[k], AnswerTo(w, s, current, rands, k))
      {
        BatchAnswers(w, s, current, rands, k, ds0, found, available);
      }
    }
    if ClearQueries(w) && NobodyAt(s.devices, available) {
      BatchHearsTaken(w, s, BatchOf(current, rands), available);
    }
  }

  lemma {:induction false} BatchSearches(current: Parts, rands: seq<Random>)
    ensures OnlySearches(BatchOf(current, rands))
  {
    if rands != [] {
      BatchSearches(current, rands[..|rands| - 1]);
    }
  }

  method BuildBatch(search: SearchAddressWriter, rands: seq<Random>) returns (cmds: seq<Frame>, indices: seq<nat>)
    modifies search
    ensures search.current == After(old(search.current), rands)
    ensures cmds == BatchOf(old(search.current), rands)
    ensures |indices| == |rands|
    ensures forall k :: 0 <= k < |rands| ==> indices[k] == LastQuery(old(search.current), rands[..k + 1])
  {
    cmds, indices := [], [];
    for i := 0 to |rands|
      invariant search.current == After(old(search.current), rands[..i])
      invariant cmds == BatchOf(old(search.current), rands[..i])
      invariant |indices| == i
      invariant forall k :: 0 <= k < i ==> indices[k] == LastQuery(old(search.current), rands[..k + 1])
    {
      assert rands[..i + 1][..i] == rands[..i];
      var parts := search.Commands(rands[i]);
      cmds := cmds + parts;
      indices := indices + [|cmds|];
      cmds := cmds + [QueryShort, Withdraw];
    }
    assert rands[..|rands|] == rands;
  }

  /** Sends the batch and picks the answers out of it by the positions of their queries. */
  method SendBatch(bus: Bus, search: SearchAddressWriter, rands: seq<Random>) returns (resps: seq<Reply>)
    modifies search, bus
    ensures search.current == After(old(search.current), rands)
    ensures bus.st == Run(bus.world, old(bus.st), BatchOf(old(search.current), rands))
    ensures |resps| == |rands|
    ensures forall k :: 0 <= k < |rands| ==> resps[k] == AnswerTo(bus.world, old(bus.st), old(search.current), rands, k)
  {
    var cmds, indices := BuildBatch(search, rands);
    forall k: nat | k < |rands|
      ensures indices[k] < |cmds|
    {
      BatchPrefix(old(search.current), rands, k);
    }
    var all := SendAll(bus, cmds);
    resps := seq(|rands|, k requires 0 <= k < |rands| && indices[k] < |all| => all[indices[k]]);
  }

  lemma ChunkRuns(w: World, s: BusState, current: Parts, a: Random)
    requires Synced(current, s)
    ensures var s' := Run(w, s, Chunk(current, a));
            && Synced(FromInt(a), s') && s'.programmed == s.programmed
            && |Answers(w, s, Chunk(current, a))| == |Delta(current, a)| + 2
    ensures exists s1: BusState :: s1.Search() == a && s1.devices == s.devices
              && Run(w, s, Chunk(current, a)).devices == Step(w, s1, Withdraw).devices
              && (ClearQueries(w) ==>
                    Answers(w, s, Chunk(current, a))[|Delta(current, a)|] == Truth(s.devices, a, QueryShort))
  {
    var d := Delta(current, a);
    var s1 := Run(w, s, d);
    DeltaSetsSearch(w, s, current, a);
    RunConcat(w, s, d, [QueryShort, Withdraw]);
    PassiveKeepsDevices(w, s1, QueryShort);
    var s2 := Step(w, s1, QueryShort);
    assert [QueryShort, Withdraw][1..] == [Withdraw] && [Withdraw][1..] == [];
    assert Run(w, s1, [QueryShort, Withdraw]) == Step(w, s2, Withdraw);
    assert s2.Search() == a && s2.devices == s.devices;
  }

  lemma ChunkExact(w: World, s: BusState, current: Parts, a: Random,
                   ds0: seq<Device>, found: map<nat, Random>, available: seq<nat>, gone: set<Random>)
    requires Faithful(w) && Synced(current, s) && Exact(ds0, s.devices, found, available, {}, gone)
    ensures Exact(ds0, Run(w, s, Chunk(current, a)).devices, found, available, {}, gone + {a})
  {
    ChunkRuns(w, s, current, a);
    var s1: BusState :| s1.Search() == a && s1.devices == s.devices
              && Run(w, s, Chunk(current, a)).devices == Step(w, s1, Withdraw).devices;
    ExactWithdraws(w, s1, ds0, found, available, {}, gone);
  }

  /** The gear that one of `targets` names and no other has drawn a random address; no short
      address has changed. */
  ghost predicate TheseDrew(w: World, ds: seq<Device>, ds': seq<Device>, targets: set<Target>)
  {
    |ds'| == |ds| && forall i :: 0 <= i < |ds| ==>
      && ds'[i].short == ds[i].short
      && if exists t :: t in targets && Joins(ds[i], t) then Drew(w, i, ds'[i].random)
         else ds'[i].random == ds[i].random
  }

  lemma DrawMore(w: World, ds: seq<Device>, ds1: seq<Device>, ds2: seq<Device>, targets: set<Target>, target: Target)
    requires TheseDrew(w, ds, ds1, targets) && TheseDrew(w, ds1, ds2, {target})
    ensures TheseDrew(w, ds, ds2, targets + {target})
  {
    forall i | 0 <= i < |ds|
      ensures if exists t :: t in targets + {target} && Joins(ds[i], t)
              then Drew(w, i, ds2[i].random) else ds2[i].random == ds[i].random
    {
      assert Joins(ds1[i], target) <==> Joins(ds[i], target);
      if Joins(ds[i], target) {
        assert target in {target} && target in targets + {target};
      }
    }
  }

  /** `RandomiseBy`, by what it does to random addresses. */
  method RandomiseOne(bus: Bus, target: Target)
    modifies bus
    ensures SameSearch(old(bus.st), bus.st)
    ensures Obedient(bus.world) ==> TheseDrew(bus.world, old(bus.st.devices), bus.st.devices, {target})
    ensures ShortsFrom(old(bus.st.devices), bus.st.devices, {})
    ensures Obedient(bus.world) ==>
      DrewTogether(bus.world, old(bus.st.tick) + 2, old(bus.st.devices), bus.st.devices, target)
  {
    RandomiseBy(bus, target);
    assert target in {target};
  }

  /** `dict(known)`. */
  function DictOf(known: seq<DeviceAddress>): (m: map<nat, Random>)
    ensures forall s: nat :: s in m <==> exists a :: a in known && a.short == s
    ensures forall s: nat :: s in m ==> DeviceAddress(s, m[s]) in known
  {
    if known == [] then map[]
    else
      var front, last := known[..|known| - 1], known[|known| - 1];
      assert known == front + [last];
      DictOf(front)[last.short := last.random]
  }

  lemma {:induction false} DictOfDistinct(known: seq<DeviceAddress>)
    requires DistinctShorts(known)
    ensures forall a :: a in known ==> a.short in DictOf(known) && DictOf(known)[a.short] == a.random
  {
    if known != [] {
      var front, last := known[..|known| - 1], known[|known| - 1];
      assert known == front + [last];
      DictOfDistinct(front);
      assert forall a :: a in front ==> a.short != last.short;
    }
  }

  lemma StillVouched(ds: seq<Device>, stored: seq<DeviceAddress>, kept: seq<DeviceAddress>, again: seq<DeviceAddress>)
    ensures Vouched(ds, stored, kept) ==> Vouched(ds, stored, kept + again)
  {
  }

  lemma NoDuplicates(ds: seq<Device>)
    requires NoSpare(ds)
    ensures forall stored, polled :: Trusts(stored, polled, ds)
    ensures forall done :: Marks(ds, done) == {}
  {
    forall a: Random, s: nat
      ensures !DuplicatedAt(ds, a, s)
    {
      if DuplicatedAt(ds, a, s) {
        var i: nat, j: nat :| Duplicates(ds, i, j) && ds[j].random == a && ds[j].short == s;
        assert Spare(ds, i);
      }
    }
  }

  /** The poll's readings are what gear on the bus holds. */
  ghost predicate PolledHolds(ds: seq<Device>, polled: map<nat, Random>)
  {
    forall s: nat :: s in polled ==> exists d :: d in ds && d.short == s && d.random == polled[s]
  }

  /** Gear that answered the poll is known wherever it agrees on one random address. */
  ghost predicate PolledAll(ds: seq<Device>, present: set<nat>, polled: map<nat, Random>)
  {
    forall d :: d in ds && d.short in present && Agreed(ds, d.short, d) ==>
      d.short in polled && polled[d.short] == d.random
  }

  lemma AllReadingsHold(ds: seq<Device>, shorts: seq<nat>, known: seq<DeviceAddress>)
    requires ReadFrom(ds, known)
    requires forall k :: 0 <= k < |shorts| ==> ReadAt(ds, shorts[k], known)
    ensures PolledAll(ds, Elements(shorts), DictOf(known))
  {
    forall d | d in ds && d.short in Elements(shorts) && Agreed(ds, d.short, d)
      ensures d.short in DictOf(known) && DictOf(known)[d.short] == d.random
    {
      var k :| 0 <= k < |shorts| && shorts[k] == d.short;
      assert ReadAt(ds, shorts[k], known);
      assert ReadOf(ds, DeviceAddress(d.short, DictOf(known)[d.short]));
    }
  }

  lemma ReadingsHold(ds: seq<Device>, known: seq<DeviceAddress>)
    requires ReadFrom(ds, known)
    ensures PolledHolds(ds, DictOf(known))
  {
    forall s: nat | s in DictOf(known)
      ensures exists d :: d in ds && d.short == s && d.random == DictOf(known)[s]
    {
      assert ReadOf(ds, DeviceAddress(s, DictOf(known)[s]));
    }
  }

  lemma HoldsStill(ds: seq<Device>, ds': seq<Device>, polled: map<nat, Random>)
    requires PolledHolds(ds, polled) && SameAddresses(ds, ds')
    ensures PolledHolds(ds', polled)
  {
    forall s: nat | s in polled
      ensures exists d :: d in ds' && d.short == s && d.random == polled[s]
    {
      var d :| d in ds && d.short == s && d.random == polled[s];
      var i :| 0 <= i < |ds| && ds[i] == d;
      assert ds'[i] in ds';
    }
  }

  /** TERMINATE, then INITIALISE for all gear. */
  method InitialiseAll(bus: Bus)
    modifies bus
    ensures SameSearch(old(bus.st), bus.st)
    ensures Obedient(bus.world) ==> SameAddresses(old(bus.st.devices), bus.st.devices) && Modes(bus.st.devices, {})
    ensures ShortsFrom(old(bus.st.devices), bus.st.devices, {})
  {
    StepShorts(bus.world, bus.st, Terminate);
    var _ := bus.Send(Terminate);
    StepShorts(bus.world, bus.st, Initialise(Everyone));
    var _ := bus.Send(Initialise(Everyone));
  }

  method TerminateBus(bus: Bus)
    modifies bus
    ensures SameSearch(old(bus.st), bus.st)
    ensures Obedient(bus.world) ==> SameAddresses(old(bus.st.devices), bus.st.devices)
    ensures ShortsFrom(old(bus.st.devices), bus.st.devices, {}) && old(bus.st.tick) <= bus.st.tick
    ensures Obedient(bus.world) ==> AllDisabled(bus.st.devices)
  {
    StepShorts(bus.world, bus.st, Terminate);
    if Obedient(bus.world) { TerminateDisables(bus.world, bus.st); }
    var _ := bus.Send(Terminate);
  }

  /** The account of a run begins with the bus that the poll leaves. */
  lemma ExactStarts(w: World, ds0: seq<Device>, base: seq<Device>, ds: seq<Device>, available: seq<nat>)
    requires SameAddresses(base, ds) && Modes(ds, {}) && Ascending(available)
    requires forall s: nat :: s in available <==> s <= MAX_SHORT && s !in Shorts(ds0)
    ensures (Tidy(ds0) && base == ds0) || PolledTo(w, ds0, base) ==> Exact(base, ds, map[], available, {}, {})
  {
    if (Tidy(ds0) && base == ds0) || PolledTo(w, ds0, base) {
      SameShorts(ds0, base);
      LedgerStarts(base, ds);
    }
  }

  lemma AddressedIgnoresModes(ds: seq<Device>, ds': seq<Device>, ds0: seq<Device>, found: map<nat, Random>)
    requires SameAddresses(ds, ds')
    ensures KeepsUnique(ds0, ds) ==> KeepsUnique(ds0, ds')
    ensures Addressed(ds0, ds, found) ==> Addressed(ds0, ds', found)
  {
    if Addressed(ds0, ds, found) {
      forall s | s in found
        ensures exists i :: 0 <= i < |ds'| && ds'[i].short == s
      {
        var i :| 0 <= i < |ds| && ds[i].short == s;
        assert ds'[i].short == s;
      }
    }
  }

  lemma RecordedHolder(ds0: seq<Device>, ds: seq<Device>, found: map<nat, Random>, s: nat) returns (p: nat)
    requires Addressed(ds0, ds, found) && s in found
    ensures p < |ds| && ds[p].short == s && ds[p].random == found[s]
  {
    p :| p < |ds| && ds[p].short == s;
  }

  /** Once the bus is addressed the record holds each random address once, so the comparison with
      the stored devices is a partition. */
  lemma RecordedOnce(ds0: seq<Device>, ds: seq<Device>, found: map<nat, Random>, items: seq<DeviceAddress>)
    requires Addressed(ds0, ds, found) && DistinctShorts(items)
    requires forall d :: d in items ==> d.short in found && found[d.short] == d.random
    ensures DistinctRandom(items)
  {
    forall i, j | 0 <= i < j < |items|
      ensures items[i].random != items[j].random
    {
      OnceEach(ds0, ds, found, items[i], items[j]);
    }
  }

  lemma OnceEach(ds0: seq<Device>, ds: seq<Device>, found: map<nat, Random>, a: DeviceAddress, b: DeviceAddress)
    requires Addressed(ds0, ds, found) && a.short != b.short
    requires a.short in found && found[a.short] == a.random && b.short in found && found[b.short] == b.random
    ensures a.random != b.random
  {
    var p := RecordedHolder(ds0, ds, found, a.short);
    var q := RecordedHolder(ds0, ds, found, b.short);
  }
}
