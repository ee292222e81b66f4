/** The opening of a commissioning run: who answers at which short address, with which random
    address, and the re-rolling of those that share one. */
module Polling {
  import opened Prelude
  import opened Sequences
  import opened SearchBus
  import opened SearchAddress
  import opened Enumeration
  import opened Allocation
  import opened Classification
  import opened Vacancy

  lemma PresentTruth(ds: seq<Device>, search: nat, s: nat)
    ensures Truth(ds, search, QueryPresent(s)) != Silent <==> s in Shorts(ds)
  {
    MergeSilent(ds, (d: Device) => d.short == s, (d: Device) => 1);
  }

  /** Whether QUERY CONTROL GEAR PRESENT is heard at `s` as it is answered, or never heard. */
  ghost predicate HeardAt(w: World, s: nat)
  {
    forall t: nat, r :: w.hears(t, QueryPresent(s), r) == r
  }

  ghost predicate LostAt(w: World, s: nat)
  {
    forall t: nat, r :: w.hears(t, QueryPresent(s), r) == Silent
  }

  /** What a poll may be relied on for, address by address. */
  ghost predicate Presence(w: World, ds: seq<Device>, shorts: set<nat>)
  {
    && (forall s :: s in shorts ==> s <= MAX_SHORT)
    && forall s: nat :: s <= MAX_SHORT ==>
         (HeardAt(w, s) ==> (s in shorts <==> s in Shorts(ds))) && (LostAt(w, s) ==> s !in shorts)
  }

  /** The short addresses that answer, ascending; all that are on the bus if no answer is lost. */
  method PresentShorts(bus: Bus) returns (shorts: seq<nat>)
    modifies bus
    ensures SameSearch(old(bus.st), bus.st) && bus.st.devices == old(bus.st.devices)
    ensures Ascending(shorts) && forall s :: s in shorts ==> s <= MAX_SHORT
    ensures Presence(bus.world, bus.st.devices, Elements(shorts))
    ensures ClearQueries(bus.world) ==> forall s: nat :: s in shorts <==> s <= 63 && s in Shorts(bus.st.devices)
  {
    shorts := [];
    for i := 0 to MAX_SHORT + 1
      invariant SameSearch(old(bus.st), bus.st) && bus.st.devices == old(bus.st.devices)
      invariant Ascending(shorts) && forall s :: s in shorts ==> s < i
      invariant forall s: nat :: s < i ==>
        (HeardAt(bus.world, s) ==> (s in shorts <==> s in Shorts(bus.st.devices)))
        && (LostAt(bus.world, s) ==> s !in shorts)
    {
      PresentTruth(bus.st.devices, bus.st.Search(), i);
      PassiveKeepsDevices(bus.world, bus.st, QueryPresent(i));
      var r := bus.Send(QueryPresent(i));
      if r != Silent {
        assert forall k :: 0 <= k < |shorts| ==> shorts[k] in shorts;
        shorts := shorts + [i];
      }
    }
  }

  /** There is gear at this short address, and all of it has this random address. */
  ghost predicate ReadOf(ds: seq<Device>, a: DeviceAddress)
  {
    exists d :: d in ds && Agreed(ds, a.short, d) && d.random == a.random
  }

  ghost predicate ReadFrom(ds: seq<Device>, known: seq<DeviceAddress>)
  {
    forall a :: a in known ==> ReadOf(ds, a)
  }

  /** If the gear at `short` agrees on a random address, `known` has it. */
  ghost predicate ReadAt(ds: seq<Device>, short: nat, known: seq<DeviceAddress>)
  {
    forall d :: d in ds && Agreed(ds, short, d) ==> DeviceAddress(short, d.random) in known
  }

  ghost predicate Agreed(ds: seq<Device>, short: nat, d: Device)
  {
    d.short == short && forall e :: e in ds && e.short == short ==> e.random == d.random
  }

  const MAX_COMMAND_RETRIES: nat := 3

  /** What is known of the three bytes at `short`: no more than the truth, and after an attempt all of
      it that can be read. */
  ghost predicate BytesRead(ds: seq<Device>, search: nat, short: nat, bytes: seq<Option<nat>>, attempts: nat)
  {
    |bytes| == 3 && forall p :: 0 <= p < 3 ==>
      var truth := Truth(ds, search, QueryRandom(short, p));
      && (bytes[p].Some? ==> truth == Value(bytes[p].value))
      && (attempts > 0 && truth.Value? ==> bytes[p].Some?)
  }

  /** Three bytes make up the random address of a device exactly when each is its byte. */
  lemma BytesMakeRandom(random: Random, h: nat, m: nat, l: nat)
    requires h < 0x100 && m < 0x100 && l < 0x100
    ensures h * 0x10000 + m * 0x100 + l <= MAX_RANDOM
    ensures (ByteOf(random, 0) == h && ByteOf(random, 1) == m && ByteOf(random, 2) == l)
            <==> random == h * 0x10000 + m * 0x100 + l
  {
    RandomIsBytes(random);
    BytesDecide(ByteOf(random, 0), ByteOf(random, 1), ByteOf(random, 2), h, m, l);
  }

  lemma RandomIsBytes(random: Random)
    ensures random == ByteOf(random, 0) * 0x10000 + ByteOf(random, 1) * 0x100 + ByteOf(random, 2)
  {
  }

  lemma BytesAreBytes(ds: seq<Device>, search: nat, short: nat, p: nat)
    ensures var truth := Truth(ds, search, QueryRandom(short, p)); truth.Value? ==> truth.v < 0x100
  {
    MergeHasSource(ds, (d: Device) => d.short == short, (d: Device) => ByteOf(d.random, p));
  }

  /** If all three bytes are read, all the gear at `short` holds the random address they make up, and
      there is some; if the gear agrees on one, all three can be read. */
  lemma BytesAgree(ds: seq<Device>, search: nat, short: nat, h: nat, m: nat, l: nat)
    requires Truth(ds, search, QueryRandom(short, 0)) == Value(h)
    requires Truth(ds, search, QueryRandom(short, 1)) == Value(m)
    requires Truth(ds, search, QueryRandom(short, 2)) == Value(l)
    ensures h < 0x100 && m < 0x100 && l < 0x100
    ensures exists d :: d in ds && Agreed(ds, short, d) && d.random == h * 0x10000 + m * 0x100 + l
  {
    var at := (d: Device) => d.short == short;
    BytesAreBytes(ds, search, short, 0);
    BytesAreBytes(ds, search, short, 1);
    BytesAreBytes(ds, search, short, 2);
    MergeAllAgree(ds, at, (d: Device) => ByteOf(d.random, 0), h);
    MergeAllAgree(ds, at, (d: Device) => ByteOf(d.random, 1), m);
    MergeAllAgree(ds, at, (d: Device) => ByteOf(d.random, 2), l);
    MergeHasSource(ds, at, (d: Device) => ByteOf(d.random, 0));
    var d :| d in ds && d.short == short;
    forall e | e in ds && e.short == short
      ensures e.random == h * 0x10000 + m * 0x100 + l
    {
      BytesMakeRandom(e.random, h, m, l);
    }
  }

  lemma AgreedIsRead(ds: seq<Device>, search: nat, short: nat, d: Device, p: nat)
    requires d in ds && Agreed(ds, short, d)
    ensures Truth(ds, search, QueryRandom(short, p)) == Value(ByteOf(d.random, p))
  {
    MergeOne(ds, (e: Device) => e.short == short, (e: Device) => ByteOf(e.random, p), d);
  }

  predicate IsByte(r: Reply)
  {
    r.Value? && r.v < 0x100
  }

  /** At each of the times in `missed`, one after the other before `now`, no byte was heard in answer to the
      query for part `p`. */
  ghost predicate Missed(w: World, ds: seq<Device>, search: nat, short: nat, p: nat, missed: seq<nat>, now: nat)
  {
    && (forall k :: 0 <= k < |missed| ==>
          && missed[k] < now
          && !IsByte(w.hears(missed[k], QueryRandom(short, p), Truth(ds, search, QueryRandom(short, p)))))
    && (forall j, k :: 0 <= j < k < |missed| ==> missed[j] < missed[k])
  }

  lemma MissedOnce(w: World, ds: seq<Device>, search: nat, short: nat, p: nat, missed: seq<nat>, t: nat)
    requires Missed(w, ds, search, short, p, missed, t)
    requires !IsByte(w.hears(t, QueryRandom(short, p), Truth(ds, search, QueryRandom(short, p))))
    ensures Missed(w, ds, search, short, p, missed + [t], t + 1)
  {
  }

  /** Asks for the high, medium and low byte, and again for those that fail: a byte that is not read was
      asked for in vain three times. */
  method QueryBytes(bus: Bus, short: nat) returns (bytes: seq<Option<nat>>, ghost missed: seq<seq<nat>>)
    modifies bus
    ensures SameSearch(old(bus.st), bus.st) && bus.st.devices == old(bus.st.devices)
    ensures |bytes| == 3 && forall p :: 0 <= p < 3 && bytes[p].Some? ==> bytes[p].value < 0x100
    ensures ClearQueries(bus.world) ==> BytesRead(bus.st.devices, bus.st.Search(), short, bytes, 1)
    ensures |missed| == 3 && forall p :: 0 <= p < 3 && bytes[p].None? ==>
      |missed[p]| == 3
      && Missed(bus.world, bus.st.devices, bus.st.Search(), short, p, missed[p], bus.st.tick)
  {
    hide Missed, Truth;
    bytes, missed := [None, None, None], [[], [], []];
    NothingMissed(bus.world, bus.st.devices, bus.st.Search(), short, bus.st.tick);
    for attempt := 0 to MAX_COMMAND_RETRIES
      invariant SameSearch(old(bus.st), bus.st) && bus.st.devices == old(bus.st.devices)
      invariant |bytes| == 3 && forall p :: 0 <= p < 3 && bytes[p].Some? ==> bytes[p].value < 0x100
      invariant ClearQueries(bus.world) ==> BytesRead(bus.st.devices, bus.st.Search(), short, bytes, attempt)
      invariant |missed| == 3 && forall p :: 0 <= p < 3 && bytes[p].None? ==>
        MissedBy(bus.world, bus.st, short, p, missed[p], attempt)
    {
      for part := 0 to 3
        invariant SameSearch(old(bus.st), bus.st) && bus.st.devices == old(bus.st.devices)
        invariant |bytes| == 3 && forall p :: 0 <= p < 3 && bytes[p].Some? ==> bytes[p].value < 0x100
        invariant ClearQueries(bus.world) ==> BytesRead(bus.st.devices, bus.st.Search(), short, bytes, 0)
        invariant ClearQueries(bus.world) ==>
          forall p :: 0 <= p < part && Truth(bus.st.devices, bus.st.Search(), QueryRandom(short, p)).Value?
            ==> bytes[p].Some?
        invariant |missed| == 3 && forall p :: 0 <= p < 3 && bytes[p].None? ==>
          MissedBy(bus.world, bus.st, short, p, missed[p], if p < part then attempt + 1 else attempt)
      {
        if bytes[part].None? {
          BytesAreBytes(bus.st.devices, bus.st.Search(), short, part);
          ghost var st := bus.st;
          var heard := AskByte(bus, short, part);
          MissedLater(bus.world, st, bus.st, short);
          if heard.Some? {
            bytes := bytes[part := heard];
          } else {
            MissedOnce(bus.world, st.devices, st.Search(), short, part, missed[part], st.tick);
            missed := missed[part := missed[part] + [st.tick]];
          }
        }
      }
    }
  }

  ghost predicate MissedBy(w: World, st: BusState, short: nat, p: nat, missed: seq<nat>, times: nat)
  {
    |missed| == times && Missed(w, st.devices, st.Search(), short, p, missed, st.tick)
  }

  lemma NothingMissed(w: World, ds: seq<Device>, search: nat, short: nat, now: nat)
    ensures forall p :: Missed(w, ds, search, short, p, [], now)
  {
  }

  lemma MissedLater(w: World, st: BusState, st': BusState, short: nat)
    requires st'.devices == st.devices && st'.Search() == st.Search() && st.tick <= st'.tick
    ensures forall p, missed, times :: MissedBy(w, st, short, p, missed, times) ==>
      MissedBy(w, st', short, p, missed, times)
  {
  }

  /** Asks for one byte once. */
  method AskByte(bus: Bus, short: nat, part: nat) returns (r: Option<nat>)
    modifies bus
    ensures bus.st == old(bus.st).(tick := old(bus.st.tick) + 1)
    ensures
      var heard := bus.world.hears(old(bus.st.tick), QueryRandom(short, part),
                                   Truth(bus.st.devices, bus.st.Search(), QueryRandom(short, part)));
      // A backward frame is eight bits.
      r == if IsByte(heard) then Some(heard.v) else None
  {
    hide Truth;
    PassiveKeepsDevices(bus.world, bus.st, QueryRandom(short, part));
    var resp := bus.Send(QueryRandom(short, part));
    return if IsByte(resp) then Some(resp.v) else None;
  }

  /** The random address read at one short address, if all the gear there agrees on one. */
  method ReadRandom(bus: Bus, short: nat) returns (r: Option<Random>)
    modifies bus
    ensures SameSearch(old(bus.st), bus.st) && bus.st.devices == old(bus.st.devices)
    ensures ClearQueries(bus.world) && r.Some? ==> ReadOf(bus.st.devices, DeviceAddress(short, r.value))
    ensures ClearQueries(bus.world) ==>
      forall d :: d in bus.st.devices && Agreed(bus.st.devices, short, d) ==> r == Some(d.random)
  {
    ghost var ds, search := bus.st.devices, bus.st.Search();
    var bytes, _ := QueryBytes(bus, short);
    if ClearQueries(bus.world) {
      forall d | d in ds && Agreed(ds, short, d)
        ensures bytes == [Some(ByteOf(d.random, 0)), Some(ByteOf(d.random, 1)), Some(ByteOf(d.random, 2))]
      {
        AgreedIsRead(ds, search, short, d, 0);
        AgreedIsRead(ds, search, short, d, 1);
        AgreedIsRead(ds, search, short, d, 2);
      }
    }
    if bytes[0].None? || bytes[1].None? || bytes[2].None? {
      return None;
    }
    var h, m, l := bytes[0].value, bytes[1].value, bytes[2].value;
    BytesMakeRandom(0, h, m, l);
    if ClearQueries(bus.world) {
      BytesAgree(ds, search, short, h, m, l);
    }
    return Some(h * 0x10000 + m * 0x100 + l);
  }

  /** The readings at the first `n` of `shorts` are in `known`, and nothing else is. */
  ghost predicate ReadUpTo(ds: seq<Device>, shorts: seq<nat>, n: nat, known: seq<DeviceAddress>)
    requires n <= |shorts|
  {
    ReadFrom(ds, known) && forall k :: 0 <= k < n ==> ReadAt(ds, shorts[k], known)
  }

  lemma ReadMore(ds: seq<Device>, shorts: seq<nat>, n: nat, known: seq<DeviceAddress>, random: Option<Random>)
    requires n < |shorts| && ReadUpTo(ds, shorts, n, known)
    requires random.Some? ==> ReadOf(ds, DeviceAddress(shorts[n], random.value))
    requires forall d :: d in ds && Agreed(ds, shorts[n], d) ==> random == Some(d.random)
    ensures ReadUpTo(ds, shorts, n + 1,
                     if random.Some? then known + [DeviceAddress(shorts[n], random.value)] else known)
  {
    var known' := if random.Some? then known + [DeviceAddress(shorts[n], random.value)] else known;
    forall k | 0 <= k < n + 1
      ensures ReadAt(ds, shorts[k], known')
    {
      assert k < n ==> ReadAt(ds, shorts[k], known);
    }
  }

  /** The random addresses that can be read at the given short addresses: colliding or missing
      answers leave an address out. */
  method ReadRandoms(bus: Bus, shorts: seq<nat>) returns (known: seq<DeviceAddress>)
    modifies bus
    ensures SameSearch(old(bus.st), bus.st) && bus.st.devices == old(bus.st.devices)
    ensures forall a :: a in known ==> a.short in shorts
    ensures NoDup(shorts) ==> DistinctShorts(known)
    ensures ClearQueries(bus.world) ==> ReadFrom(bus.st.devices, known)
    ensures ClearQueries(bus.world) ==> forall k :: 0 <= k < |shorts| ==> ReadAt(bus.st.devices, shorts[k], known)
  {
    known := [];
    for i := 0 to |shorts|
      invariant SameSearch(old(bus.st), bus.st) && bus.st.devices == old(bus.st.devices)
      invariant forall a :: a in known ==> a.short in shorts[..i]
      invariant NoDup(shorts) ==> DistinctShorts(known)
      invariant ClearQueries(bus.world) ==> ReadUpTo(bus.st.devices, shorts, i, known)
    {
      var random := ReadRandom(bus, shorts[i]);
      if ClearQueries(bus.world) {
        ReadMore(bus.st.devices, shorts, i, known, random);
      }
      if random.Some? {
        assert NoDup(shorts) ==> shorts[i] !in shorts[..i];
        known := known + [DeviceAddress(shorts[i], random.value)];
      }
    }
  }

  function RandomsOf(known: seq<DeviceAddress>): (rs: seq<Random>)
    ensures |rs| == |known| && forall i :: 0 <= i < |rs| ==> rs[i] == known[i].random
  {
    seq(|known|, i requires 0 <= i < |known| => known[i].random)
  }

  /** Gear with distinct random addresses reads as distinct random addresses. */
  lemma ReadDistinct(ds: seq<Device>, known: seq<DeviceAddress>)
    requires Tidy(ds) && ReadFrom(ds, known) && DistinctShorts(known)
    requires forall a :: a in known ==> a.short <= MAX_SHORT
    ensures DistinctRandom(known) && forall a :: a in known ==> a.random != UNSET_RANDOM
  {
    forall i, j | 0 <= i < j < |known|
      ensures known[i].random != known[j].random
    {
      assert ReadOf(ds, known[i]) && ReadOf(ds, known[j]);
      var d :| d in ds && d.short == known[i].short && d.random == known[i].random;
      var e :| e in ds && e.short == known[j].short && e.random == known[j].random;
      var p :| 0 <= p < |ds| && ds[p] == d;
      var q :| 0 <= q < |ds| && ds[q] == e;
    }
  }

  /** The random address of device `i` is one it has drawn. */
  ghost predicate Drew(w: World, i: nat, random: Random)
  {
    exists t: nat :: w.draws(t, i) == random
  }

  /** Has the gear that `target` names, and no other, draw new random addresses. */
  method RandomiseBy(bus: Bus, target: Target)
    modifies bus
    ensures SameSearch(old(bus.st), bus.st)
    ensures Obedient(bus.world) ==>
      && |bus.st.devices| == |old(bus.st.devices)|
      && forall i :: 0 <= i < |bus.st.devices| ==>
           var d := old(bus.st.devices)[i];
           bus.st.devices[i] ==
           if Joins(d, target) then Device(bus.world.draws(old(bus.st.tick) + 2, i), d.short, Enabled)
           else d.(mode := Disabled)
    ensures ShortsFrom(old(bus.st.devices), bus.st.devices, {})
  {
    StepShorts(bus.world, bus.st, Terminate);
    var _ := bus.Send(Terminate);
    StepShorts(bus.world, bus.st, Initialise(target));
    var _ := bus.Send(Initialise(target));
    StepShorts(bus.world, bus.st, Randomise);
    var _ := bus.Send(Randomise);
  }

  predicate Ambiguous(frequency: multiset<Random>, a: DeviceAddress)
  {
    frequency[a.random] > 1 || a.random == UNSET_RANDOM
  }

  function Unambiguous(frequency: multiset<Random>, known: seq<DeviceAddress>): (kept: seq<DeviceAddress>)
    ensures forall a :: a in kept ==> a in known && !Ambiguous(frequency, a)
  {
    if known == [] then []
    else var last := known[|known| - 1];
         Unambiguous(frequency, known[..|known| - 1]) + (if Ambiguous(frequency, last) then [] else [last])
  }

  lemma {:induction false} UnambiguousDistinct(known: seq<DeviceAddress>, n: nat)
    requires n <= |known|
    ensures DistinctRandom(Unambiguous(multiset(RandomsOf(known)), known[..n]))
  {
    if n > 0 {
      var f := multiset(RandomsOf(known));
      UnambiguousDistinct(known, n - 1);
      assert known[..n][..n - 1] == known[..n - 1];
      if !Ambiguous(f, known[n - 1]) {
        forall a | a in Unambiguous(f, known[..n - 1])
          ensures a.random != known[n - 1].random
        {
          var j :| 0 <= j < n - 1 && known[j] == a;
          OnceOnly(RandomsOf(known), j, n - 1);
        }
      }
    }
  }

  /** The short addresses of the ambiguous readings: exactly those that are not kept. */
  function Rerolled(frequency: multiset<Random>, known: seq<DeviceAddress>): (sent: seq<nat>)
    ensures |sent| + |Unambiguous(frequency, known)| == |known|
    ensures forall s :: s in sent <==> exists a :: a in known && Ambiguous(frequency, a) && a.short == s
  {
    if known == [] then []
    else
      var front, last := known[..|known| - 1], known[|known| - 1];
      assert known == front + [last];
      Rerolled(frequency, front) + (if Ambiguous(frequency, last) then [last.short] else [])
  }

  lemma {:induction false} UnambiguousKeepsAll(frequency: multiset<Random>, known: seq<DeviceAddress>)
    requires forall a :: a in known ==> !Ambiguous(frequency, a)
    ensures Unambiguous(frequency, known) == known
  {
    if known != [] {
      var front, last := known[..|known| - 1], known[|known| - 1];
      assert known == front + [last] && !Ambiguous(frequency, last);
      UnambiguousKeepsAll(frequency, front);
    }
  }

  lemma CleanIsUnambiguous(known: seq<DeviceAddress>)
    requires DistinctRandom(known) && forall a :: a in known ==> a.random != UNSET_RANDOM
    ensures var f := multiset(RandomsOf(known)); Unambiguous(f, known) == known && Rerolled(f, known) == []
  {
    forall a | a in known
      ensures !Ambiguous(multiset(RandomsOf(known)), a)
    {
      NoDupCounts(RandomsOf(known), a.random);
    }
    UnambiguousKeepsAll(multiset(RandomsOf(known)), known);
  }

  lemma {:induction false} UnambiguousIsKept(frequency: multiset<Random>, known: seq<DeviceAddress>, a: DeviceAddress)
    requires a in known && !Ambiguous(frequency, a)
    ensures a in Unambiguous(frequency, known)
  {
    var front, last := known[..|known| - 1], known[|known| - 1];
    if a in front {
      UnambiguousIsKept(frequency, front, a);
    }
  }

  lemma UnambiguousStep(frequency: multiset<Random>, known: seq<DeviceAddress>, n: nat)
    requires n < |known|
    ensures Unambiguous(frequency, known[..n + 1])
            == Unambiguous(frequency, known[..n]) + (if Ambiguous(frequency, known[n]) then [] else [known[n]])
    ensures Rerolled(frequency, known[..n + 1])
            == Rerolled(frequency, known[..n]) + (if Ambiguous(frequency, known[n]) then [known[n].short] else [])
  {
    assert known[..n + 1][..n] == known[..n];
  }

  /** The gear at `shorts` and no other has drawn a random address; no short address has changed. */
  ghost predicate DrewAt(w: World, ds: seq<Device>, ds': seq<Device>, shorts: seq<nat>)
  {
    |ds'| == |ds| && forall i :: 0 <= i < |ds| ==>
      && ds'[i].short == ds[i].short
      && if ds[i].short in shorts then Drew(w, i, ds'[i].random) else ds'[i].random == ds[i].random
  }

  lemma DrewAtMore(w: World, ds: seq<Device>, ds': seq<Device>, ds'': seq<Device>, shorts: seq<nat>, s: nat)
    requires DrewAt(w, ds, ds', shorts) && DrewAt(w, ds', ds'', [s])
    ensures DrewAt(w, ds, ds'', shorts + [s])
  {
  }

  lemma KeptIsNotRerolled(f: multiset<Random>, known: seq<DeviceAddress>, a: DeviceAddress)
    requires DistinctShorts(known) && a in Unambiguous(f, known)
    ensures a.short !in Rerolled(f, known)
  {
    assert a in known && !Ambiguous(f, a);
    forall b | b in known && b.short == a.short
      ensures b == a
    {
      var i :| 0 <= i < |known| && known[i] == a;
      var j :| 0 <= j < |known| && known[j] == b;
    }
  }

  lemma StillReads(w: World, ds: seq<Device>, ds': seq<Device>, sent: seq<nat>, a: DeviceAddress)
    requires DrewAt(w, ds, ds', sent) && a.short !in sent
    requires ReadOf(ds, a)
    ensures ReadOf(ds', a)
  {
    var d :| d in ds && Agreed(ds, a.short, d) && d.random == a.random;
    var i :| 0 <= i < |ds| && ds[i] == d;
    forall e | e in ds' && e.short == a.short
      ensures e.random == a.random
    {
      var j :| 0 <= j < |ds'| && ds'[j] == e;
      assert ds[j] in ds;
    }
    assert ds'[i] in ds' && Agreed(ds', a.short, ds'[i]);
  }

  /** What was read and kept still holds after the others drew new random addresses. */
  lemma KeptStillReads(w: World, ds: seq<Device>, ds': seq<Device>, f: multiset<Random>, known: seq<DeviceAddress>)
    requires ReadFrom(ds, known) && DistinctShorts(known)
    requires DrewAt(w, ds, ds', Rerolled(f, known))
    ensures ReadFrom(ds', Unambiguous(f, known))
  {
    forall a | a in Unambiguous(f, known)
      ensures ReadOf(ds', a)
    {
      KeptIsNotRerolled(f, known, a);
      StillReads(w, ds, ds', Rerolled(f, known), a);
    }
  }

  /** `RandomiseBy` for the gear at one more short address. */
  method RandomiseAlso(bus: Bus, short: nat, ghost ds0: seq<Device>, ghost sent: seq<nat>)
    modifies bus
    ensures SameSearch(old(bus.st), bus.st)
    ensures Obedient(bus.world) && DrewAt(bus.world, ds0, old(bus.st.devices), sent) ==>
      DrewAt(bus.world, ds0, bus.st.devices, sent + [short])
    ensures ShortsFrom(ds0, old(bus.st.devices), {}) ==> ShortsFrom(ds0, bus.st.devices, {})
  {
    ghost var ds := bus.st.devices;
    RandomiseBy(bus, At(short));
    if Obedient(bus.world) && DrewAt(bus.world, ds0, ds, sent) {
      DrewAtMore(bus.world, ds0, ds, bus.st.devices, sent, short);
    }
  }

  /** Sends RANDOMISE to each device whose random address is unset or read more than once. */
  method RandomiseDuplicates(bus: Bus, known: seq<DeviceAddress>) returns (kept: seq<DeviceAddress>, sent: seq<nat>)
    modifies bus
    ensures SameSearch(old(bus.st), bus.st)
    ensures var f := multiset(RandomsOf(known)); kept == Unambiguous(f, known) && sent == Rerolled(f, known)
    ensures Obedient(bus.world) ==> DrewAt(bus.world, old(bus.st.devices), bus.st.devices, sent)
    ensures sent == [] ==> bus.st == old(bus.st)
    ensures ShortsFrom(old(bus.st.devices), bus.st.devices, {})
  {
    var frequency := multiset(RandomsOf(known));
    kept, sent := [], [];
    for i := 0 to |known|
      invariant SameSearch(old(bus.st), bus.st)
      invariant kept == Unambiguous(frequency, known[..i]) && sent == Rerolled(frequency, known[..i])
      invariant Obedient(bus.world) ==> DrewAt(bus.world, old(bus.st.devices), bus.st.devices, sent)
      invariant sent == [] ==> bus.st == old(bus.st)
      invariant ShortsFrom(old(bus.st.devices), bus.st.devices, {})
    {
      UnambiguousStep(frequency, known, i);
      if Ambiguous(frequency, known[i]) {
        RandomiseAlso(bus, known[i].short, old(bus.st.devices), sent);
        sent := sent + [known[i].short];
      } else {
        kept := kept + [known[i]];
      }
    }
    assert known[..|known|] == known;
  }

  lemma OnceOnly(rs: seq<Random>, j: nat, i: nat)
    requires j < i < |rs| && multiset(rs)[rs[i]] <= 1
    ensures rs[j] != rs[i]
  {
    assert rs == rs[..i] + rs[i..];
    assert rs[j] in rs[..i] && rs[i] in rs[i..];
    assert rs[j] in multiset(rs[..i]) && rs[i] in multiset(rs[i..]);
    assert multiset(rs)[rs[i]] == multiset(rs[..i])[rs[i]] + multiset(rs[i..])[rs[i]];
  }

  function Range(n: nat): (r: seq<nat>)
    ensures Ascending(r) && forall s: nat :: s in r <==> s < n
  {
    if n == 0 then [] else
    var front := Range(n - 1);
    assert forall k :: 0 <= k < |front| ==> front[k] in front;
    front + [n - 1]
  }

  /** 0..63 without the addresses that answered. */
  method FreeAfterPoll(present: seq<nat>) returns (available: seq<nat>)
    ensures Ascending(available)
    ensures forall s: nat :: s in available <==> s <= 63 && s !in present
  {
    available := Range(MAX_SHORT + 1);
    for i := 0 to |present|
      invariant Ascending(available)
      invariant forall s: nat :: s in available <==> s <= MAX_SHORT && s !in present[..i]
    {
      WithoutRemoves(available, present[i]);
      available := Without(available, present[i]);
    }
    assert present[..|present|] == present;
  }

  /** Appends the stored devices whose random address the poll did not read. */
  method AppendStored(known: seq<DeviceAddress>, stored: seq<DeviceAddress>) returns (all: seq<DeviceAddress>)
    ensures DistinctRandom(known) ==> DistinctRandom(all)
    ensures known <= all
    ensures forall d :: d in stored ==> d.random in RandomsOf(all)
    ensures forall d :: d in all ==> d in known || d in stored
  {
    all := known;
    var seen := set a | a in known :: a.random;
    for i := 0 to |stored|
      invariant seen == set a | a in all :: a.random
      invariant DistinctRandom(known) ==> DistinctRandom(all)
      invariant known <= all
      invariant forall d :: d in stored[..i] ==> d.random in seen
      invariant forall d :: d in all ==> d in known || d in stored
    {
      assert stored[..i + 1] == stored[..i] + [stored[i]];
      if stored[i].random !in seen {
        all := all + [stored[i]];
        seen := seen + {stored[i].random};
      }
    }
    forall d | d in stored
      ensures d.random in RandomsOf(all)
    {
      assert stored[..|stored|] == stored;
      var a :| a in all && a.random == d.random;
      var i :| 0 <= i < |all| && all[i] == a;
      assert RandomsOf(all)[i] == d.random;
    }
  }
}
