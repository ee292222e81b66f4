/** The delta-encoded 24-bit search address (`SearchAddress`, `SearchAddressWriter`). */
module SearchAddress {
  import opened Prelude
  import opened SearchBus

  datatype Parts = Parts(high: Option<nat>, medium: Option<nat>, low: Option<nat>)

  const UNKNOWN := Parts(None, None, None)

  function FromInt(addr: Random): Parts
  {
    Parts(Some(addr / 0x10000 % 0x100), Some(addr / 0x100 % 0x100), Some(addr % 0x100))
  }

  /** The frames that change `current` into `addr`: one for each part that differs. */
  function Delta(current: Parts, addr: Random): (frames: seq<Frame>)
    ensures |frames| <= 3
    ensures frames == [] <==> current == FromInt(addr)
  {
    var p := FromInt(addr);
    (if current.high != p.high then [SearchH(p.high.value)] else [])
    + (if current.medium != p.medium then [SearchM(p.medium.value)] else [])
    + (if current.low != p.low then [SearchL(p.low.value)] else [])
  }

  /** The listeners hold every part that the writer remembers. */
  predicate Synced(current: Parts, s: BusState)
  {
    && (current.high.Some? ==> current.high.value == s.high)
    && (current.medium.Some? ==> current.medium.value == s.medium)
    && (current.low.Some? ==> current.low.value == s.low)
  }

  function Run(w: World, s: BusState, frames: seq<Frame>): BusState
    decreases |frames|
  {
    if frames == [] then s else Run(w, Step(w, s, frames[0]), frames[1..])
  }

  function Answers(w: World, s: BusState, frames: seq<Frame>): (rs: seq<Reply>)
    ensures |rs| == |frames|
    decreases |frames|
  {
    if frames == [] then []
    else [Answer(w, s, frames[0])] + Answers(w, Step(w, s, frames[0]), frames[1..])
  }

  lemma {:induction false} RunConcat(w: World, s: BusState, a: seq<Frame>, b: seq<Frame>)
    ensures Run(w, s, a + b) == Run(w, Run(w, s, a), b)
    ensures Answers(w, s, a + b) == Answers(w, s, a) + Answers(w, Run(w, s, a), b)
    decreases |a|
  {
    if a == [] {
      assert a + b == b;
    } else {
      hide Step, Answer;
      assert (a + b)[0] == a[0] && (a + b)[1..] == a[1..] + b;
      RunConcat(w, Step(w, s, a[0]), a[1..], b);
    }
  }

  lemma FromIntIsInverse(addr: Random, s: BusState)
    requires Synced(FromInt(addr), s)
    ensures s.Search() == addr
  {
  }

  lemma RunOne(w: World, s: BusState, f: Frame)
    requires Passive(f)
    ensures Run(w, s, [f]) == Step(w, s, f)
    ensures Step(w, s, f).devices == s.devices && Step(w, s, f).programmed == s.programmed
  {
    assert [f][1..] == [];
    PassiveKeepsDevices(w, s, f);
  }

  /** The bus after the delta: the parts that were sent are those of `addr`. */
  lemma DeltaRuns(w: World, s: BusState, current: Parts, addr: Random)
    ensures var p, s' := FromInt(addr), Run(w, s, Delta(current, addr));
            && s'.high == (if current.high != p.high then p.high.value else s.high)
            && s'.medium == (if current.medium != p.medium then p.medium.value else s.medium)
            && s'.low == (if current.low != p.low then p.low.value else s.low)
            && s'.devices == s.devices && s'.programmed == s.programmed
            && s'.tick == s.tick + |Delta(current, addr)|
  {
    var p := FromInt(addr);
    var h := if current.high != p.high then [SearchH(p.high.value)] else [];
    var m := if current.medium != p.medium then [SearchM(p.medium.value)] else [];
    var l := if current.low != p.low then [SearchL(p.low.value)] else [];
    var s1, s2 := Run(w, s, h), Run(w, Run(w, s, h), m);
    RunConcat(w, s, h + m, l);
    RunConcat(w, s, h, m);
    if h != [] { RunOne(w, s, h[0]); }
    if m != [] { RunOne(w, s1, m[0]); }
    if l != [] { RunOne(w, s2, l[0]); }
  }

  /** The delta refines the full write: heard by listeners that are in sync, it puts `addr` on the
      bus, whatever was there before, and touches no device. */
  lemma DeltaSetsSearch(w: World, s: BusState, current: Parts, addr: Random)
    requires Synced(current, s)
    ensures var s' := Run(w, s, Delta(current, addr));
            && Synced(FromInt(addr), s') && s'.Search() == addr
            && s'.devices == s.devices && s'.programmed == s.programmed
            && s'.tick == s.tick + |Delta(current, addr)|
  {
    DeltaRuns(w, s, current, addr);
    FromIntIsInverse(addr, Run(w, s, Delta(current, addr)));
  }

  /** For listeners that may not be in sync: the delta reaches `addr` exactly when they already
      hold the parts that the writer believes unchanged and leaves out. */
  lemma DeltaExact(w: World, s: BusState, current: Parts, addr: Random)
    requires s.high < 0x100 && s.medium < 0x100 && s.low < 0x100
    ensures var p := FromInt(addr);
            Run(w, s, Delta(current, addr)).Search() == addr <==>
            && (current.high == p.high ==> s.high == p.high.value)
            && (current.medium == p.medium ==> s.medium == p.medium.value)
            && (current.low == p.low ==> s.low == p.low.value)
  {
    DeltaRuns(w, s, current, addr);
    var p, s' := FromInt(addr), Run(w, s, Delta(current, addr));
    BytesDecide(s'.high, s'.medium, s'.low, p.high.value, p.medium.value, p.low.value);
    FromIntIsInverse(addr, s'.(high := p.high.value, medium := p.medium.value, low := p.low.value));
  }

  lemma BytesDecide(h: nat, m: nat, l: nat, h': nat, m': nat, l': nat)
    requires h < 0x100 && m < 0x100 && l < 0x100 && h' < 0x100 && m' < 0x100 && l' < 0x100
    ensures h * 0x10000 + m * 0x100 + l == h' * 0x10000 + m' * 0x100 + l' <==> h == h' && m == m' && l == l'
  {
  }

  /** Every frame of a sequence of `set_search_addr` calls by a writer that remembers `current`. */
  function Writes(current: Parts, addrs: seq<Random>): seq<Frame>
    decreases |addrs|
  {
    if addrs == [] then [] else Delta(current, addrs[0]) + Writes(FromInt(addrs[0]), addrs[1..])
  }

  /** Over any sequence of writes by a fresh writer, heard from whatever address the bus started
      with, the bus ends on the last address. */
  lemma {:induction false} WritesReachLast(w: World, s: BusState, current: Parts, addrs: seq<Random>)
    requires Synced(current, s)
    requires addrs != []
    ensures Run(w, s, Writes(current, addrs)).Search() == addrs[|addrs| - 1]
    ensures Run(w, s, Writes(current, addrs)).devices == s.devices
    decreases |addrs|
  {
    var d := Delta(current, addrs[0]);
    RunConcat(w, s, d, Writes(FromInt(addrs[0]), addrs[1..]));
    DeltaSetsSearch(w, s, current, addrs[0]);
    if |addrs| > 1 {
      WritesReachLast(w, Run(w, s, d), FromInt(addrs[0]), addrs[1..]);
    }
  }

  /** A listener that missed a write is not corrected by the next one: the delta is only right for
      listeners that are in sync. */
  lemma MissedWriteIsNotRepaired(w: World, s: BusState)
    requires s.high == 0 && s.medium == 0 && s.low == 0
    ensures Run(w, s, Delta(FromInt(0x010000), 0x010001)).Search() != 0x010001
  {
    assert Delta(FromInt(0x010000), 0x010001) == [SearchL(1)];
    RunOne(w, s, SearchL(1));
  }

  class SearchAddressWriter {
    const bus: Bus
    var current: Parts

    ghost predicate Valid()
      reads this, bus
    {
      Synced(current, bus.st)
    }

    constructor (bus: Bus)
      ensures this.bus == bus && current == UNKNOWN && Valid()
    {
      this.bus := bus;
      current := UNKNOWN;
    }

    method Commands(addr: Random) returns (parts: seq<Frame>)
      modifies this
      ensures parts == Delta(old(current), addr)
      ensures current == FromInt(addr)
    {
      var p := FromInt(addr);
      parts := [];
      if current.high != p.high { parts := parts + [SearchH(p.high.value)]; }
      if current.medium != p.medium { parts := parts + [SearchM(p.medium.value)]; }
      if current.low != p.low { parts := parts + [SearchL(p.low.value)]; }
      current := p;
    }

    method SetSearchAddr(addr: Random)
      requires Valid()
      modifies this, bus
      ensures Valid() && current == FromInt(addr) && bus.st.Search() == addr
      ensures bus.st.devices == old(bus.st.devices) && bus.st.programmed == old(bus.st.programmed)
      ensures bus.st.tick == old(bus.st.tick) + |Delta(old(current), addr)|
    {
      DeltaSetsSearch(bus.world, bus.st, current, addr);
      var parts := Commands(addr);
      var _ := SendAll(bus, parts);
    }

    /** Whether anything answered COMPARE at `addr`; a framing error counts as an answer. */
    method Compare(addr: Random, attempt: nat) returns (yes: bool)
      requires Valid()
      modifies this, bus
      ensures Valid() && current == FromInt(addr) && bus.st.Search() == addr
      ensures bus.st.devices == old(bus.st.devices) && bus.st.programmed == old(bus.st.programmed)
      ensures bus.st.tick == old(bus.st.tick) + |Delta(old(current), addr)| + 1
      ensures yes <==>
        bus.world.hears(bus.st.tick - 1, Frame.Compare(attempt),
                        Truth(bus.st.devices, addr, Frame.Compare(attempt))) != Silent
    {
      SetSearchAddr(addr);
      PassiveKeepsDevices(bus.world, bus.st, Frame.Compare(attempt));
      var r := bus.Send(Frame.Compare(attempt));
      yes := r != Silent;
    }
  }

  method SendAll(bus: Bus, frames: seq<Frame>) returns (rs: seq<Reply>)
    modifies bus
    ensures bus.st == Run(bus.world, old(bus.st), frames)
    ensures rs == Answers(bus.world, old(bus.st), frames)
  {
    rs := [];
    for i := 0 to |frames|
      invariant bus.st == Run(bus.world, old(bus.st), frames[..i])
      invariant rs == Answers(bus.world, old(bus.st), frames[..i])
    {
      ghost var s := old(bus.st);
      RunConcat(bus.world, s, frames[..i], [frames[i]]);
      assert frames[..i + 1] == frames[..i] + [frames[i]];
      assert [frames[i]][1..] == [];
      var r := bus.Send(frames[i]);
      rs := rs + [r];
    }
    assert frames[..|frames|] == frames;
  }
}
