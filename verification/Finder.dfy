/** The search for the lowest participating random address (`BinarySearchAddressFinder`). */
module Finder {
  import opened Prelude
  import opened Bits
  import opened SearchBus
  import opened SearchAddress

  const SILENT_COMPARE_ATTEMPTS: nat := 2
  const ADDRESS_BITS: nat := 24

  datatype Finding = Nothing | Unconfirmed | Found(addr: Random)

  /** `addr` is the lowest random address among the participants. */
  ghost predicate IsLowest(ds: seq<Device>, addr: int)
  {
    SomeParticipant(ds, addr) && !SomeParticipant(ds, addr - 1)
  }

  ghost predicate AllAtLeast(ds: seq<Device>, low: int)
  {
    forall d :: d in ds && d.mode == Enabled ==> d.random >= low
  }

  lemma LowestIsHeld(ds: seq<Device>, addr: int)
    requires IsLowest(ds, addr)
    ensures exists d :: d in ds && d.mode == Enabled && d.random == addr
    ensures AllAtLeast(ds, addr)
  {
    forall d | d in ds && d.mode == Enabled
      ensures d.random >= addr
    {
      assert !Participates(d, addr - 1);
    }
  }

  /** An answer to a bisection probe gets lost between the two times. */
  ghost predicate LosesBetween(w: World, from: nat, to: nat)
  {
    exists t: nat :: from <= t < to && LosesProbe(w, t)
  }

  lemma LosesMore(w: World, from: nat, mid: nat, to: nat)
    requires from <= mid <= to
    ensures LosesBetween(w, from, mid) || LosesBetween(w, mid, to) ==> LosesBetween(w, from, to)
  {
  }

  lemma LosslessNeverLoses(w: World)
    requires Lossless(w)
    ensures forall from: nat, to: nat :: !LosesBetween(w, from, to)
  {
  }

  /** What a bisection knows: the address it is after is one of the `size` from `found` on, unless it
      has `lost` an answer. */
  ghost predicate Brackets(w: World, ds: seq<Device>, low: nat, found: nat, size: nat, lost: bool)
  {
    && low <= found + size - 1 <= MAX_RANDOM
    && (Reliable(w) && SomeParticipant(ds, MAX_RANDOM) ==> SomeParticipant(ds, found + size - 1))
    && (Reliable(w) && !lost && AllAtLeast(ds, low) ==> !SomeParticipant(ds, found - 1))
  }

  lemma BracketsAll(w: World, ds: seq<Device>, low: Random)
    ensures Brackets(w, ds, low, 0, MAX_RANDOM + 1, false)
  {
  }

  lemma BracketsOne(w: World, ds: seq<Device>, low: nat, found: nat, lost: bool)
    requires Brackets(w, ds, low, found, 1, lost)
    ensures low <= found <= MAX_RANDOM
    ensures Reliable(w) && SomeParticipant(ds, MAX_RANDOM) ==> SomeParticipant(ds, found)
    ensures Reliable(w) && !lost && AllAtLeast(ds, low) ==> !SomeParticipant(ds, found - 1)
  {
  }

  /** A probe at the end of the lower half halves it. */
  lemma Halves(w: World, ds: seq<Device>, low: nat, found: nat, size: nat, half: nat, answered: bool, found': nat,
               lost: bool, lost': bool)
    requires Brackets(w, ds, low, found, size, lost) && size == 2 * half && (lost ==> lost')
    requires found' == if answered then found else found + half
    requires answered ==> low <= found + half - 1
    requires Reliable(w) && answered ==> SomeParticipant(ds, found + half - 1)
    requires Reliable(w) && !lost' && AllAtLeast(ds, low) ==> (answered <==> SomeParticipant(ds, found + half - 1))
    ensures Brackets(w, ds, low, found', half, lost') && found' + half - 1 <= MAX_RANDOM
  {
  }

  class BinarySearchAddressFinder {
    const selector: SearchAddressWriter

    constructor (selector: SearchAddressWriter)
      ensures this.selector == selector
    {
      this.selector := selector;
    }

    /** Silence is confirmed by a repeat, so on a reliable bus the answer is the truth. */
    method CompareWithRetry(addr: Random) returns (yes: bool)
      requires selector.Valid()
      modifies selector, selector.bus
      ensures selector.Valid()
      ensures selector.bus.st.devices == old(selector.bus.st.devices)
      ensures selector.bus.st.programmed == old(selector.bus.st.programmed)
      ensures old(selector.bus.st.tick) <= selector.bus.st.tick
      ensures Reliable(selector.bus.world) ==>
                (yes <==> SomeParticipant(selector.bus.st.devices, addr))
    {
      CompareTruth(selector.bus.st.devices, addr, 1);
      CompareTruth(selector.bus.st.devices, addr, 2);
      yes := false;
      for attempt := 1 to SILENT_COMPARE_ATTEMPTS + 1
        invariant selector.Valid()
        invariant selector.bus.st.devices == old(selector.bus.st.devices)
        invariant selector.bus.st.programmed == old(selector.bus.st.programmed)
        invariant old(selector.bus.st.tick) <= selector.bus.st.tick
        invariant attempt == 2 ==>
          && selector.current == FromInt(addr) && selector.bus.st.tick > 0
          && selector.bus.world.hears(selector.bus.st.tick - 1, Compare(1),
                                      Truth(selector.bus.st.devices, addr, Compare(1))) == Silent
        invariant attempt == 3 && Reliable(selector.bus.world) ==>
          !SomeParticipant(selector.bus.st.devices, addr)
      {
        yes := selector.Compare(addr, attempt);
        if yes {
          return;
        }
      }
    }

    /** One bisection probe; below `low` silence is certain, so nothing is asked there. */
    method Probe(low: Random, probe: Random) returns (answered: bool)
      requires selector.Valid()
      modifies selector, selector.bus
      ensures selector.Valid()
      ensures selector.bus.st.devices == old(selector.bus.st.devices)
      ensures selector.bus.st.programmed == old(selector.bus.st.programmed)
      ensures old(selector.bus.st.tick) <= selector.bus.st.tick
      ensures answered ==> probe >= low
      ensures Reliable(selector.bus.world) && answered ==> SomeParticipant(selector.bus.st.devices, probe)
      ensures
        Reliable(selector.bus.world) && AllAtLeast(selector.bus.st.devices, low)
        && !LosesBetween(selector.bus.world, old(selector.bus.st.tick), selector.bus.st.tick)
        ==> (answered <==> SomeParticipant(selector.bus.st.devices, probe))
    {
      answered := false;
      if probe >= low {
        answered := selector.Compare(probe, 0);
        CompareTruth(selector.bus.st.devices, probe, 0);
        assert LosesProbe(selector.bus.world, selector.bus.st.tick - 1)
          ==> LosesBetween(selector.bus.world, old(selector.bus.st.tick), selector.bus.st.tick);
      }
    }

    /**
     Reads out an answering address bit by bit.  On every bus, even one that answers arbitrarily,
     the result lies in [low, 0xFFFFFF].  If COMPARE never answers falsely, no answer lost on the
     way takes the result below a participant; if none gets lost it is the lowest one.
     */
    method Bisect(low: Random) returns (found: Random)
      requires selector.Valid()
      modifies selector, selector.bus
      ensures selector.Valid()
      ensures selector.bus.st.devices == old(selector.bus.st.devices)
      ensures selector.bus.st.programmed == old(selector.bus.st.programmed)
      ensures old(selector.bus.st.tick) <= selector.bus.st.tick
      ensures low <= found <= MAX_RANDOM
      ensures Reliable(selector.bus.world) && SomeParticipant(selector.bus.st.devices, MAX_RANDOM)
        ==> SomeParticipant(selector.bus.st.devices, found)
      ensures
        Reliable(selector.bus.world) && AllAtLeast(selector.bus.st.devices, low)
        && !LosesBetween(selector.bus.world, old(selector.bus.st.tick), selector.bus.st.tick)
        ==> !SomeParticipant(selector.bus.st.devices, found - 1)
    {
      hide Reliable, AllAtLeast, LosesBetween, Brackets, SomeParticipant, BitOr, Blocks;
      found := 0;
      ghost var w, start, lost := selector.bus.world, selector.bus.st.tick, false;
      var bit := ADDRESS_BITS;
      ghost var ds := selector.bus.st.devices;
      ghost var blocks: nat := 0;  // found is this many blocks of the size still undecided
      AllBlocks();
      BracketsAll(w, ds, low);
      while bit > 0
        invariant 0 <= bit <= ADDRESS_BITS
        invariant selector.Valid() && selector.bus.st.devices == ds
        invariant selector.bus.st.programmed == old(selector.bus.st.programmed)
        invariant found == Blocks(blocks, bit)
        invariant start <= selector.bus.st.tick
        invariant lost ==> LosesBetween(w, start, selector.bus.st.tick)
        invariant Brackets(w, ds, low, found, Pow2(bit), lost)
        invariant found + Pow2(bit) - 1 <= MAX_RANDOM
      {
        bit := bit - 1;
        var mask := Pow2(bit);
        DecideBit(blocks, bit);
        var probe := BitOr(found, mask - 1);
        ghost var before := selector.bus.st.tick;
        var answered := Probe(low, probe);
        LosesMore(w, start, before, selector.bus.st.tick);
        ghost var was, lostBefore := found, lost;
        lost := lost || LosesBetween(w, before, selector.bus.st.tick);
        if !answered {
          found := BitOr(found, mask);
          blocks := 2 * blocks + 1;
        } else {
          blocks := 2 * blocks;
        }
        Halves(w, ds, low, was, Pow2(bit + 1), mask, answered, found, lostBefore, lost);
      }
      BracketsOne(w, ds, low, found, lost);
    }

    /**
     The whole search.  With COMPARE answers lost but confirmed silence trustworthy, it reports
     nothing exactly when nobody participates, and any address it does report is the lowest one,
     left on the bus as the search address.  Unless a bisection answer gets lost, it always reports.
     */
    method FindNextDevice(low: Random) returns (r: Finding)
      requires selector.Valid()
      modifies selector, selector.bus
      ensures selector.Valid()
      ensures selector.bus.st.devices == old(selector.bus.st.devices)
      ensures selector.bus.st.programmed == old(selector.bus.st.programmed)
      ensures old(selector.bus.st.tick) <= selector.bus.st.tick
      ensures r.Found? ==> low <= r.addr && selector.bus.st.Search() == r.addr
      ensures Reliable(selector.bus.world) ==>
        && (r.Nothing? <==> !SomeParticipant(selector.bus.st.devices, MAX_RANDOM))
        && (r.Found? ==> IsLowest(selector.bus.st.devices, r.addr))
      ensures
        Reliable(selector.bus.world) && AllAtLeast(selector.bus.st.devices, low) && r.Unconfirmed?
        ==> LosesBetween(selector.bus.world, old(selector.bus.st.tick), selector.bus.st.tick)
    {
      var any := CompareWithRetry(MAX_RANDOM);
      if !any {
        return Nothing;
      }
      var found := Bisect(low);
      if found > 0 {
        var below := CompareWithRetry(found - 1);
        if below {
          return Unconfirmed;
        }
      }
      assert found == 0 ==> !SomeParticipant(selector.bus.st.devices, -1);
      selector.SetSearchAddr(found);
      return Found(found);
    }
  }

  lemma AllBlocks()
    ensures Pow2(ADDRESS_BITS) == 0x1000000 && Blocks(0, ADDRESS_BITS) == 0
  {
    assert Pow2(8) == 0x100;
    assert Pow2(16) == 0x10000 by {
      assert Pow2(12) == 0x1000;
    }
  }

  function Blocks(m: nat, k: nat): nat
  {
    m * Pow2(k)
  }

  /** The two numbers a bisection step makes of `m` blocks: the probe and the bit set to one. */
  lemma DecideBit(m: nat, bit: nat)
    ensures var found, mask := Blocks(m, bit + 1), Pow2(bit);
            && BitOr(found, mask - 1) == found + mask - 1
            && BitOr(found, mask) == found + mask == Blocks(2 * m + 1, bit)
            && found == Blocks(2 * m, bit)
            && Pow2(bit + 1) == 2 * mask
  {
    var p := Pow2(bit);
    assert m * (2 * p) == (2 * m) * p;
    assert (2 * m + 1) * p == (2 * m) * p + p;
    OrOfDisjoint(2 * m, bit, p - 1);
    OrOfDisjoint(m, bit + 1, p);
  }
}
