/**
 What the re-rolling of the poll makes of a bus.  `Separable` is the exact condition under which it
 leaves a tidy one.
 */
module Rerolling {
  import opened Sequences
  import opened SearchBus
  import opened Enumeration
  import opened Allocation
  import opened Classification
  import opened Exactness
  import opened Polling

  ghost predicate AgreedAt(ds: seq<Device>, i: nat)
    requires i < |ds|
  {
    ds[i].short <= MAX_SHORT && Agreed(ds, ds[i].short, ds[i])
  }

  /** The random address of device `i` can be read, and it is unset or read at another short address too. */
  ghost predicate IsRerolled(ds: seq<Device>, i: nat)
    requires i < |ds|
  {
    && AgreedAt(ds, i)
    && (ds[i].random == UNSET_RANDOM
        || exists j :: 0 <= j < |ds| && AgreedAt(ds, j) && ds[j].short != ds[i].short && ds[j].random == ds[i].random)
  }

  /** Device `i` has no short address and the random address, not to be re-rolled, of device `j`. */
  ghost predicate SharesKept(ds: seq<Device>, i: nat, j: nat)
  {
    && i < |ds| && j < |ds| && i != j && ds[i].short == MASK && ds[i].random == ds[j].random && !IsRerolled(ds, j)
  }

  /** At most 64 devices with a valid short address or none.  Of those with one that are not re-rolled,
      none lacks a random address and no two share one; and one without, if it shares a random address
      that is not re-rolled, shares it with a device that has a short address of its own. */
  ghost predicate Separable(ds: seq<Device>)
  {
    && |ds| <= MAX_SHORT + 1
    && (forall i :: 0 <= i < |ds| ==> ds[i].short <= MAX_SHORT || ds[i].short == MASK)
    && (forall i :: 0 <= i < |ds| && !IsRerolled(ds, i) ==> ds[i].short == MASK || ds[i].random != UNSET_RANDOM)
    && (forall i, j :: 0 <= i < j < |ds| && !IsRerolled(ds, i) && !IsRerolled(ds, j) && ds[i].short != MASK
          ==> ds[j].short == MASK || ds[i].random != ds[j].random)
    && (forall i: nat, j: nat :: SharesKept(ds, i, j) && ds[i].random != UNSET_RANDOM
          ==> exists k: nat :: SharesKept(ds, i, k) && UniqueShort(ds, k))
  }

  /** The device whose random address is duplicated is stored with both its addresses. */
  ghost predicate Backed(ds: seq<Device>, stored: seq<DeviceAddress>)
  {
    forall i: nat, j: nat :: SharesKept(ds, i, j) && UniqueShort(ds, j)
      ==> DeviceAddress(ds[j].short, ds[j].random) in stored
  }

  /** What a run needs to address the whole bus: only COMPARE answers get lost, the poll and the stored
      devices can tell the gear apart, and where gear has to draw, the draws are new. */
  ghost predicate Addressable(w: World, stored: seq<DeviceAddress>, ds0: seq<Device>)
  {
    && Faithful(w) && Separable(ds0) && Backed(ds0, stored)
    && (NewDraws(w, ds0) || (DistinctRandoms(ds0) && AllSet(ds0)))
  }

  /** Gear with short addresses of its own can be told apart whatever its random addresses are. */
  lemma OwnShortsAreSeparable(ds: seq<Device>)
    requires |ds| <= MAX_SHORT + 1 && forall i :: 0 <= i < |ds| ==> UniqueShort(ds, i)
    ensures Separable(ds)
  {
    forall i | 0 <= i < |ds|
      ensures AgreedAt(ds, i) && forall j :: 0 <= j < |ds| && j != i ==> ds[j].short != ds[i].short
    {
      assert UniqueShort(ds, i);
    }
  }

  /** Every such bus can be addressed in some world. */
  lemma SeparableCanBeAddressed(ds0: seq<Device>, stored: seq<DeviceAddress>) returns (w: World)
    requires Separable(ds0) && Backed(ds0, stored)
    ensures Addressable(w, stored, ds0) && Lossless(w)
  {
    w := DrawsCanBeNew(ds0);
  }

  // --- The readings ---

  lemma {:induction false} CountedTwice(rs: seq<Random>, r: Random) returns (i: nat, j: nat)
    requires multiset(rs)[r] > 1
    ensures i < j < |rs| && rs[i] == r && rs[j] == r
  {
    var front, last := rs[..|rs| - 1], rs[|rs| - 1];
    assert rs == front + [last];
    if last == r {
      assert r in multiset(front);
      i :| 0 <= i < |front| && front[i] == r;
      j := |front|;
    } else {
      i, j := CountedTwice(front, r);
    }
  }

  /** `known` is what the poll reads at the short addresses that answer. */
  ghost predicate Readings(ds: seq<Device>, known: seq<DeviceAddress>)
  {
    && DistinctShorts(known) && ReadFrom(ds, known) && (forall a :: a in known ==> a.short <= MAX_SHORT)
    && forall i :: 0 <= i < |ds| && AgreedAt(ds, i) ==> DeviceAddress(ds[i].short, ds[i].random) in known
  }

  lemma ReadIsAgreed(ds: seq<Device>, known: seq<DeviceAddress>, a: DeviceAddress) returns (j: nat)
    requires Readings(ds, known) && a in known
    ensures j < |ds| && AgreedAt(ds, j) && ds[j].short == a.short && ds[j].random == a.random
  {
    var d :| d in ds && Agreed(ds, a.short, d) && d.random == a.random;
    j :| 0 <= j < |ds| && ds[j] == d;
  }

  lemma AmbiguousMeansRerolled(ds: seq<Device>, known: seq<DeviceAddress>, a: DeviceAddress, i: nat)
    requires Readings(ds, known) && a in known && i < |ds| && ds[i].short == a.short
    requires Ambiguous(multiset(RandomsOf(known)), a)
    ensures IsRerolled(ds, i)
  {
    var j := ReadIsAgreed(ds, known, a);
    assert ds[i] in ds && ds[i].random == a.random;
    if a.random != UNSET_RANDOM {
      var p, q := CountedTwice(RandomsOf(known), a.random);
      var other := if known[p].short == a.short then known[q] else known[p];
      assert other in known && other.short != a.short && other.random == a.random;
      var k := ReadIsAgreed(ds, known, other);
    }
  }

  lemma RerolledMeansAmbiguous(ds: seq<Device>, known: seq<DeviceAddress>, i: nat)
    requires Readings(ds, known) && i < |ds| && IsRerolled(ds, i)
    ensures DeviceAddress(ds[i].short, ds[i].random) in known
    ensures Ambiguous(multiset(RandomsOf(known)), DeviceAddress(ds[i].short, ds[i].random))
  {
    var a := DeviceAddress(ds[i].short, ds[i].random);
    if ds[i].random != UNSET_RANDOM {
      var j :| 0 <= j < |ds| && AgreedAt(ds, j) && ds[j].short != ds[i].short && ds[j].random == ds[i].random;
      var b := DeviceAddress(ds[j].short, ds[j].random);
      var p :| 0 <= p < |known| && known[p] == a;
      var q :| 0 <= q < |known| && known[q] == b;
      assert RandomsOf(known)[p] == RandomsOf(known)[q];
      if multiset(RandomsOf(known))[a.random] <= 1 {
        OnceOnly(RandomsOf(known), if p < q then p else q, if p < q then q else p);
      }
    }
  }

  /** RANDOMISE is sent to the short address of a device exactly when it is to be re-rolled. */
  lemma SentExactlyWhen(ds: seq<Device>, known: seq<DeviceAddress>, i: nat)
    requires Readings(ds, known) && i < |ds|
    ensures ds[i].short in Rerolled(multiset(RandomsOf(known)), known) <==> IsRerolled(ds, i)
  {
    var f := multiset(RandomsOf(known));
    if ds[i].short in Rerolled(f, known) {
      var a :| a in known && Ambiguous(f, a) && a.short == ds[i].short;
      AmbiguousMeansRerolled(ds, known, a, i);
    }
    if IsRerolled(ds, i) {
      RerolledMeansAmbiguous(ds, known, i);
    }
  }

  /** What is read at every short address that answers. */
  lemma PollReads(ds: seq<Device>, shorts: seq<nat>, known: seq<DeviceAddress>)
    requires forall s: nat :: s in shorts <==> s <= MAX_SHORT && s in Shorts(ds)
    requires DistinctShorts(known) && ReadFrom(ds, known) && forall a :: a in known ==> a.short in shorts
    requires forall k :: 0 <= k < |shorts| ==> ReadAt(ds, shorts[k], known)
    ensures Readings(ds, known)
  {
    forall i | 0 <= i < |ds| && AgreedAt(ds, i)
      ensures DeviceAddress(ds[i].short, ds[i].random) in known
    {
      assert ds[i].short in shorts;
      var k :| 0 <= k < |shorts| && shorts[k] == ds[i].short;
      assert ReadAt(ds, shorts[k], known) && ds[i] in ds;
    }
  }

  lemma {:induction false} SentOnce(f: multiset<Random>, known: seq<DeviceAddress>)
    requires DistinctShorts(known)
    ensures NoDup(Rerolled(f, known))
  {
    hide Ambiguous;
    if known != [] {
      var front, last := known[..|known| - 1], known[|known| - 1];
      SentOnce(f, front);
      assert forall a :: a in front ==> a.short != last.short;
      assert last.short !in Rerolled(f, front);
    }
  }

  lemma {:induction false} KeptOnce(f: multiset<Random>, known: seq<DeviceAddress>)
    requires DistinctShorts(known)
    ensures DistinctShorts(Unambiguous(f, known))
  {
    hide Ambiguous;
    if known != [] {
      var front, last := known[..|known| - 1], known[|known| - 1];
      KeptOnce(f, front);
      assert forall a :: a in front ==> a.short != last.short;
      assert forall a :: a in Unambiguous(f, front) ==> a in front;
    }
  }

  // --- The bus after it ---

  /** Exactly the gear that `IsRerolled` names has drawn. */
  ghost predicate RerolledTo(w: World, ds0: seq<Device>, ds1: seq<Device>)
  {
    |ds1| == |ds0| && forall i :: 0 <= i < |ds0| ==>
      && ds1[i].short == ds0[i].short
      && if IsRerolled(ds0, i) then Drew(w, i, ds1[i].random) else ds1[i].random == ds0[i].random
  }

  lemma ReadingsReroll(w: World, ds0: seq<Device>, ds1: seq<Device>, known: seq<DeviceAddress>)
    requires Readings(ds0, known) && DrewAt(w, ds0, ds1, Rerolled(multiset(RandomsOf(known)), known))
    ensures RerolledTo(w, ds0, ds1)
  {
    forall i | 0 <= i < |ds0|
      ensures ds0[i].short in Rerolled(multiset(RandomsOf(known)), known) <==> IsRerolled(ds0, i)
    {
      SentExactlyWhen(ds0, known, i);
    }
  }

  lemma RerolledDiffers(w: World, ds0: seq<Device>, ds1: seq<Device>, i: nat)
    requires RerolledTo(w, ds0, ds1) && NewDraws(w, ds0) && i < |ds0| && IsRerolled(ds0, i)
    ensures ds1[i].random != UNSET_RANDOM && ds0[i].short <= MAX_SHORT
    ensures forall j :: 0 <= j < |ds0| && j != i ==> ds1[j].random != ds1[i].random && ds0[j].random != ds1[i].random
  {
  }

  /** After the re-rolling, gear without a short address duplicates what it duplicated and was kept. */
  lemma DuplicatesAfter(w: World, ds0: seq<Device>, ds1: seq<Device>, i: nat, j: nat)
    requires RerolledTo(w, ds0, ds1) && NewDraws(w, ds0) && i < |ds0| && j < |ds0| && i != j && ds0[i].short == MASK
    ensures ds1[i].random == ds0[i].random
    ensures ds1[j].random == ds1[i].random <==> SharesKept(ds0, i, j)
    ensures Duplicates(ds1, i, j) <==> SharesKept(ds0, i, j) && UniqueShort(ds0, j)
  {
    hide NewDraws, Drew;
    MaskIsNotRerolled(ds0, i);
    if IsRerolled(ds0, j) {
      RerolledDiffers(w, ds0, ds1, j);
    }
    assert UniqueShort(ds1, j) <==> UniqueShort(ds0, j);
  }

  lemma MaskIsNotRerolled(ds: seq<Device>, i: nat)
    requires i < |ds| && ds[i].short == MASK
    ensures !IsRerolled(ds, i)
  {
  }

  lemma SpareAfter(w: World, ds0: seq<Device>, ds1: seq<Device>, i: nat)
    requires RerolledTo(w, ds0, ds1) && NewDraws(w, ds0) && i < |ds0| && ds0[i].short == MASK
    ensures Spare(ds1, i) && ds1[i].random != UNSET_RANDOM
            <==> ds0[i].random != UNSET_RANDOM && exists j: nat :: SharesKept(ds0, i, j)
    ensures (exists j: nat :: Duplicates(ds1, i, j)) <==> exists k: nat :: SharesKept(ds0, i, k) && UniqueShort(ds0, k)
  {
    hide NewDraws, Drew, IsRerolled;
    forall j: nat | j < |ds0| && j != i
      ensures ds1[i].random == ds0[i].random
      ensures ds1[j].random == ds1[i].random <==> SharesKept(ds0, i, j)
      ensures Duplicates(ds1, i, j) <==> SharesKept(ds0, i, j) && UniqueShort(ds0, j)
    {
      DuplicatesAfter(w, ds0, ds1, i, j);
    }
    MaskIsNotRerolled(ds0, i);
    if j: nat :| SharesKept(ds0, i, j) && UniqueShort(ds0, j) {
      assert Duplicates(ds1, i, j);
    }
    if j: nat :| Duplicates(ds1, i, j) {
      assert j != i;
    }
  }

  lemma RerolledIsTidy(w: World, ds0: seq<Device>, ds1: seq<Device>)
    requires RerolledTo(w, ds0, ds1) && NewDraws(w, ds0)
    ensures Tidy(ds1) <==> Separable(ds0)
    ensures NewDraws(w, ds1) && Repolled(ds0, ds1)
  {
    RerolledKeeps(w, ds0, ds1);
    hide NewDraws, Drew, Spare, IsRerolled, SharesKept, Duplicates;
    forall i | 0 <= i < |ds0| && ds0[i].short == MASK
      ensures Spare(ds1, i) && ds1[i].random != UNSET_RANDOM
              <==> ds0[i].random != UNSET_RANDOM && exists j: nat :: SharesKept(ds0, i, j)
      ensures (exists j: nat :: Duplicates(ds1, i, j))
              <==> exists k: nat :: SharesKept(ds0, i, k) && UniqueShort(ds0, k)
    {
      SpareAfter(w, ds0, ds1, i);
    }
    forall i | 0 <= i < |ds0| && IsRerolled(ds0, i)
      ensures ds1[i].random != UNSET_RANDOM && ds0[i].short <= MAX_SHORT
      ensures forall j :: 0 <= j < |ds0| && j != i ==> ds1[j].random != ds1[i].random
    {
      RerolledDiffers(w, ds0, ds1, i);
    }
    SharersUnaddressed(ds0, ds1);
  }

  lemma SharersUnaddressed(ds0: seq<Device>, ds1: seq<Device>)
    ensures forall i: nat, j: nat :: SharesKept(ds0, i, j) ==> i < |ds0| && ds0[i].short == MASK
    ensures forall i: nat :: i < |ds1| && Spare(ds1, i) ==> ds1[i].short == MASK
  {
  }

  lemma RerolledKeeps(w: World, ds0: seq<Device>, ds1: seq<Device>)
    requires RerolledTo(w, ds0, ds1) && NewDraws(w, ds0)
    ensures NewDraws(w, ds1) && Repolled(ds0, ds1)
  {
  }

  /** Where draws are new, re-rolling by what was read leaves a tidy bus exactly if the one before was
      separable; the draws to come are as new for it, and no random address is lost that was one
      device's alone. */
  lemma RerollTidies(w: World, ds0: seq<Device>, ds1: seq<Device>, known: seq<DeviceAddress>)
    requires Readings(ds0, known) && DrewAt(w, ds0, ds1, Rerolled(multiset(RandomsOf(known)), known))
    requires NewDraws(w, ds0)
    ensures Tidy(ds1) <==> Separable(ds0)
    ensures NewDraws(w, ds1) && Repolled(ds0, ds1)
  {
    ReadingsReroll(w, ds0, ds1, known);
    RerolledIsTidy(w, ds0, ds1);
  }

  /** `base` is the bus of `ds0` after the poll: tidy, and with what a run needs to address it. */
  ghost predicate PolledTo(w: World, ds0: seq<Device>, base: seq<Device>)
  {
    Tidy(base) && Ready(w, base) && Repolled(ds0, base)
  }

  lemma PolledToThen(w: World, ds0: seq<Device>, base: seq<Device>, ds: seq<Device>, found: map<nat, Random>)
    requires PolledTo(w, ds0, base)
    ensures Ready(w, base) && (KeepsUnique(base, ds) <==> KeepsUnique(ds0, ds))
    ensures Addressed(base, ds, found) ==> Addressed(ds0, ds, found)
  {
    AddressedThrough(ds0, base, ds, found);
  }

  /** The devices whose random address is duplicated are stored, and known, with both their addresses. */
  ghost predicate Vouched(ds: seq<Device>, stored: seq<DeviceAddress>, known: seq<DeviceAddress>)
  {
    forall i: nat, j: nat :: Duplicates(ds, i, j) ==>
      DeviceAddress(ds[j].short, ds[j].random) in stored && DeviceAddress(ds[j].short, ds[j].random) in known
  }

  lemma UniqueIsAgreed(ds: seq<Device>, i: nat)
    requires i < |ds| && UniqueShort(ds, i)
    ensures AgreedAt(ds, i)
  {
  }

  lemma PollVouches(w: World, stored: seq<DeviceAddress>, ds0: seq<Device>, ds1: seq<Device>, first: seq<DeviceAddress>)
    requires RerolledTo(w, ds0, ds1) && NewDraws(w, ds0) && Backed(ds0, stored) && Readings(ds0, first)
    ensures Vouched(ds1, stored, Unambiguous(multiset(RandomsOf(first)), first))
  {
    hide NewDraws, Ambiguous, Readings, AgreedAt;
    var f := multiset(RandomsOf(first));
    forall i: nat, j: nat | Duplicates(ds1, i, j)
      ensures DeviceAddress(ds1[j].short, ds1[j].random) in stored
      ensures DeviceAddress(ds1[j].short, ds1[j].random) in Unambiguous(f, first)
    {
      DuplicatesAfter(w, ds0, ds1, i, j);
      UniqueIsAgreed(ds0, j);
      KeptIsRead(ds0, first, j);
    }
  }

  /** What agrees and is not re-rolled is known. */
  lemma KeptIsRead(ds: seq<Device>, first: seq<DeviceAddress>, i: nat)
    requires Readings(ds, first) && i < |ds| && AgreedAt(ds, i) && !IsRerolled(ds, i)
    ensures DeviceAddress(ds[i].short, ds[i].random) in Unambiguous(multiset(RandomsOf(first)), first)
  {
    hide IsRerolled, AgreedAt, Ambiguous;
    var a, f := DeviceAddress(ds[i].short, ds[i].random), multiset(RandomsOf(first));
    assert a in first;
    if Ambiguous(f, a) {
      AmbiguousMeansRerolled(ds, first, a, i);
    }
    UnambiguousIsKept(f, first, a);
  }

  lemma PollTidies(w: World, stored: seq<DeviceAddress>, ds0: seq<Device>, ds1: seq<Device>, shorts: seq<nat>,
                   first: seq<DeviceAddress>)
    requires Addressable(w, stored, ds0) && forall s: nat :: s in shorts <==> s <= MAX_SHORT && s in Shorts(ds0)
    requires DistinctShorts(first) && ReadFrom(ds0, first) && forall a :: a in first ==> a.short in shorts
    requires forall k :: 0 <= k < |shorts| ==> ReadAt(ds0, shorts[k], first)
    requires DrewAt(w, ds0, ds1, Rerolled(multiset(RandomsOf(first)), first))
    requires Rerolled(multiset(RandomsOf(first)), first) == [] ==> ds1 == ds0
    ensures PolledTo(w, ds0, ds1) && Tidy(ds1)
    ensures Vouched(ds1, stored, Unambiguous(multiset(RandomsOf(first)), first))
  {
    hide Ambiguous, IsRerolled, NewDraws, ReadFrom, ReadAt, Faithful, DrewAt, Tidy, Separable, Backed, Vouched;
    PollReads(ds0, shorts, first);
    if NewDraws(w, ds0) {
      ReadingsReroll(w, ds0, ds1, first);
      RerollTidies(w, ds0, ds1, first);
      PollVouches(w, stored, ds0, ds1, first);
    } else {
      SeparableIsTidy(ds0);
      ReadDistinct(ds0, first);
      CleanIsUnambiguous(first);
      NothingToVouch(ds0, stored, first);
    }
  }

  lemma NothingToVouch(ds: seq<Device>, stored: seq<DeviceAddress>, known: seq<DeviceAddress>)
    requires DistinctRandoms(ds) && AllSet(ds)
    ensures Vouched(ds, stored, known) && NoSpare(ds) && Repolled(ds, ds)
  {
  }

  /** With distinct random addresses there is nothing to re-roll. */
  lemma SeparableIsTidy(ds: seq<Device>)
    requires Separable(ds) && DistinctRandoms(ds) && AllSet(ds)
    ensures Tidy(ds)
  {
  }

  /** What the poll keeps of its first readings, and the bus it leaves. */
  lemma FirstReadings(w: World, stored: seq<DeviceAddress>, ds0: seq<Device>, ds1: seq<Device>, shorts: seq<nat>,
                      first: seq<DeviceAddress>, kept: seq<DeviceAddress>, sent: seq<nat>)
    requires DistinctShorts(first) && ReadFrom(ds0, first) && forall a :: a in first ==> a.short in shorts
    requires forall s :: s in shorts ==> s <= MAX_SHORT
    requires forall k :: 0 <= k < |shorts| ==> ReadAt(ds0, shorts[k], first)
    requires var f := multiset(RandomsOf(first)); kept == Unambiguous(f, first) && sent == Rerolled(f, first)
    requires DrewAt(w, ds0, ds1, sent) && (sent == [] ==> ds1 == ds0)
    ensures ReadFrom(ds1, kept) && DistinctRandom(kept) && DistinctShorts(kept) && NoDup(sent)
    ensures Tidy(ds0) ==> sent == []
    ensures Addressable(w, stored, ds0) && (forall s: nat :: s in shorts <==> s <= MAX_SHORT && s in Shorts(ds0))
      ==> PolledTo(w, ds0, ds1) && Tidy(ds1) && Vouched(ds1, stored, kept)
  {
    hide Ambiguous, IsRerolled, ReadAt, DrewAt, Tidy, Addressable, PolledTo, ReadOf, DistinctShorts, DistinctRandom,
      NoDup, Vouched;
    var f := multiset(RandomsOf(first));
    SentOnce(f, first);
    KeptOnce(f, first);
    UnambiguousDistinct(first, |first|);
    assert first[..|first|] == first;
    KeptStillReads(w, ds0, ds1, f, first);
    if Tidy(ds0) {
      ReadDistinct(ds0, first);
      CleanIsUnambiguous(first);
    }
    if Addressable(w, stored, ds0) && forall s: nat :: s in shorts <==> s <= MAX_SHORT && s in Shorts(ds0) {
      PollTidies(w, stored, ds0, ds1, shorts, first);
    }
  }

  /** What is known when the poll ends holds on the bus, and on a tidy one has distinct random addresses. */
  lemma BothReadings(ds: seq<Device>, first: seq<DeviceAddress>, kept: seq<DeviceAddress>, sent: seq<nat>,
                     again: seq<DeviceAddress>)
    requires DistinctShorts(first) && DistinctShorts(again)
    requires var f := multiset(RandomsOf(first)); kept == Unambiguous(f, first) && sent == Rerolled(f, first)
    requires forall a :: a in first ==> a.short <= MAX_SHORT
    requires forall a :: a in again ==> a.short in sent
    requires ReadFrom(ds, kept) && ReadFrom(ds, again)
    ensures ReadFrom(ds, kept + again) && DistinctShorts(kept + again)
    ensures Tidy(ds) ==> DistinctRandom(kept + again)
  {
    var f := multiset(RandomsOf(first));
    KeptOnce(f, first);
    forall i, j | 0 <= i < |kept| && 0 <= j < |again|
      ensures kept[i].short != again[j].short
    {
      assert kept[i] in kept && again[j] in again;
      KeptIsNotRerolled(f, first, kept[i]);
    }
    if Tidy(ds) {
      ReadDistinct(ds, kept + again);
    }
  }

  /** Nothing that can be read is left out: what has drawn is read again. */
  lemma AllRead(w: World, ds: seq<Device>, ds': seq<Device>, shorts: seq<nat>, first: seq<DeviceAddress>,
                kept: seq<DeviceAddress>, sent: seq<nat>, again: seq<DeviceAddress>)
    requires DrewAt(w, ds, ds', sent)
    requires var f := multiset(RandomsOf(first)); kept == Unambiguous(f, first) && sent == Rerolled(f, first)
    requires forall k :: 0 <= k < |shorts| ==> ReadAt(ds, shorts[k], first)
    requires forall k :: 0 <= k < |sent| ==> ReadAt(ds', sent[k], again)
    ensures forall k :: 0 <= k < |shorts| ==> ReadAt(ds', shorts[k], kept + again)
  {
    forall k, d | 0 <= k < |shorts| && d in ds' && Agreed(ds', shorts[k], d)
      ensures DeviceAddress(shorts[k], d.random) in kept + again
    {
      var s := shorts[k];
      if s in sent {
        var n :| 0 <= n < |sent| && sent[n] == s;
        assert ReadAt(ds', sent[n], again);
      } else {
        var i :| 0 <= i < |ds'| && ds'[i] == d;
        forall e | e in ds && e.short == s
          ensures e.random == d.random
        {
          var j :| 0 <= j < |ds| && ds[j] == e;
          assert ds'[j] in ds';
        }
        assert Agreed(ds, s, ds[i]) && ReadAt(ds, shorts[k], first);
        UnambiguousIsKept(multiset(RandomsOf(first)), first, DeviceAddress(s, d.random));
      }
    }
  }

  // --- Whom the run trusts with a shared random address ---

  /** The short addresses that the configuration holds for `random` and the poll confirmed. */
  ghost function ConfirmedBy(stored: seq<DeviceAddress>, polled: map<nat, Random>, random: Random): set<nat>
  {
    set d | d in stored && d.random == random && d.short in polled && polled[d.short] == random :: d.short
  }

  /** Of each random address that is duplicated, exactly the device with a short address is confirmed. */
  ghost predicate Trusts(stored: seq<DeviceAddress>, polled: map<nat, Random>, ds: seq<Device>)
  {
    forall a: Random, s: nat :: DuplicatedAt(ds, a, s) ==> ConfirmedBy(stored, polled, a) == {s}
  }

  lemma VouchedIsTrusted(stored: seq<DeviceAddress>, known: seq<DeviceAddress>, polled: map<nat, Random>,
                         ds: seq<Device>)
    requires Tidy(ds) && Vouched(ds, stored, known)
    requires forall a :: a in known ==> a.short in polled && polled[a.short] == a.random
    requires forall s: nat :: s in polled ==>
      s <= MAX_SHORT && exists d :: d in ds && d.short == s && d.random == polled[s]
    ensures Trusts(stored, polled, ds)
  {
    forall a: Random, s: nat | DuplicatedAt(ds, a, s)
      ensures ConfirmedBy(stored, polled, a) == {s}
    {
      var i: nat, j: nat :| Duplicates(ds, i, j) && ds[j].random == a && ds[j].short == s;
      assert DeviceAddress(s, a) in stored && DeviceAddress(s, a) in known;
      forall t | t in ConfirmedBy(stored, polled, a)
        ensures t == s
      {
        var d :| d in ds && d.short == t && d.random == polled[t];
        var k :| 0 <= k < |ds| && ds[k] == d;
      }
    }
  }
}
