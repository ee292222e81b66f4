/**
 The bookkeeping of short addresses during commissioning, apart from the bus traffic: which
 addresses are free, which were handed out, and why the free ones do not run out.
 */
module Allocation {
  import opened Prelude
  import opened Sequences
  import opened SearchBus
  import opened Enumeration

  datatype DeviceAddress = DeviceAddress(short: nat, random: Random)

  /** One PROGRAM SHORT ADDRESS: the address, the random address it was for, and what there was to
      choose from; the addresses recorded for devices at that moment, those of them that had been
      recorded although they were free, and the addresses that gear held. */
  datatype Handout = Handout(
    short: nat, random: Random, free: seq<nat>, recorded: set<nat>, late: set<nat>, held: set<nat>)

  function Without(s: seq<nat>, x: nat): seq<nat>
  {
    if s == [] then [] else if s[0] == x then s[1..] else [s[0]] + Without(s[1..], x)
  }

  lemma {:induction false} WithoutHolds(s: seq<nat>, x: nat)
    requires Ascending(s)
    ensures forall y :: y in Without(s, x) <==> y in s && y != x
  {
    if s != [] {
      WithoutHolds(s[1..], x);
      assert s == [s[0]] + s[1..];
      if s[0] == x {
        assert forall i :: 0 < i < |s| ==> s[0] < s[i];
      }
    }
  }

  lemma AscendingCons(x: nat, s: seq<nat>)
    requires Ascending(s) && forall y :: y in s ==> x < y
    ensures Ascending([x] + s)
  {
    forall i, j | 0 <= i < j < |[x] + s|
      ensures ([x] + s)[i] < ([x] + s)[j]
    {
      assert ([x] + s)[j] == s[j - 1] && s[j - 1] in s;
      assert i > 0 ==> ([x] + s)[i] == s[i - 1];
    }
  }

  lemma {:induction false} WithoutAscends(s: seq<nat>, x: nat)
    requires Ascending(s)
    ensures Ascending(Without(s, x))
  {
    if s != [] && s[0] != x {
      WithoutAscends(s[1..], x);
      WithoutHolds(s[1..], x);
      assert forall y :: y in s[1..] ==> s[0] < y;
      AscendingCons(s[0], Without(s[1..], x));
    }
  }

  lemma WithoutRemoves(s: seq<nat>, x: nat)
    requires Ascending(s)
    ensures Ascending(Without(s, x))
    ensures forall y :: y in Without(s, x) <==> y in s && y != x
  {
    WithoutAscends(s, x);
    WithoutHolds(s, x);
  }

  /**
   What holds on every bus, at every moment of a run.  `present` is what answered the poll.  A
   free address was silent at the poll and was not handed out; no address is handed out twice;
   and an address collides with a recorded device exactly when that device reported it after the
   poll had missed it.
   */
  ghost predicate Safe(present: set<nat>, available: seq<nat>, recorded: set<nat>, late: set<nat>, log: seq<Handout>)
  {
    && Ascending(available)
    && (forall s :: s in available ==> s <= MAX_SHORT && s !in present && (s in recorded <==> s in late))
    && late <= recorded
    && (forall k :: 0 <= k < |log| ==>
          && log[k].short <= MAX_SHORT && log[k].short !in present && log[k].short !in available
          && (log[k].short in log[k].recorded <==> log[k].short in log[k].late))
    && (forall j, k :: 0 <= j < k < |log| ==> log[j].short != log[k].short)
  }

  lemma SafeHandOut(present: set<nat>, available: seq<nat>, recorded: set<nat>, late: set<nat>, log: seq<Handout>,
                    h: Handout)
    requires Safe(present, available, recorded, late, log)
    requires h.short in available && h.recorded == recorded && h.late == late
    ensures Safe(present, Without(available, h.short), recorded, late, log)
    ensures Safe(present, Without(available, h.short), recorded, late, log + [h])
  {
    WithoutRemoves(available, h.short);
  }

  lemma SafeRecord(present: set<nat>, available: seq<nat>, recorded: set<nat>, late: set<nat>, log: seq<Handout>,
                   s: nat)
    requires Safe(present, available, recorded, late, log)
    ensures Safe(present, available, recorded + {s}, if s in available then late + {s} else late, log)
  {
  }

  // --- On a bus where every answer arrives and every command is obeyed ---

  /** No two devices share a random address, those that have none apart. */
  ghost predicate DistinctRandoms(ds: seq<Device>)
  {
    forall i, j :: 0 <= i < j < |ds| ==> ds[i].random != ds[j].random || ds[i].random == UNSET_RANDOM
  }

  ghost predicate AllSet(ds: seq<Device>)
  {
    forall i :: 0 <= i < |ds| ==> ds[i].random != UNSET_RANDOM
  }

  /** Device `i` has a random address that no other device has. */
  ghost predicate UniqueRandom(ds: seq<Device>, i: nat)
    requires i < |ds|
  {
    ds[i].random != UNSET_RANDOM && forall j :: 0 <= j < |ds| && j != i ==> ds[j].random != ds[i].random
  }

  /** Device `i` has no short address and no random address that tells it from others: it has to draw
      one before it can be addressed. */
  ghost predicate Spare(ds: seq<Device>, i: nat)
    requires i < |ds|
  {
    ds[i].short == MASK && !UniqueRandom(ds, i)
  }

  ghost predicate NoSpare(ds: seq<Device>)
  {
    forall i :: 0 <= i < |ds| ==> !Spare(ds, i)
  }

  /** Device `i` has the random address of device `j`, which has a short address of its own. */
  ghost predicate Duplicates(ds: seq<Device>, i: nat, j: nat)
  {
    && i < |ds| && j < |ds| && ds[i].short == MASK && ds[i].random == ds[j].random && UniqueShort(ds, j)
  }

  /** At most 64 devices.  Those with a short address have a valid one and random addresses of their own;
      any other has a random address of its own, has none, or duplicates one of the former. */
  ghost predicate Tidy(ds: seq<Device>)
  {
    && |ds| <= 64
    && (forall i :: 0 <= i < |ds| ==>
          ds[i].short == MASK || (ds[i].short <= MAX_SHORT && ds[i].random != UNSET_RANDOM))
    && (forall i, j :: 0 <= i < j < |ds| && ds[i].short != MASK && ds[j].short != MASK
          ==> ds[i].random != ds[j].random)
    && (forall i :: 0 <= i < |ds| && Spare(ds, i) && ds[i].random != UNSET_RANDOM
          ==> exists j: nat :: Duplicates(ds, i, j))
  }

  function Shorts(ds: seq<Device>): (ss: set<nat>)
    ensures forall i :: 0 <= i < |ds| ==> ds[i].short in ss
  {
    set d | d in ds :: d.short
  }

  /** No other device has the short address of device `i`. */
  ghost predicate UniqueShort(ds: seq<Device>, i: nat)
    requires i < |ds|
  {
    ds[i].short <= MAX_SHORT && forall j :: 0 <= j < |ds| && j != i ==> ds[j].short != ds[i].short
  }

  /** Device `i` once it is processed: recorded at the valid address it now has, which is its own
      or one nobody had, and its own if that was unique. */
  ghost predicate Settled(ds0: seq<Device>, d: Device, found: map<nat, Random>, i: nat)
    requires i < |ds0|
  {
    && d.short <= MAX_SHORT && d.short in found && found[d.short] == d.random
    && (ds0[i].short <= MAX_SHORT ==> ds0[i].short in found)
    && (d.short == ds0[i].short || (d.short !in Shorts(ds0) && !UniqueShort(ds0, i)))
  }

  ghost predicate Holds(ds: seq<Device>, done: set<Random>, s: nat, r: Random)
  {
    exists i :: 0 <= i < |ds| && ds[i].short == s && ds[i].random == r && r in done
  }

  /** `ds` is the bus after the random addresses in `done` were processed, starting from `ds0`.  Spare gear
      is left as it is. */
  ghost predicate Ledger(ds0: seq<Device>, ds: seq<Device>, found: map<nat, Random>, done: set<Random>)
  {
    && |ds| == |ds0|
    && (forall i :: 0 <= i < |ds| ==>
          && ds[i].random == ds0[i].random
          && (if ds[i].random in done && !Spare(ds0, i) then Settled(ds0, ds[i], found, i)
              else ds[i].short == ds0[i].short))
    && (forall s :: s in found ==> s <= MAX_SHORT && Holds(ds, done, s, found[s]))
  }

  ghost predicate FreeExactly(ds0: seq<Device>, found: map<nat, Random>, available: seq<nat>)
  {
    && Ascending(available)
    && forall s: nat :: s in available <==> s <= MAX_SHORT && s !in Shorts(ds0) && s !in found
  }

  /** The device at index `i` has none of its own to keep: unset, or recorded for another. */
  ghost predicate NeedsAddress(ds0: seq<Device>, found: map<nat, Random>, i: nat)
    requires i < |ds0|
  {
    ds0[i].short == MASK || ds0[i].short in found
  }

  function Readdress(ds: seq<Device>, a: nat, s: nat): (ds': seq<Device>)
    ensures |ds'| == |ds|
  {
    seq(|ds|, i requires 0 <= i < |ds| => if Selected(ds[i], a) then ds[i].(short := s) else ds[i])
  }

  lemma LedgerStarts(ds0: seq<Device>, ds: seq<Device>)
    requires |ds| == |ds0|
    requires forall i :: 0 <= i < |ds| ==> ds[i].random == ds0[i].random && ds[i].short == ds0[i].short
    ensures Ledger(ds0, ds, map[], {})
  {
  }

  /** A random address that only spare gear has changes nothing. */
  lemma LedgerSkips(ds0: seq<Device>, ds: seq<Device>, found: map<nat, Random>, done: set<Random>, a: Random)
    requires Ledger(ds0, ds, found, done)
    requires forall i :: 0 <= i < |ds0| && ds0[i].random == a ==> Spare(ds0, i)
    ensures Ledger(ds0, ds, found, done + {a})
  {
    forall s | s in found
      ensures Holds(ds, done + {a}, s, found[s])
    {
      assert Holds(ds, done, s, found[s]);
    }
  }

  lemma LedgerKeeps(ds0: seq<Device>, ds: seq<Device>, found: map<nat, Random>, done: set<Random>, i: nat)
    requires Tidy(ds0) && Ledger(ds0, ds, found, done)
    requires i < |ds| && ds[i].random !in done && ds0[i].short <= MAX_SHORT && ds0[i].short !in found
    ensures Ledger(ds0, ds, found[ds0[i].short := ds[i].random], done + {ds[i].random})
  {
    var a, s := ds[i].random, ds0[i].short;
    var found' := found[s := a];
    forall t | t in found'
      ensures Holds(ds, done + {a}, t, found'[t])
    {
      assert t != s ==> Holds(ds, done, t, found[t]);
      assert t == s ==> ds[i].short == s;
    }
  }

  /** Whoever is recorded at an address that was on the bus had it from the start. */
  lemma RecordedHolderKept(ds0: seq<Device>, ds: seq<Device>, found: map<nat, Random>, done: set<Random>, i: nat)
    requires Ledger(ds0, ds, found, done)
    requires i < |ds| && ds[i].random !in done && ds0[i].short <= MAX_SHORT && ds0[i].short in found
    ensures !UniqueShort(ds0, i)
  {
    var s := ds0[i].short;
    assert Holds(ds, done, s, found[s]);
    var j :| 0 <= j < |ds| && ds[j].short == s && ds[j].random == found[s] && found[s] in done;
    assert Settled(ds0, ds[j], found, j);
  }

  lemma SettledStays(ds0: seq<Device>, d: Device, found: map<nat, Random>, j: nat, s: nat, a: Random)
    requires j < |ds0| && Settled(ds0, d, found, j) && s !in found
    ensures Settled(ds0, d, found[s := a], j)
  {
  }

  lemma HoldsStays(ds: seq<Device>, ds': seq<Device>, done: set<Random>, s: nat, r: Random, a: Random)
    requires Holds(ds, done, s, r) && |ds'| == |ds| && r != a
    requires forall j :: 0 <= j < |ds| && ds[j].random != a ==> ds'[j] == ds[j]
    ensures Holds(ds', done + {a}, s, r)
  {
    var j :| 0 <= j < |ds| && ds[j].short == s && ds[j].random == r && r in done;
    assert ds'[j] == ds[j];
  }

  lemma DuplicatedIsUnique(ds: seq<Device>, i: nat, j: nat)
    requires Tidy(ds) && i < |ds| && j < |ds| && i != j && ds[i].random == ds[j].random && ds[j].short != MASK
    ensures UniqueShort(ds, j)
  {
    assert Spare(ds, i);
    var k: nat :| Duplicates(ds, i, k);
  }

  /** A device that needs an address, and is not spare, has a random address of its own. */
  lemma NeedyIsUnique(ds0: seq<Device>, ds: seq<Device>, found: map<nat, Random>, done: set<Random>, i: nat)
    requires Tidy(ds0) && Ledger(ds0, ds, found, done)
    requires i < |ds| && ds[i].random !in done && NeedsAddress(ds0, found, i) && !Spare(ds0, i)
    ensures UniqueRandom(ds0, i)
  {
    if ds0[i].short != MASK {
      RecordedHolderKept(ds0, ds, found, done, i);
      forall j | 0 <= j < |ds0| && j != i
        ensures ds0[j].random != ds0[i].random
      {
        if ds0[j].random == ds0[i].random {
          DuplicatedIsUnique(ds0, j, i);
        }
      }
    }
  }

  lemma LedgerAssigns(ds0: seq<Device>, ds: seq<Device>, found: map<nat, Random>, done: set<Random>, i: nat, s: nat)
    requires Tidy(ds0) && Ledger(ds0, ds, found, done)
    requires i < |ds| && ds[i].random !in done && ds[i].mode != Disabled && NeedsAddress(ds0, found, i)
    requires UniqueRandom(ds0, i)
    requires s <= MAX_SHORT && s !in Shorts(ds0) && s !in found
    ensures Ledger(ds0, Readdress(ds, ds[i].random, s), found[s := ds[i].random], done + {ds[i].random})
  {
    var a, ds' := ds[i].random, Readdress(ds, ds[i].random, s);
    var found' := found[s := a];
    assert Settled(ds0, ds'[i], found', i) by {
      if ds0[i].short != MASK {
        RecordedHolderKept(ds0, ds, found, done, i);
      }
    }
    forall j | 0 <= j < |ds| && ds[j].random in done && !Spare(ds0, j)
      ensures Settled(ds0, ds'[j], found', j)
    {
      SettledStays(ds0, ds[j], found, j, s, a);
    }
    forall t | t in found'
      ensures Holds(ds', done + {a}, t, found'[t])
    {
      if t == s {
        assert ds'[i].short == s;
      } else {
        assert Holds(ds, done, t, found[t]);
        HoldsStays(ds, ds', done, t, found[t], a);
      }
    }
  }

  lemma {:induction false} FewerShortsThanDevices(ds: seq<Device>)
    ensures |Shorts(ds)| <= |ds|
  {
    if ds == [] {
      assert Shorts(ds) == {};
    } else {
      FewerShortsThanDevices(ds[1..]);
      assert Shorts(ds) == {ds[0].short} + Shorts(ds[1..]);
    }
  }

  function UpTo(n: nat): (r: set<nat>)
    ensures |r| == n && forall s: nat :: s in r <==> s < n
  {
    if n == 0 then {} else UpTo(n - 1) + {n - 1}
  }

  /**
   The pigeonhole argument: while a device of at most 64 still needs an address, one is free.
   Were none free, every one of the 64 addresses would be held by one of the other devices.
   */
  lemma AddressesDoNotRunOut(ds0: seq<Device>, ds: seq<Device>, found: map<nat, Random>, done: set<Random>,
                             available: seq<nat>, i: nat)
    requires Tidy(ds0) && Ledger(ds0, ds, found, done) && FreeExactly(ds0, found, available)
    requires i < |ds| && ds[i].random !in done && NeedsAddress(ds0, found, i)
    ensures available != []
  {
    if available == [] {
      var others := ds[..i] + ds[i + 1..];
      forall s: nat | s < MAX_SHORT + 1
        ensures s in Shorts(others)
      {
        assert s !in available;
        var j := HeldByAnother(ds0, ds, found, done, i, s);
        assert ds[j] in others by {
          assert j < i ==> others[j] == ds[j];
          assert j > i ==> others[j - 1] == ds[j];
        }
      }
      SubsetCount(UpTo(MAX_SHORT + 1), Shorts(others));
      FewerShortsThanDevices(others);
      assert false;
    }
  }

  lemma HeldByAnother(ds0: seq<Device>, ds: seq<Device>, found: map<nat, Random>, done: set<Random>, i: nat, s: nat)
    returns (j: nat)
    requires Ledger(ds0, ds, found, done)
    requires i < |ds| && ds[i].random !in done && NeedsAddress(ds0, found, i)
    requires s <= MAX_SHORT && (s in Shorts(ds0) || s in found)
    ensures j < |ds| && j != i && ds[j].short == s
  {
    if s in found {
      assert Holds(ds, done, s, found[s]);
      j :| 0 <= j < |ds| && ds[j].short == s && ds[j].random == found[s] && found[s] in done;
    } else {
      var d :| d in ds0 && d.short == s;
      j :| 0 <= j < |ds0| && ds0[j] == d;
      assert ds[j].random !in done;
    }
  }

  /** Nobody whose short address was unique has lost it. */
  ghost predicate KeepsUnique(ds0: seq<Device>, ds: seq<Device>)
  {
    |ds| == |ds0| && forall i :: 0 <= i < |ds| && UniqueShort(ds0, i) ==> ds[i].short == ds0[i].short
  }

  /** Device `i` has a random address, and only gear without a short address shares it, if the device
      has one. */
  ghost predicate OwnRandom(ds: seq<Device>, i: nat)
    requires i < |ds|
  {
    && ds[i].random != UNSET_RANDOM
    && forall j :: 0 <= j < |ds| && j != i && ds[j].random == ds[i].random ==>
         ds[i].short != MASK && ds[j].short == MASK
  }

  /** Everybody processed: the record is the bus, no two devices share a short or a random address and
      all have both, and a short address that was unique is the same still, as is a device's own random
      address. */
  ghost predicate Addressed(ds0: seq<Device>, ds: seq<Device>, found: map<nat, Random>)
  {
    && |ds| == |ds0|
    && DistinctRandoms(ds) && AllSet(ds)
    && (forall i :: 0 <= i < |ds| ==>
          && (OwnRandom(ds0, i) ==> ds[i].random == ds0[i].random)
          && ds[i].short <= MAX_SHORT && ds[i].short in found && found[ds[i].short] == ds[i].random)
    && KeepsUnique(ds0, ds)
    && (forall s :: s in found ==> exists i :: 0 <= i < |ds| && ds[i].short == s)
    && (forall i, j :: 0 <= i < j < |ds| ==> ds[i].short != ds[j].short)
  }

  lemma NoSpareIsDistinct(ds: seq<Device>)
    requires Tidy(ds) && NoSpare(ds)
    ensures DistinctRandoms(ds) && AllSet(ds)
  {
    forall i | 0 <= i < |ds|
      ensures ds[i].random != UNSET_RANDOM
      ensures forall j :: 0 <= j < |ds| && j != i ==> ds[j].random != ds[i].random
    {
      assert !Spare(ds, i);
      assert forall j :: 0 <= j < |ds| ==> !Spare(ds, j);
    }
  }

  lemma DistinctIsNoSpare(ds: seq<Device>)
    requires DistinctRandoms(ds) && AllSet(ds)
    ensures NoSpare(ds)
  {
  }

  lemma LedgerComplete(ds0: seq<Device>, ds: seq<Device>, found: map<nat, Random>, done: set<Random>)
    requires Tidy(ds0) && Ledger(ds0, ds, found, done)
    requires NoSpare(ds0) && forall i :: 0 <= i < |ds| ==> ds[i].random in done
    ensures Addressed(ds0, ds, found)
  {
    NoSpareIsDistinct(ds0);
    hide Tidy, NoSpare, Spare;
    forall i | 0 <= i < |ds|
      ensures Settled(ds0, ds[i], found, i)
    {
      NotSpare(ds0, i);
    }
    forall s | s in found
      ensures exists i :: 0 <= i < |ds| && ds[i].short == s
    {
      assert Holds(ds, done, s, found[s]);
    }
  }

  lemma NotSpare(ds: seq<Device>, i: nat)
    requires NoSpare(ds) && i < |ds|
    ensures !Spare(ds, i)
  {
  }
}
