/** The comparison of the stored devices with the found ones, and the device list rebuilt from it
    (the end of `smart_extend`, `_update_dali_devices`). */
module Classification {
  import opened Sequences
  import opened SearchBus
  import opened Allocation

  /** A device at a new short address: what it is now, and the short address it had. */
  datatype ChangedDevice = ChangedDevice(now: DeviceAddress, oldShort: nat) {
    function Before(): DeviceAddress
    {
      DeviceAddress(oldShort, now.random)
    }
  }

  datatype CommissioningResult = CommissioningResult(
    kept: seq<DeviceAddress>,
    changed: seq<ChangedDevice>,
    missing: seq<DeviceAddress>,
    added: seq<DeviceAddress>)

  function ShortOf(d: DeviceAddress): int
  {
    d.short
  }

  function RandomOf(d: DeviceAddress): int
  {
    d.random
  }

  /** The items of a dictionary keyed by short address. */
  ghost predicate DistinctShorts(items: seq<DeviceAddress>)
  {
    forall i, j :: 0 <= i < j < |items| ==> items[i].short != items[j].short
  }

  ghost predicate DistinctRandom(items: seq<DeviceAddress>)
  {
    forall i, j :: 0 <= i < j < |items| ==> items[i].random != items[j].random
  }

  /** `{rand: short for short, rand in items}`: a later item wins. */
  function ByRandom(items: seq<DeviceAddress>): map<Random, nat>
  {
    if items == [] then map[]
    else var last := items[|items| - 1]; ByRandom(items[..|items| - 1])[last.random := last.short]
  }

  lemma {:induction false} ByRandomHolds(items: seq<DeviceAddress>, r: Random)
    ensures r in ByRandom(items) <==> exists d :: d in items && d.random == r
    ensures r in ByRandom(items) ==> DeviceAddress(ByRandom(items)[r], r) in items
  {
    if items != [] {
      var front := items[..|items| - 1];
      assert items == front + [items[|items| - 1]];
      ByRandomHolds(front, r);
      assert forall d :: d in items <==> d in front || d == items[|items| - 1];
    }
  }

  /** With distinct random addresses the reverse dictionary loses nothing. */
  lemma ByRandomExact(items: seq<DeviceAddress>, d: DeviceAddress)
    requires DistinctRandom(items)
    ensures d in items <==> d.random in ByRandom(items) && ByRandom(items)[d.random] == d.short
  {
    ByRandomHolds(items, d.random);
    if d in items {
      var e := DeviceAddress(ByRandom(items)[d.random], d.random);
      var i :| 0 <= i < |items| && items[i] == d;
      var j :| 0 <= j < |items| && items[j] == e;
    }
  }

  /** What the four lists hold, whatever the two dictionaries are. */
  ghost predicate Classified(stored: seq<DeviceAddress>, found: seq<DeviceAddress>, res: CommissioningResult)
  {
    var o, f := ByRandom(stored), ByRandom(found);
    && NoDup(res.kept) && NoDup(res.changed) && NoDup(res.missing) && NoDup(res.added)
    && (forall d :: d in res.kept <==> d in stored && d in found)
    && (forall c :: c in res.changed <==>
          && c.now.random in o && o[c.now.random] == c.oldShort
          && c.now.random in f && f[c.now.random] == c.now.short && c.oldShort != c.now.short)
    && (forall d :: d in res.missing <==> d.random in o && o[d.random] == d.short && d.random !in f)
    && (forall d :: d in res.added <==> d.random in f && f[d.random] == d.short && d.random !in o)
  }

  method SortedItems(m: map<Random, nat>, keys: set<Random>) returns (s: seq<DeviceAddress>)
    requires keys <= m.Keys
    ensures NoDup(s) && SortedBy(s, RandomOf)
    ensures forall d :: d in s <==> d.random in keys && m[d.random] == d.short
  {
    var key := RandomOf;
    s := [];
    var left := keys;
    while left != {}
      invariant left <= keys
      invariant NoDup(s)
      invariant forall d :: d in s <==> d.random in keys - left && m[d.random] == d.short
    {
      var r :| r in left;
      left := left - {r};
      s := s + [DeviceAddress(m[r], r)];
    }
    ghost var before := s;
    SortSorts(s, key);
    s := Sort(s, key);
    assert forall d :: d in s <==> d in multiset(s);
    assert forall d :: d in before <==> d in multiset(before);
    forall d | d in s
      ensures multiset(s)[d] == 1
    {
      NoDupCounts(before, d);
    }
    CountsNoDup(s);
  }

  method Classify(stored: seq<DeviceAddress>, found: seq<DeviceAddress>) returns (res: CommissioningResult)
    requires DistinctShorts(stored)
    ensures Classified(stored, found, res)
    ensures SortedBy(res.missing, RandomOf)
    ensures SortedBy(res.added, RandomOf)
  {
    var o, f := ByRandom(stored), ByRandom(found);
    var kept := [];
    for i := 0 to |stored|
      invariant NoDup(kept)
      invariant forall d :: d in kept <==> d in stored[..i] && d in found
    {
      assert stored[..i + 1] == stored[..i] + [stored[i]];
      if stored[i] in found {
        assert stored[i] !in stored[..i];
        kept := kept + [stored[i]];
      }
    }
    assert stored[..|stored|] == stored;
    var changed := CollectChanged(o, f);
    var missing := SortedItems(o, o.Keys - f.Keys);
    var added := SortedItems(f, f.Keys - o.Keys);
    res := CommissioningResult(kept, changed, missing, added);
  }

  method CollectChanged(o: map<Random, nat>, f: map<Random, nat>) returns (changed: seq<ChangedDevice>)
    ensures NoDup(changed)
    ensures forall c :: c in changed <==>
      && c.now.random in o && o[c.now.random] == c.oldShort
      && c.now.random in f && f[c.now.random] == c.now.short && c.oldShort != c.now.short
  {
    changed := [];
    var left := o.Keys * f.Keys;
    while left != {}
      invariant left <= o.Keys * f.Keys
      invariant NoDup(changed)
      invariant forall c :: c in changed <==>
        && c.now.random in o && o[c.now.random] == c.oldShort && c.now.random !in left
        && c.now.random in f && f[c.now.random] == c.now.short && c.oldShort != c.now.short
    {
      var r :| r in left;
      left := left - {r};
      if o[r] != f[r] {
        changed := changed + [ChangedDevice(DeviceAddress(f[r], r), o[r])];
      }
    }
  }

  function Befores(changed: seq<ChangedDevice>): (s: seq<DeviceAddress>)
    ensures |s| == |changed| && forall i :: 0 <= i < |s| ==> s[i] == changed[i].Before()
  {
    seq(|changed|, i requires 0 <= i < |changed| => changed[i].Before())
  }

  function Nows(changed: seq<ChangedDevice>): (s: seq<DeviceAddress>)
    ensures |s| == |changed| && forall i :: 0 <= i < |s| ==> s[i] == changed[i].now
  {
    seq(|changed|, i requires 0 <= i < |changed| => changed[i].now)
  }

  /** Three lists without repetition that between them hold each element of a fourth once. */
  lemma ThreeParts(a: seq<DeviceAddress>, b: seq<DeviceAddress>, c: seq<DeviceAddress>, whole: seq<DeviceAddress>)
    requires NoDup(a) && NoDup(b) && NoDup(c) && NoDup(whole)
    requires forall d :: d in whole <==> d in a || d in b || d in c
    requires forall d :: !(d in a && d in b) && !(d in a && d in c) && !(d in b && d in c)
    ensures multiset(a) + multiset(b) + multiset(c) == multiset(whole)
  {
    forall d: DeviceAddress
      ensures (multiset(a) + multiset(b) + multiset(c))[d] == multiset(whole)[d]
    {
      NoDupCounts(a, d);
      NoDupCounts(b, d);
      NoDupCounts(c, d);
      NoDupCounts(whole, d);
    }
  }

  lemma ChangedParts(stored: seq<DeviceAddress>, found: seq<DeviceAddress>, res: CommissioningResult)
    requires Classified(stored, found, res)
    ensures NoDup(Befores(res.changed)) && NoDup(Nows(res.changed))
    ensures forall d :: d in Befores(res.changed) <==>
      var o, f, r := ByRandom(stored), ByRandom(found), d.random;
      r in o && o[r] == d.short && r in f && f[r] != d.short
    ensures forall d :: d in Nows(res.changed) <==>
      var o, f, r := ByRandom(stored), ByRandom(found), d.random;
      r in f && f[r] == d.short && r in o && o[r] != d.short
  {
    var o, f := ByRandom(stored), ByRandom(found);
    var cs := res.changed;
    forall i, j | 0 <= i < j < |cs|
      ensures cs[i].now.random != cs[j].now.random
    {
      assert cs[i] in cs && cs[j] in cs;
    }
    forall d: DeviceAddress | d.random in o && o[d.random] == d.short && d.random in f && f[d.random] != d.short
      ensures d in Befores(cs)
    {
      var c := ChangedDevice(DeviceAddress(f[d.random], d.random), d.short);
      assert c in cs;
      var i :| 0 <= i < |cs| && cs[i] == c;
      assert Befores(cs)[i] == d;
    }
    forall d: DeviceAddress | d.random in f && f[d.random] == d.short && d.random in o && o[d.random] != d.short
      ensures d in Nows(cs)
    {
      var c := ChangedDevice(d, o[d.random]);
      assert c in cs;
      var i :| 0 <= i < |cs| && cs[i] == c;
      assert Nows(cs)[i] == d;
    }
  }

  ghost predicate Partitions(stored: seq<DeviceAddress>, found: seq<DeviceAddress>, res: CommissioningResult)
  {
    && multiset(res.kept) + multiset(Befores(res.changed)) + multiset(res.missing) == multiset(stored)
    && multiset(res.kept) + multiset(Nows(res.changed)) + multiset(res.added) == multiset(found)
  }

  /** With random addresses distinct on each side, the result is a partition of both: every stored
      device is unchanged, changed or missing, every found one unchanged, changed or new, once. */
  lemma ClassificationIsPartition(stored: seq<DeviceAddress>, found: seq<DeviceAddress>, res: CommissioningResult)
    requires DistinctRandom(stored) && DistinctRandom(found) && Classified(stored, found, res)
    ensures Partitions(stored, found, res)
  {
    ChangedParts(stored, found, res);
    forall d: DeviceAddress
      ensures d in stored <==> d.random in ByRandom(stored) && ByRandom(stored)[d.random] == d.short
      ensures d in found <==> d.random in ByRandom(found) && ByRandom(found)[d.random] == d.short
    {
      ByRandomExact(stored, d);
      ByRandomExact(found, d);
    }
    ThreeParts(res.kept, Befores(res.changed), res.missing, stored);
    ThreeParts(res.kept, Nows(res.changed), res.added, found);
  }

  /** Of a bus with distinct random addresses it is a partition exactly when the stored ones are
      distinct too. */
  lemma PartitionOfDistinct(stored: seq<DeviceAddress>, found: seq<DeviceAddress>, res: CommissioningResult)
    requires DistinctShorts(stored) && DistinctRandom(found) && Classified(stored, found, res)
    ensures Partitions(stored, found, res) <==> DistinctRandom(stored)
  {
    if DistinctRandom(stored) {
      ClassificationIsPartition(stored, found, res);
    } else {
      var i, j :| 0 <= i < j < |stored| && stored[i].random == stored[j].random;
      var o := ByRandom(stored);
      ByRandomHolds(stored, stored[i].random);
      assert stored[i] in stored && stored[j] in stored;
      OverwrittenBreaks(stored, found, res, if o[stored[i].random] == stored[i].short then stored[j] else stored[i]);
    }
  }

  /** A stored device that another one displaces from the reverse dictionary is lost, or counted as
      unchanged and as moved. */
  lemma OverwrittenBreaks(stored: seq<DeviceAddress>, found: seq<DeviceAddress>, res: CommissioningResult,
                          d: DeviceAddress)
    requires DistinctRandom(found) && Classified(stored, found, res) && d in stored
    requires d.random in ByRandom(stored) && ByRandom(stored)[d.random] != d.short
    ensures !Partitions(stored, found, res)
  {
    ChangedParts(stored, found, res);
    ByRandomExact(found, d);
    NoDupCounts(found, d);
    if d in res.kept {
      assert d in Nows(res.changed) && d in multiset(Nows(res.changed)) && d in multiset(res.kept);
      assert (multiset(res.kept) + multiset(Nows(res.changed)) + multiset(res.added))[d] >= 2;
    } else {
      assert d !in Befores(res.changed) && d !in res.missing;
      assert d in multiset(stored);
    }
  }

  /** A device that only one side has is the last one there with its random address; a device that
      both have is the last on both sides or on neither. */
  predicate MatchedAt(stored: seq<DeviceAddress>, found: seq<DeviceAddress>, d: DeviceAddress)
  {
    var o, f := ByRandom(stored), ByRandom(found);
    var lastStored := d.random in o && o[d.random] == d.short;
    var lastFound := d.random in f && f[d.random] == d.short;
    && (d in stored && d !in found ==> lastStored)
    && (d in found && d !in stored ==> lastFound)
    && (d in stored && d in found ==> (lastStored <==> lastFound))
  }

  function Times(a: seq<DeviceAddress>, b: seq<DeviceAddress>, c: seq<DeviceAddress>, d: DeviceAddress): nat
  {
    (if d in a then 1 else 0) + (if d in b then 1 else 0) + if d in c then 1 else 0
  }

  lemma PartsCount(a: seq<DeviceAddress>, b: seq<DeviceAddress>, c: seq<DeviceAddress>, whole: seq<DeviceAddress>)
    requires NoDup(a) && NoDup(b) && NoDup(c) && NoDup(whole)
    ensures multiset(a) + multiset(b) + multiset(c) == multiset(whole) <==>
            forall d :: Times(a, b, c, d) == if d in whole then 1 else 0
  {
    forall d: DeviceAddress
      ensures (multiset(a) + multiset(b) + multiset(c))[d] == Times(a, b, c, d)
      ensures multiset(whole)[d] == if d in whole then 1 else 0
    {
      NoDupCounts(a, d);
      NoDupCounts(b, d);
      NoDupCounts(c, d);
      NoDupCounts(whole, d);
    }
    if forall d :: Times(a, b, c, d) == if d in whole then 1 else 0 {
      assert forall d :: (multiset(a) + multiset(b) + multiset(c))[d] == multiset(whole)[d];
    }
  }

  lemma MatchedOnce(stored: seq<DeviceAddress>, found: seq<DeviceAddress>, res: CommissioningResult, d: DeviceAddress)
    requires Classified(stored, found, res)
    ensures MatchedAt(stored, found, d) <==>
            && Times(res.kept, Befores(res.changed), res.missing, d) == (if d in stored then 1 else 0)
            && Times(res.kept, Nows(res.changed), res.added, d) == if d in found then 1 else 0
  {
    ChangedParts(stored, found, res);
    ByRandomHolds(stored, d.random);
    ByRandomHolds(found, d.random);
  }

  /** Whatever addresses are repeated on either side, it is a partition of both exactly when every
      device is `MatchedAt`. */
  lemma PartitionExactlyWhen(stored: seq<DeviceAddress>, found: seq<DeviceAddress>, res: CommissioningResult)
    requires NoDup(stored) && NoDup(found) && Classified(stored, found, res)
    ensures Partitions(stored, found, res) <==> forall d :: MatchedAt(stored, found, d)
  {
    hide Classified, MatchedAt, Times;
    forall d: DeviceAddress
      ensures MatchedAt(stored, found, d) <==>
              && Times(res.kept, Befores(res.changed), res.missing, d) == (if d in stored then 1 else 0)
              && Times(res.kept, Nows(res.changed), res.added, d) == if d in found then 1 else 0
    {
      MatchedOnce(stored, found, res, d);
    }
    ClassifiedOnce(stored, found, res);
    PartsCount(res.kept, Befores(res.changed), res.missing, stored);
    PartsCount(res.kept, Nows(res.changed), res.added, found);
  }

  lemma ClassifiedOnce(stored: seq<DeviceAddress>, found: seq<DeviceAddress>, res: CommissioningResult)
    requires Classified(stored, found, res)
    ensures NoDup(res.kept) && NoDup(Befores(res.changed)) && NoDup(Nows(res.changed))
    ensures NoDup(res.missing) && NoDup(res.added)
  {
    ChangedParts(stored, found, res);
  }

  /** Two stored devices with one random address, of which the first is found where it was: it is
      reported both as unchanged and as moved from the address of the second. */
  lemma SharedRandomBreaksPartition(r: Random, res: CommissioningResult)
    requires Classified([DeviceAddress(1, r), DeviceAddress(2, r)], [DeviceAddress(1, r)], res)
    ensures DeviceAddress(1, r) in res.kept
    ensures ChangedDevice(DeviceAddress(1, r), 2) in res.changed
  {
    var stored, found := [DeviceAddress(1, r), DeviceAddress(2, r)], [DeviceAddress(1, r)];
    assert stored[..1] == [DeviceAddress(1, r)] && found[..0] == [];
    assert ByRandom(stored)[r] == 2 && ByRandom(found)[r] == 1;
  }

  // --- Rebuilding the device list ---

  /** Device list after commissioning: the unchanged devices and those created for changed and new
      addresses, by short address; and the devices whose topics are withdrawn. */
  method Rebuild(devices: seq<DeviceAddress>, res: CommissioningResult)
    returns (rebuilt: seq<DeviceAddress>, removed: seq<DeviceAddress>)
    ensures SortedBy(rebuilt, ShortOf)
    ensures multiset(rebuilt) ==
            multiset(Kept(devices, res.kept)) + multiset(Nows(res.changed)) + multiset(res.added)
    ensures removed == AtShorts(devices, RemovedShorts(res))
  {
    var key := ShortOf;
    var kept := [];
    removed := [];
    var gone := RemovedShorts(res);
    for i := 0 to |devices|
      invariant kept == Kept(devices[..i], res.kept)
      invariant removed == AtShorts(devices[..i], gone)
    {
      assert devices[..i + 1][..i] == devices[..i];
      if devices[i] in res.kept { kept := kept + [devices[i]]; }
      if devices[i].short in gone { removed := removed + [devices[i]]; }
    }
    assert devices[..|devices|] == devices;
    var created := Nows(res.changed) + res.added;
    SortSorts(kept + created, key);
    rebuilt := Sort(kept + created, key);
  }

  function Kept(devices: seq<DeviceAddress>, keep: seq<DeviceAddress>): seq<DeviceAddress>
  {
    if devices == [] then []
    else var last := devices[|devices| - 1];
         Kept(devices[..|devices| - 1], keep) + (if last in keep then [last] else [])
  }

  function AtShorts(devices: seq<DeviceAddress>, shorts: set<nat>): seq<DeviceAddress>
  {
    if devices == [] then []
    else var last := devices[|devices| - 1];
         AtShorts(devices[..|devices| - 1], shorts) + (if last.short in shorts then [last] else [])
  }

  function RemovedShorts(res: CommissioningResult): set<nat>
  {
    (set c | c in res.changed :: c.oldShort) + (set d | d in res.missing :: d.short)
  }

  lemma {:induction false} KeptHolds(devices: seq<DeviceAddress>, keep: seq<DeviceAddress>)
    requires NoDup(devices)
    ensures NoDup(Kept(devices, keep))
    ensures forall d :: d in Kept(devices, keep) <==> d in devices && d in keep
  {
    if devices != [] {
      var front := devices[..|devices| - 1];
      assert devices == front + [devices[|devices| - 1]];
      KeptHolds(front, keep);
    }
  }

  lemma {:induction false} AtShortsHolds(devices: seq<DeviceAddress>, shorts: set<nat>)
    ensures forall d :: d in AtShorts(devices, shorts) <==> d in devices && d.short in shorts
  {
    if devices != [] {
      var front := devices[..|devices| - 1];
      assert devices == front + [devices[|devices| - 1]];
      AtShortsHolds(front, shorts);
    }
  }

  /** The rebuilt list holds exactly the found devices, and what is unpublished is exactly the
      stored devices that are not unchanged. */
  lemma RebuiltIsFound(stored: seq<DeviceAddress>, found: seq<DeviceAddress>, res: CommissioningResult)
    requires DistinctShorts(stored) && DistinctRandom(stored) && DistinctRandom(found) && Classified(stored, found, res)
    ensures multiset(Kept(stored, res.kept)) + multiset(Nows(res.changed)) + multiset(res.added) == multiset(found)
    ensures forall d :: d in AtShorts(stored, RemovedShorts(res)) <==> d in stored && d !in res.kept
  {
    ClassificationIsPartition(stored, found, res);
    KeptHolds(stored, res.kept);
    assert multiset(Kept(stored, res.kept)) == multiset(res.kept) by {
      forall d: DeviceAddress
        ensures multiset(Kept(stored, res.kept))[d] == multiset(res.kept)[d]
      {
        NoDupCounts(Kept(stored, res.kept), d);
        NoDupCounts(res.kept, d);
      }
    }
    AtShortsHolds(stored, RemovedShorts(res));
    forall d | d in stored
      ensures d.short in RemovedShorts(res) <==> d !in res.kept
    {
      RemovedIffNotUnchanged(stored, found, res, d);
    }
  }

  lemma RemovedIffNotUnchanged(stored: seq<DeviceAddress>, found: seq<DeviceAddress>, res: CommissioningResult,
                               d: DeviceAddress)
    requires DistinctShorts(stored) && DistinctRandom(stored) && DistinctRandom(found) && Classified(stored, found, res)
    requires d in stored
    ensures d.short in RemovedShorts(res) <==> d !in res.kept
  {
    ByRandomExact(stored, d);
    ByRandomExact(found, d);
    if d.short in RemovedShorts(res) {
      var e: DeviceAddress;
      if c :| c in res.changed && c.oldShort == d.short {
        e := c.Before();
      } else {
        e :| e in res.missing && e.short == d.short;
      }
      ByRandomHolds(stored, e.random);
      SameShortSame(stored, d, e);
    }
    if d !in res.kept {
      if d.random in ByRandom(found) {
        var c := ChangedDevice(DeviceAddress(ByRandom(found)[d.random], d.random), d.short);
        assert c in res.changed;
      } else {
        assert d in res.missing;
      }
    }
  }

  lemma SameShortSame(items: seq<DeviceAddress>, d: DeviceAddress, e: DeviceAddress)
    requires DistinctShorts(items) && d in items && e in items && d.short == e.short
    ensures d == e
  {
    var i :| 0 <= i < |items| && items[i] == d;
    var j :| 0 <= j < |items| && items[j] == e;
  }
}
