/**
 What one addressing pass keeps on a bus where only COMPARE may lose answers and every command is obeyed.
 `Exact` is the invariant; the lemmas are its steps, one for each way a found device is treated.
 */
module Exactness {
  import opened SearchBus
  import opened SearchAddress
  import opened Finder
  import opened Enumeration
  import opened Allocation
  import opened Sequences

  /** A bus on which nothing goes wrong except that COMPARE may lose answers. */
  ghost predicate Faithful(w: World)
  {
    ClearQueries(w) && Reliable(w) && Obedient(w)
  }

  ghost predicate Modes(ds: seq<Device>, gone: set<Random>)
  {
    forall i :: 0 <= i < |ds| ==> (ds[i].mode == Enabled <==> ds[i].random !in gone)
  }

  /** The gear that is still to be processed has been initialised. */
  ghost predicate Awake(ds: seq<Device>, done: set<Random>)
  {
    forall i :: 0 <= i < |ds| && ds[i].random !in done ==> ds[i].mode != Disabled
  }

  /** `done` are the random addresses processed so far, `gone` those withdrawn from the search.  Spare
      gear is left as it is for the next pass. */
  ghost predicate Exact(ds0: seq<Device>, ds: seq<Device>, found: map<nat, Random>, available: seq<nat>,
                        done: set<Random>, gone: set<Random>)
  {
    && Tidy(ds0) && Ledger(ds0, ds, found, done)
    && FreeExactly(ds0, found, available) && Modes(ds, gone) && Awake(ds, done)
  }

  ghost predicate HeldBy(ds0: seq<Device>, i: nat, a: Random)
  {
    i < |ds0| && ds0[i].random == a
  }

  ghost predicate Absent(ds0: seq<Device>, a: Random)
  {
    !exists i: nat :: HeldBy(ds0, i, a)
  }

  lemma ExactKeepsUnique(ds0: seq<Device>, ds: seq<Device>, found: map<nat, Random>, available: seq<nat>,
                         done: set<Random>, gone: set<Random>)
    requires Exact(ds0, ds, found, available, done, gone)
    ensures KeepsUnique(ds0, ds)
  {
    forall i | 0 <= i < |ds| && UniqueShort(ds0, i)
      ensures ds[i].short == ds0[i].short
    {
      assert ds[i].random in done ==> Settled(ds0, ds[i], found, i);
    }
  }

  /** Gear with different short addresses has the random address `a`. */
  ghost predicate Mixed(ds0: seq<Device>, a: Random)
  {
    exists i: nat, j: nat :: HeldBy(ds0, i, a) && HeldBy(ds0, j, a) && ds0[i].short != ds0[j].short
  }

  /** The answer to QUERY SHORT ADDRESS that a bus like `ds0` gives at `a`. */
  ghost predicate Expected(ds0: seq<Device>, a: Random, resp: Reply)
  {
    && (Absent(ds0, a) ==> resp == Silent)
    && forall i: nat :: HeldBy(ds0, i, a) ==> resp == if Mixed(ds0, a) then Garbled else Value(ds0[i].short)
  }

  /** Gear without a short address duplicates the random address `a` of the device at `s`. */
  ghost predicate DuplicatedAt(ds0: seq<Device>, a: Random, s: nat)
  {
    exists i: nat, j: nat :: Duplicates(ds0, i, j) && ds0[j].random == a && ds0[j].short == s
  }

  /** What the pass marks for the next one: spare gear. */
  ghost function Marks(ds0: seq<Device>, done: set<Random>): set<Target>
  {
    if exists i :: 0 <= i < |ds0| && ds0[i].random in done && Spare(ds0, i) then {Unaddressed} else {}
  }

  lemma MarksAdd(ds0: seq<Device>, done: set<Random>, a: Random)
    ensures Marks(ds0, done + {a}) == Marks(ds0, done) + Marks(ds0, {a})
  {
  }

  /** When all is processed, what is marked is the spare gear, if there is any. */
  lemma MarksLeft(ds0: seq<Device>, done: set<Random>)
    requires AllDone(ds0, done)
    ensures Marks(ds0, done) == if NoSpare(ds0) then {} else {Unaddressed}
  {
  }

  /** Gear that shares a random address is spare, but for the one device with a short address. */
  lemma MixedIsDuplicated(ds0: seq<Device>, a: Random) returns (j: nat)
    requires Tidy(ds0) && Mixed(ds0, a)
    ensures HeldBy(ds0, j, a) && UniqueShort(ds0, j) && a != UNSET_RANDOM
    ensures DuplicatedAt(ds0, a, ds0[j].short) && Marks(ds0, {a}) == {Unaddressed}
  {
    var p: nat, q: nat :| HeldBy(ds0, p, a) && HeldBy(ds0, q, a) && ds0[p].short != ds0[q].short;
    var i := if ds0[p].short == MASK then p else q;
    j := if ds0[p].short == MASK then q else p;
    DuplicatedIsUnique(ds0, i, j);
    assert Spare(ds0, i) && Duplicates(ds0, i, j);
  }

  /** A random address at which all gear says the same is that of one device, or of no device. */
  lemma AgreedIsOne(ds0: seq<Device>, a: Random, i: nat)
    requires Tidy(ds0) && HeldBy(ds0, i, a) && !Mixed(ds0, a) && a != UNSET_RANDOM
    ensures !Spare(ds0, i) && Marks(ds0, {a}) == {}
  {
    forall k: nat | HeldBy(ds0, k, a)
      ensures !Spare(ds0, k)
    {
      if Spare(ds0, k) {
        var j: nat :| Duplicates(ds0, k, j);
        assert HeldBy(ds0, j, a);
      }
    }
  }

  lemma UnsetIsSpare(ds0: seq<Device>, i: nat)
    requires Tidy(ds0) && HeldBy(ds0, i, UNSET_RANDOM)
    ensures !Mixed(ds0, UNSET_RANDOM) && Spare(ds0, i) && ds0[i].short == MASK
    ensures Marks(ds0, {UNSET_RANDOM}) == {Unaddressed}
  {
  }

  lemma ExactSkips(ds0: seq<Device>, ds: seq<Device>, found: map<nat, Random>, available: seq<nat>,
                   done: set<Random>, gone: set<Random>, a: Random)
    requires Exact(ds0, ds, found, available, done, gone) && (Absent(ds0, a) || a == UNSET_RANDOM)
    ensures Exact(ds0, ds, found, available, done + {a}, gone)
  {
    forall i | 0 <= i < |ds0| && ds0[i].random == a
      ensures Spare(ds0, i)
    {
      assert HeldBy(ds0, i, a);
      UnsetIsSpare(ds0, i);
    }
    LedgerSkips(ds0, ds, found, done, a);
  }

  lemma ExactKeeps(ds0: seq<Device>, ds: seq<Device>, found: map<nat, Random>, available: seq<nat>,
                   done: set<Random>, gone: set<Random>, a: Random, i: nat)
    requires Exact(ds0, ds, found, available, done, gone) && HeldBy(ds0, i, a) && a !in done
    requires ds0[i].short <= MAX_SHORT && ds0[i].short !in found
    ensures Exact(ds0, ds, found[ds0[i].short := a], available, done + {a}, gone)
  {
    LedgerKeeps(ds0, ds, found, done, i);
  }

  /** Recording the device that spare gear duplicates at its own short address preserves the invariant;
      the rest is marked. */
  lemma ExactTrusts(ds0: seq<Device>, ds: seq<Device>, found: map<nat, Random>, available: seq<nat>,
                    done: set<Random>, gone: set<Random>, a: Random) returns (s: nat)
    requires Exact(ds0, ds, found, available, done, gone) && a !in done && Mixed(ds0, a)
    ensures a != UNSET_RANDOM && DuplicatedAt(ds0, a, s) && Marks(ds0, {a}) == {Unaddressed}
    ensures Exact(ds0, ds, found[s := a], available, done + {a}, gone)
  {
    var j := MixedIsDuplicated(ds0, a);
    s := ds0[j].short;
    if s in found {
      RecordedHolderKept(ds0, ds, found, done, j);
      assert false;
    }
    ExactKeeps(ds0, ds, found, available, done, gone, a, j);
  }

  /** The device at `a` is still to be processed and has no short address to keep. */
  ghost predicate Assignable(ds0: seq<Device>, ds: seq<Device>, found: map<nat, Random>, available: seq<nat>,
                             done: set<Random>, gone: set<Random>, a: Random)
  {
    && Exact(ds0, ds, found, available, done, gone) && a !in done && a != UNSET_RANDOM
    && exists i: nat :: HeldBy(ds0, i, a) && NeedsAddress(ds0, found, i) && UniqueRandom(ds0, i)
  }

  lemma AssignableHasFree(ds0: seq<Device>, ds: seq<Device>, found: map<nat, Random>, available: seq<nat>,
                          done: set<Random>, gone: set<Random>, a: Random)
    requires Assignable(ds0, ds, found, available, done, gone, a)
    ensures available != [] && exists d :: d in ds && Selected(d, a)
  {
    var i: nat :| HeldBy(ds0, i, a) && NeedsAddress(ds0, found, i) && UniqueRandom(ds0, i);
    AddressesDoNotRunOut(ds0, ds, found, done, available, i);
    assert Selected(ds[i], a);
  }

  lemma ExactAssigns(ds0: seq<Device>, ds: seq<Device>, found: map<nat, Random>, available: seq<nat>,
                     done: set<Random>, gone: set<Random>, a: Random, s: nat)
    requires Assignable(ds0, ds, found, available, done, gone, a) && s in available
    ensures Exact(ds0, Readdress(ds, a, s), found[s := a], Without(available, s), done + {a}, gone)
  {
    hide Tidy, Without;
    var i: nat :| HeldBy(ds0, i, a) && NeedsAddress(ds0, found, i) && UniqueRandom(ds0, i);
    assert ds[i].random == a && ds[i].mode != Disabled && s !in Shorts(ds0) by { hide Settled, Holds; }
    hide Ledger;
    LedgerAssigns(ds0, ds, found, done, i, s);
    WithoutRemoves(available, s);
  }

  /** A device that is still to be processed is not the one recorded at its short address. */
  lemma RecordedIsAnother(ds0: seq<Device>, ds: seq<Device>, found: map<nat, Random>, done: set<Random>, a: Random,
                          s: nat)
    requires Ledger(ds0, ds, found, done) && a !in done && s in found
    ensures found[s] != a
  {
    assert Holds(ds, done, s, found[s]);
  }

  lemma ProgramReaddresses(w: World, st: BusState, s: nat)
    requires Obedient(w)
    ensures Step(w, st, ProgramShort(s)).devices == Readdress(st.devices, st.Search(), s)
  {
  }

  /** The gear once that at `a` has been withdrawn from the search. */
  function WithdrawAt(ds: seq<Device>, a: nat): (ds': seq<Device>)
    ensures |ds'| == |ds|
  {
    seq(|ds|, i requires 0 <= i < |ds| => if Selected(ds[i], a) then ds[i].(mode := Withdrawn) else ds[i])
  }

  lemma WithdrawWithdraws(w: World, st: BusState)
    requires Obedient(w)
    ensures Step(w, st, Withdraw).devices == WithdrawAt(st.devices, st.Search())
  {
  }

  lemma ReaddressedAnswers(ds: seq<Device>, a: Random, s: nat, i: nat, search: nat)
    requires i < |ds| && Selected(ds[i], a)
    ensures Truth(Readdress(ds, a, s), search, VerifyShort(s)) != Silent
  {
    assert Readdress(ds, a, s)[i] in Readdress(ds, a, s);
    MergeSilent(Readdress(ds, a, s), (d: Device) => d.mode != Disabled && d.short == s, (d: Device) => 1);
  }

  /** While a random address is not processed, its gear answers as it did at the start. */
  lemma AnswersAsAtStart(ds0: seq<Device>, ds: seq<Device>, found: map<nat, Random>, available: seq<nat>,
                         done: set<Random>, gone: set<Random>, a: Random)
    requires Exact(ds0, ds, found, available, done, gone) && a !in done
    ensures Expected(ds0, a, Truth(ds, a, QueryShort))
  {
    hide Expected, Mixed;
    if Mixed(ds0, a) {
      MixedCollides(ds0, ds, a);
    } else if i: nat :| HeldBy(ds0, i, a) {
      OneAnswers(ds0, ds, a, i);
    } else {
      NobodyAnswers(ds0, ds, a);
    }
    ExpectedTruth(ds0, a, Truth(ds, a, QueryShort));
  }

  lemma ExpectedTruth(ds0: seq<Device>, a: Random, resp: Reply)
    requires Mixed(ds0, a) ==> resp == Garbled
    requires !Mixed(ds0, a) ==> forall i: nat :: HeldBy(ds0, i, a) ==> resp == Value(ds0[i].short)
    requires Absent(ds0, a) ==> resp == Silent
    ensures Expected(ds0, a, resp)
  {
  }

  /** The gear at `a` is as it was at the start, and awake. */
  ghost predicate AtStart(ds0: seq<Device>, ds: seq<Device>, a: Random)
  {
    |ds| == |ds0| && forall i :: 0 <= i < |ds| ==>
      ds[i].random == ds0[i].random && (ds0[i].random == a ==> ds[i].short == ds0[i].short && ds[i].mode != Disabled)
  }

  lemma MixedCollides(ds0: seq<Device>, ds: seq<Device>, a: Random)
    requires AtStart(ds0, ds, a) && Mixed(ds0, a)
    ensures Truth(ds, a, QueryShort) == Garbled && !Absent(ds0, a)
  {
    var i: nat, j: nat :| HeldBy(ds0, i, a) && HeldBy(ds0, j, a) && ds0[i].short != ds0[j].short;
    MergeCollides(ds, (d: Device) => Selected(d, a), (d: Device) => d.short, ds[i], ds[j]);
  }

  lemma OneAnswers(ds0: seq<Device>, ds: seq<Device>, a: Random, i: nat)
    requires AtStart(ds0, ds, a) && !Mixed(ds0, a) && HeldBy(ds0, i, a)
    ensures Truth(ds, a, QueryShort) == Value(ds0[i].short)
    ensures forall k: nat :: HeldBy(ds0, k, a) ==> ds0[k].short == ds0[i].short
  {
    forall e | e in ds && Selected(e, a)
      ensures e.short == ds[i].short
    {
      var k: nat :| k < |ds| && ds[k] == e;
      assert HeldBy(ds0, k, a);
    }
    MergeOne(ds, (d: Device) => Selected(d, a), (d: Device) => d.short, ds[i]);
  }

  lemma NobodyAnswers(ds0: seq<Device>, ds: seq<Device>, a: Random)
    requires AtStart(ds0, ds, a) && Absent(ds0, a)
    ensures Truth(ds, a, QueryShort) == Silent
  {
    forall d | d in ds
      ensures !Selected(d, a)
    {
      var i: nat :| i < |ds| && ds[i] == d;
      assert !HeldBy(ds0, i, a);
    }
    MergeSilent(ds, (d: Device) => Selected(d, a), (d: Device) => d.short);
  }

  /** On a faithful bus the answer leaves five cases: nobody there, gear that has neither address, gear
      that duplicates another, an address to keep, or one to be assigned. */
  lemma ExactCases(ds0: seq<Device>, ds: seq<Device>, found: map<nat, Random>, available: seq<nat>,
                   done: set<Random>, gone: set<Random>, a: Random, resp: Reply)
    requires Exact(ds0, ds, found, available, done, gone) && a !in done && Expected(ds0, a, resp)
    ensures Marks(ds0, {a}) == if resp == Garbled || (resp != Silent && a == UNSET_RANDOM) then {Unaddressed} else {}
    ensures resp.Value? ==> resp.v <= MAX_SHORT || resp.v == MASK
    ensures resp == Silent || a == UNSET_RANDOM ==> Exact(ds0, ds, found, available, done + {a}, gone)
    ensures resp != Silent && a == UNSET_RANDOM ==> resp == Value(MASK)
    ensures resp == Garbled ==>
      exists s: nat :: DuplicatedAt(ds0, a, s) && Exact(ds0, ds, found[s := a], available, done + {a}, gone)
    ensures a != UNSET_RANDOM && resp.Value? && (resp.v == MASK || resp.v in found)
      ==> Assignable(ds0, ds, found, available, done, gone, a)
    ensures resp.Value? && resp.v in found ==> found[resp.v] != a
    ensures resp.Value? && resp.v <= MAX_SHORT && resp.v !in found
      ==> Exact(ds0, ds, found[resp.v := a], available, done + {a}, gone)
  {
    hide Marks, Mixed, Spare, DuplicatedAt;
    if Absent(ds0, a) {
      ExactSkips(ds0, ds, found, available, done, gone, a);
      NobodyMarked(ds0, a);
    } else if Mixed(ds0, a) {
      var i: nat :| HeldBy(ds0, i, a);
      var s := ExactTrusts(ds0, ds, found, available, done, gone, a);
    } else {
      var i: nat :| HeldBy(ds0, i, a);
      if a == UNSET_RANDOM {
        UnsetIsSpare(ds0, i);
        ExactSkips(ds0, ds, found, available, done, gone, a);
        MaskIsFree(ds0, ds, found, done);
      } else {
        AgreedIsOne(ds0, a, i);
        ExactAgreed(ds0, ds, found, available, done, gone, a, i);
      }
    }
  }

  lemma NobodyMarked(ds0: seq<Device>, a: Random)
    requires Absent(ds0, a)
    ensures Marks(ds0, {a}) == {}
  {
    if i :| 0 <= i < |ds0| && ds0[i].random in {a} && Spare(ds0, i) {
      assert HeldBy(ds0, i, a);
    }
  }

  lemma MaskIsFree(ds0: seq<Device>, ds: seq<Device>, found: map<nat, Random>, done: set<Random>)
    requires Ledger(ds0, ds, found, done)
    ensures MASK !in found
  {
  }

  /** The cases in which one device answers. */
  lemma ExactAgreed(ds0: seq<Device>, ds: seq<Device>, found: map<nat, Random>, available: seq<nat>,
                    done: set<Random>, gone: set<Random>, a: Random, i: nat)
    requires Exact(ds0, ds, found, available, done, gone) && a !in done && HeldBy(ds0, i, a) && a != UNSET_RANDOM
    requires !Spare(ds0, i)
    ensures ds0[i].short <= MAX_SHORT || ds0[i].short == MASK
    ensures ds0[i].short == MASK || ds0[i].short in found ==> Assignable(ds0, ds, found, available, done, gone, a)
    ensures ds0[i].short in found ==> found[ds0[i].short] != a
    ensures ds0[i].short <= MAX_SHORT && ds0[i].short !in found
      ==> Exact(ds0, ds, found[ds0[i].short := a], available, done + {a}, gone)
  {
    if ds0[i].short in found {
      RecordedIsAnother(ds0, ds, found, done, a, ds0[i].short);
    }
    if NeedsAddress(ds0, found, i) {
      NeedyIsUnique(ds0, ds, found, done, i);
    } else {
      ExactKeeps(ds0, ds, found, available, done, gone, a, i);
    }
  }

  // --- Searching ---

  ghost predicate RestAbove(ds0: seq<Device>, done: set<Random>, low: Random)
  {
    forall i :: 0 <= i < |ds0| && ds0[i].random !in done ==> ds0[i].random >= low
  }

  ghost predicate AllDone(ds0: seq<Device>, done: set<Random>)
  {
    forall i :: 0 <= i < |ds0| ==> ds0[i].random in done
  }

  lemma EverythingAbove(ds0: seq<Device>, done: set<Random>)
    ensures RestAbove(ds0, done, 0)
  {
  }

  lemma NothingAbove(ds0: seq<Device>, done: set<Random>, low: Random)
    requires RestAbove(ds0, done, low) && low in done && low == MAX_RANDOM
    ensures AllDone(ds0, done)
  {
  }

  /** Only the modes differ. */
  ghost predicate SameAddresses(ds: seq<Device>, ds': seq<Device>)
  {
    |ds'| == |ds| && forall i :: 0 <= i < |ds| ==> ds'[i].random == ds[i].random && ds'[i].short == ds[i].short
  }

  lemma LedgerIgnoresModes(ds0: seq<Device>, ds: seq<Device>, ds': seq<Device>, found: map<nat, Random>,
                           done: set<Random>)
    requires Ledger(ds0, ds, found, done) && SameAddresses(ds, ds')
    ensures Ledger(ds0, ds', found, done)
  {
    forall i | 0 <= i < |ds| && ds[i].random in done && !Spare(ds0, i)
      ensures Settled(ds0, ds'[i], found, i)
    {
      assert Settled(ds0, ds[i], found, i);
    }
    forall s | s in found
      ensures Holds(ds', done, s, found[s])
    {
      assert Holds(ds, done, s, found[s]);
      var i :| 0 <= i < |ds| && ds[i].short == s && ds[i].random == found[s] && found[s] in done;
      assert ds'[i].short == s;
    }
  }

  lemma WithdrawModes(w: World, st: BusState, gone: set<Random>)
    requires Obedient(w) && st.Search() <= MAX_RANDOM && Modes(st.devices, gone)
    ensures SameAddresses(st.devices, Step(w, st, Withdraw).devices)
    ensures Modes(Step(w, st, Withdraw).devices, gone + {st.Search()})
    ensures forall done :: Awake(st.devices, done) ==> Awake(Step(w, st, Withdraw).devices, done)
  {
  }

  lemma ExactWithdraws(w: World, st: BusState, ds0: seq<Device>, found: map<nat, Random>, available: seq<nat>,
                       done: set<Random>, gone: set<Random>)
    requires Obedient(w) && st.Search() <= MAX_RANDOM && Exact(ds0, st.devices, found, available, done, gone)
    ensures Exact(ds0, Step(w, st, Withdraw).devices, found, available, done, gone + {st.Search()})
  {
    WithdrawModes(w, st, gone);
    LedgerIgnoresModes(ds0, st.devices, Step(w, st, Withdraw).devices, found, done);
  }

  /** What is left to process is what still takes part in the search. */
  lemma RestParticipates(ds0: seq<Device>, ds: seq<Device>, found: map<nat, Random>, available: seq<nat>,
                         done: set<Random>)
    requires Exact(ds0, ds, found, available, done, done)
    ensures forall low: Random :: RestAbove(ds0, done, low) ==> AllAtLeast(ds, low)
    ensures !SomeParticipant(ds, MAX_RANDOM) ==> AllDone(ds0, done)
    ensures forall a: Random :: IsLowest(ds, a) ==> a !in done && RestAbove(ds0, done + {a}, a)
  {
    forall low: Random | RestAbove(ds0, done, low)
      ensures AllAtLeast(ds, low)
    {
      forall d | d in ds && d.mode == Enabled
        ensures d.random >= low
      {
        var i :| 0 <= i < |ds| && ds[i] == d;
        assert ds0[i].random !in done;
      }
    }
    if !SomeParticipant(ds, MAX_RANDOM) {
      forall i | 0 <= i < |ds0|
        ensures ds0[i].random in done
      {
        assert ds[i] in ds && !Participates(ds[i], MAX_RANDOM);
      }
    }
    forall a: Random | IsLowest(ds, a)
      ensures a !in done && RestAbove(ds0, done + {a}, a)
    {
      LowestIsHeld(ds, a);
      forall i | 0 <= i < |ds0| && ds0[i].random !in done
        ensures ds0[i].random >= a
      {
        assert ds[i] in ds;
      }
    }
  }

  // --- Between two passes ---

  /** What RANDOMISE has the gear `ds0` draw is set, is not what another device has, and is not what
      another device draws. */
  ghost predicate NewDraws(w: World, ds0: seq<Device>)
  {
    && (forall t: nat, i :: 0 <= i < |ds0| ==> w.draws(t, i) != UNSET_RANDOM)
    && (forall t: nat, i, j :: 0 <= i < |ds0| && 0 <= j < |ds0| && i != j ==> w.draws(t, i) != ds0[j].random)
    && (forall t: nat, t': nat, i, j :: 0 <= i < j < |ds0| ==> w.draws(t, i) != w.draws(t', j))
  }

  /** Only COMPARE answers get lost, and spare gear draws new random addresses. */
  ghost predicate Ready(w: World, ds0: seq<Device>)
  {
    Faithful(w) && (NoSpare(ds0) || NewDraws(w, ds0))
  }

  /** The gear that `target` names has drawn, at time `t`, and is alone in taking part in the search. */
  ghost predicate DrewTogether(w: World, t: nat, ds: seq<Device>, ds': seq<Device>, target: Target)
  {
    |ds'| == |ds| && forall i :: 0 <= i < |ds| ==>
      ds'[i] == if Joins(ds[i], target) then Device(w.draws(t, i), ds[i].short, Enabled)
                else ds[i].(mode := Disabled)
  }

  /** The same devices, the spare ones having been given random addresses. */
  ghost predicate Renewed(ds0: seq<Device>, base: seq<Device>)
  {
    |base| == |ds0| && forall i :: 0 <= i < |ds0| ==>
      && base[i].short == ds0[i].short
      && (!Spare(ds0, i) ==> base[i].random == ds0[i].random)
  }

  function Renew(ds0: seq<Device>, ds: seq<Device>): (base: seq<Device>)
    requires |ds| == |ds0|
    ensures |base| == |ds0| && forall i :: 0 <= i < |ds0| ==> base[i] == ds0[i].(random := ds[i].random)
  {
    seq(|ds0|, i requires 0 <= i < |ds0| => ds0[i].(random := ds[i].random))
  }

  /** The random addresses of the gear that is not spare. */
  ghost function TakenRandoms(ds: seq<Device>): (rs: set<Random>)
    ensures forall i :: 0 <= i < |ds| && !Spare(ds, i) ==> ds[i].random in rs
  {
    set i | 0 <= i < |ds| && !Spare(ds, i) :: ds[i].random
  }

  /** Only the spare gear of `ds0` joins RANDOMISE. */
  ghost predicate SpareJoins(ds0: seq<Device>, ds: seq<Device>)
  {
    |ds| == |ds0| && forall i :: 0 <= i < |ds| ==>
      ds[i].random == ds0[i].random && (Joins(ds[i], Unaddressed) <==> Spare(ds0, i))
  }

  lemma SpareDraws(w: World, t: nat, ds0: seq<Device>, ds: seq<Device>, ds': seq<Device>, i: nat)
    requires NewDraws(w, ds0) && DrewTogether(w, t, ds, ds', Unaddressed) && SpareJoins(ds0, ds) && i < |ds|
    ensures ds'[i].short == ds[i].short
    ensures if Spare(ds0, i) then ds'[i].random == w.draws(t, i) else ds'[i].random == ds0[i].random
    ensures Spare(ds0, i) ==> ds'[i].random != UNSET_RANDOM
    ensures Spare(ds0, i) ==>
      forall j :: 0 <= j < |ds| && j != i ==> ds'[i].random != ds'[j].random && ds'[i].random != ds0[j].random
  {
  }

  /** The new random addresses make the bus one on which all are set and distinct. */
  lemma RenewedIsTidy(w: World, t: nat, ds0: seq<Device>, ds: seq<Device>, ds': seq<Device>)
    requires Tidy(ds0) && NewDraws(w, ds0) && DrewTogether(w, t, ds, ds', Unaddressed) && SpareJoins(ds0, ds)
    ensures Tidy(Renew(ds0, ds')) && NoSpare(Renew(ds0, ds')) && Renewed(ds0, Renew(ds0, ds'))
  {
    var base := Renew(ds0, ds');
    hide DrewTogether, NewDraws, SpareJoins, Spare;
    forall i | 0 <= i < |base|
      ensures base[i].random != UNSET_RANDOM && (!Spare(ds0, i) ==> base[i].random == ds0[i].random)
      ensures forall j :: 0 <= j < |base| && j != i ==> base[i].random != base[j].random
    {
      SpareDraws(w, t, ds0, ds, ds', i);
      forall j | 0 <= j < |base| && j != i
        ensures base[i].random != base[j].random
      {
        SpareDraws(w, t, ds0, ds, ds', j);
        if !Spare(ds0, i) && !Spare(ds0, j) {
          NotSpareDiffer(ds0, i, j);
        }
      }
      if !Spare(ds0, i) {
        NotSpareIsSet(ds0, i);
      }
    }
    DistinctIsTidy(base);
  }

  lemma NotSpareDiffer(ds: seq<Device>, i: nat, j: nat)
    requires Tidy(ds) && i < |ds| && j < |ds| && i != j && !Spare(ds, i) && !Spare(ds, j)
    ensures ds[i].random != ds[j].random
  {
  }

  lemma NotSpareIsSet(ds: seq<Device>, i: nat)
    requires Tidy(ds) && i < |ds| && !Spare(ds, i)
    ensures ds[i].random != UNSET_RANDOM
  {
  }

  lemma DistinctIsTidy(ds: seq<Device>)
    requires |ds| <= MAX_SHORT + 1 && forall i :: 0 <= i < |ds| ==> ds[i].short <= MAX_SHORT || ds[i].short == MASK
    requires AllSet(ds) && forall i, j :: 0 <= i < |ds| && 0 <= j < |ds| && j != i ==> ds[i].random != ds[j].random
    ensures Tidy(ds) && NoSpare(ds)
  {
  }

  /** The account of the first pass is one of the second, in which what is not spare has been processed. */
  lemma RenewedLedger(ds0: seq<Device>, base: seq<Device>, ds: seq<Device>, ds': seq<Device>, found: map<nat, Random>,
                      done: set<Random>)
    requires Ledger(ds0, ds, found, done) && AllDone(ds0, done) && Renewed(ds0, base) && |ds'| == |ds|
    requires NoSpare(base)
    requires forall i :: 0 <= i < |ds| ==>
      && ds'[i].short == ds[i].short && ds'[i].random == base[i].random
      && (base[i].random in TakenRandoms(ds0) <==> !Spare(ds0, i))
    ensures Ledger(base, ds', found, TakenRandoms(ds0))
  {
    hide Spare, TakenRandoms, Holds, UniqueShort;
    SameShorts(ds0, base);
    forall i | 0 <= i < |ds| && ds'[i].random in TakenRandoms(ds0)
      ensures Settled(base, ds'[i], found, i)
    {
      assert Settled(ds0, ds[i], found, i);
    }
    forall s | s in found
      ensures Holds(ds', TakenRandoms(ds0), s, found[s])
    {
      RenewedHolds(ds0, base, ds, ds', found, done, s);
    }
  }

  lemma RenewedHolds(ds0: seq<Device>, base: seq<Device>, ds: seq<Device>, ds': seq<Device>, found: map<nat, Random>,
                     done: set<Random>, s: nat)
    requires Ledger(ds0, ds, found, done) && Renewed(ds0, base) && |ds'| == |ds| && s in found
    requires forall i :: 0 <= i < |ds| ==>
      && ds'[i].short == ds[i].short && ds'[i].random == base[i].random
      && (base[i].random in TakenRandoms(ds0) <==> !Spare(ds0, i))
    ensures Holds(ds', TakenRandoms(ds0), s, found[s])
  {
    hide Spare, TakenRandoms, Settled;
    assert Holds(ds, done, s, found[s]);
    var i :| 0 <= i < |ds| && ds[i].short == s && ds[i].random == found[s] && found[s] in done;
    SpareIsUnaddressed(ds0, i);
    assert ds'[i].short == s;
  }

  lemma SpareIsUnaddressed(ds0: seq<Device>, i: nat)
    requires i < |ds0|
    ensures Spare(ds0, i) ==> ds0[i].short == MASK
  {
  }

  lemma SameShorts(ds0: seq<Device>, base: seq<Device>)
    requires |base| == |ds0| && forall i :: 0 <= i < |ds0| ==> base[i].short == ds0[i].short
    ensures Shorts(base) == Shorts(ds0)
    ensures forall i :: 0 <= i < |ds0| ==> (UniqueShort(base, i) <==> UniqueShort(ds0, i))
  {
    forall s
      ensures s in Shorts(base) <==> s in Shorts(ds0)
    {
      if s in Shorts(base) {
        var d :| d in base && d.short == s;
        var i :| 0 <= i < |base| && base[i] == d;
        assert ds0[i].short == s;
      }
      if s in Shorts(ds0) {
        var d :| d in ds0 && d.short == s;
        var i :| 0 <= i < |ds0| && ds0[i] == d;
        assert base[i].short == s;
      }
    }
  }

  /** After a pass in which all was processed, RANDOMISE for the gear without a short address begins a
      pass like the first one, with all random addresses set and distinct. */
  lemma Redraws(w: World, t: nat, ds0: seq<Device>, ds: seq<Device>, ds': seq<Device>, found: map<nat, Random>,
                available: seq<nat>, done: set<Random>)
    requires Exact(ds0, ds, found, available, done, done) && AllDone(ds0, done) && NewDraws(w, ds0)
    requires DrewTogether(w, t, ds, ds', Unaddressed)
    ensures var base := Renew(ds0, ds');
            && Exact(base, ds', found, available, TakenRandoms(ds0), TakenRandoms(ds0))
            && NoSpare(base) && Renewed(ds0, base)
  {
    hide Tidy, Settled, Holds, Spare, NewDraws, TakenRandoms;
    SpareJoinsNext(ds0, ds, found, done);
    var base := Renew(ds0, ds');
    RenewedIsTidy(w, t, ds0, ds, ds');
    RenewedModes(w, t, ds0, ds, ds');
    RenewedLedger(ds0, base, ds, ds', found, done);
    SameShorts(ds0, base);
  }

  lemma RenewedModes(w: World, t: nat, ds0: seq<Device>, ds: seq<Device>, ds': seq<Device>)
    requires NewDraws(w, ds0) && DrewTogether(w, t, ds, ds', Unaddressed) && SpareJoins(ds0, ds)
    ensures forall i :: 0 <= i < |ds| ==>
      ds'[i].short == ds[i].short && (ds'[i].random in TakenRandoms(ds0) <==> !Spare(ds0, i))
    ensures Modes(ds', TakenRandoms(ds0)) && Awake(ds', TakenRandoms(ds0))
  {
    hide Spare;
    forall i | 0 <= i < |ds|
      ensures ds'[i].random in TakenRandoms(ds0) <==> !Spare(ds0, i)
    {
      SpareDraws(w, t, ds0, ds, ds', i);
      if ds'[i].random in TakenRandoms(ds0) {
        var j :| 0 <= j < |ds0| && !Spare(ds0, j) && ds0[j].random == ds'[i].random;
      }
    }
  }

  /** Once all is processed, only spare gear has no short address. */
  lemma SpareJoinsNext(ds0: seq<Device>, ds: seq<Device>, found: map<nat, Random>, done: set<Random>)
    requires Ledger(ds0, ds, found, done) && AllDone(ds0, done)
    ensures SpareJoins(ds0, ds)
  {
    hide Spare;
    forall i | 0 <= i < |ds|
      ensures Joins(ds[i], Unaddressed) <==> Spare(ds0, i)
    {
      SpareIsUnaddressed(ds0, i);
      assert !Spare(ds0, i) ==> Settled(ds0, ds[i], found, i);
    }
  }

  /** The same devices, those with a random address of their own having kept it. */
  ghost predicate Repolled(ds0: seq<Device>, base: seq<Device>)
  {
    |base| == |ds0| && forall i :: 0 <= i < |ds0| ==>
      && base[i].short == ds0[i].short
      && (OwnRandom(ds0, i) ==> base[i].random == ds0[i].random && OwnRandom(base, i))
  }

  lemma RenewedIsRepolled(ds0: seq<Device>, base: seq<Device>)
    requires Renewed(ds0, base) && Tidy(base) && NoSpare(base)
    ensures Repolled(ds0, base)
  {
    NoSpareIsDistinct(base);
  }

  /** What holds of the bus after some gear has drawn holds of the bus as it was. */
  lemma AddressedThrough(ds0: seq<Device>, base: seq<Device>, ds: seq<Device>, found: map<nat, Random>)
    requires Repolled(ds0, base)
    ensures KeepsUnique(base, ds) <==> KeepsUnique(ds0, ds)
    ensures Addressed(base, ds, found) ==> Addressed(ds0, ds, found)
  {
    assert forall i :: 0 <= i < |ds0| ==> (UniqueShort(base, i) <==> UniqueShort(ds0, i));
  }

  lemma ExactIsTidy(ds0: seq<Device>, ds: seq<Device>, found: map<nat, Random>, available: seq<nat>,
                    done: set<Random>, gone: set<Random>)
    requires Exact(ds0, ds, found, available, done, gone)
    ensures Tidy(ds0)
  {
  }

  // --- Such draws can be had ---

  /** Among the first numbers there is one that is not in a set of that size. */
  lemma FreshValue(used: set<nat>) returns (v: nat)
    ensures v <= |used| && v !in used
  {
    if UpTo(|used| + 1) <= used {
      SubsetCount(UpTo(|used| + 1), used);
      assert false;
    }
    v :| v in UpTo(|used| + 1) && v !in used;
  }

  lemma FreshValues(used: set<nat>, n: nat) returns (v: seq<nat>)
    ensures |v| == n && NoDup(v) && forall k :: 0 <= k < n ==> v[k] !in used && v[k] < |used| + n
  {
    if n == 0 {
      v := [];
    } else {
      v := FreshValues(used, n - 1);
      NoDupSize(v);
      var last := FreshValue(used + Elements(v));
      v := v + [last];
    }
  }

  lemma FewerRandomsThanDevices(ds: seq<Device>) returns (rs: set<nat>)
    ensures |rs| <= |ds| && forall i :: 0 <= i < |ds| ==> ds[i].random in rs
  {
    if ds == [] {
      rs := {};
    } else {
      rs := FewerRandomsThanDevices(ds[1..]);
      rs := rs + {ds[0].random};
      assert forall i :: 0 < i < |ds| ==> ds[i] == ds[1..][i - 1];
    }
  }

  /** For every bus of at most 64 devices there is a world in which all answers arrive, gear obeys, and
      draws are new. */
  lemma DrawsCanBeNew(ds0: seq<Device>) returns (w: World)
    requires |ds0| <= MAX_SHORT + 1
    ensures Faithful(w) && Lossless(w) && NewDraws(w, ds0)
  {
    var used := FewerRandomsThanDevices(ds0);
    var values := FreshValues(used, |ds0|);
    var draws: seq<Random> := seq(|ds0|, i requires 0 <= i < |ds0| => values[i]);
    w := World((t, f, r) => r, (t, f, i) => true, (t: nat, i: nat) => if i < |draws| then draws[i] else 0);
    assert forall t: nat, i :: 0 <= i < |ds0| ==> w.draws(t, i) == values[i];
  }
}
