/**
 The bus as the addressing procedure sees it: gear with a random address, a short address and an
 initialisation mode, and the frames that act on them.  What the gear does is deterministic; what
 the line does to an answer, which gear ignores a command and which random addresses RANDOMISE
 draws are decided by a `World`, about which nothing is assumed unless a contract says so.
 */
module SearchBus {

  const MAX_SHORT: nat := 63
  const MAX_RANDOM: nat := 0xFFFFFF
  const UNSET_RANDOM: nat := MAX_RANDOM

  // The short address of gear that has none.
  const MASK: nat := 255

  type Random = r: nat | r <= MAX_RANDOM

  datatype Mode = Disabled | Enabled | Withdrawn

  datatype Device = Device(random: Random, short: nat, mode: Mode)

  datatype Target = Everyone | Unaddressed | At(short: nat)

  /** `Compare` carries the number of its attempt for the benefit of the `World` alone: 0 for a
      bisection probe, 1 and 2 for the repeats of a confirming compare. */
  datatype Frame =
    | SearchH(byte: nat) | SearchM(byte: nat) | SearchL(byte: nat)
    | Compare(attempt: nat) | Withdraw
    | QueryShort | ProgramShort(short: nat) | VerifyShort(short: nat)
    | QueryPresent(short: nat) | QueryRandom(short: nat, part: nat)
    | Terminate | Initialise(target: Target) | Randomise

  /** No backward frame, a framing error, or a clean value. */
  datatype Reply = Silent | Garbled | Value(v: nat)

  /** `hears(t, f, r)` is what the driver receives at time `t` when the gear answers `f` with `r`;
      `obeys(t, f, i)` says whether device `i` carries out `f`; `draws(t, i)` is its new random
      address. */
  datatype World = World(
    hears: (nat, Frame, Reply) -> Reply,
    obeys: (nat, Frame, nat) -> bool,
    draws: (nat, nat) -> Random)

  /** COMPARE answers arrive as they were given. */
  ghost predicate Lossless(w: World)
  {
    forall t: nat, a: nat, r :: w.hears(t, Compare(a), r) == r
  }

  /** An answer to a bisection probe at time `t` gets lost. */
  ghost predicate LosesProbe(w: World, t: nat)
  {
    w.hears(t, Compare(0), Value(1)) == Silent
  }

  ghost predicate Obedient(w: World)
  {
    forall t: nat, f, i: nat :: w.obeys(t, f, i)
  }

  /** Answers to anything but COMPARE arrive as they were given. */
  ghost predicate ClearQueries(w: World)
  {
    forall t: nat, f: Frame, r :: !f.Compare? ==> w.hears(t, f, r) == r
  }

  /** Answers to QUERY and VERIFY SHORT ADDRESS arrive as they were given. */
  ghost predicate ClearShorts(w: World)
  {
    forall t: nat, f: Frame, r :: f.QueryShort? || f.VerifyShort? ==> w.hears(t, f, r) == r
  }

  /** COMPARE may lose an answer but never invents one, and a confirming COMPARE does not lose
      both of its repeats. */
  ghost predicate Reliable(w: World)
  {
    && (forall t: nat, a: nat :: w.hears(t, Compare(a), Silent) == Silent)
    && (forall t: nat, r :: r != Silent ==>
          w.hears(t, Compare(1), r) != Silent || w.hears(t + 1, Compare(2), r) != Silent)
  }

  lemma LosslessIsReliable(w: World)
    requires Lossless(w)
    ensures Reliable(w)
  {
  }

  /** Answers on the line at the same time: equal ones read as one, different ones collide. */
  function Join(a: Reply, b: Reply): Reply
  {
    if a == Silent then b else if b == Silent || a == b then a else Garbled
  }

  function Merge(ds: seq<Device>, answers: Device -> bool, says: Device -> nat): Reply
  {
    if ds == [] then Silent
    else Join(if answers(ds[0]) then Value(says(ds[0])) else Silent, Merge(ds[1..], answers, says))
  }

  lemma {:induction false} MergeSilent(ds: seq<Device>, answers: Device -> bool, says: Device -> nat)
    ensures Merge(ds, answers, says) == Silent <==> forall d :: d in ds ==> !answers(d)
  {
    if ds != [] {
      MergeSilent(ds[1..], answers, says);
      assert forall d :: d in ds <==> d == ds[0] || d in ds[1..];
    }
  }

  lemma {:induction false} MergeAgreed(ds: seq<Device>, answers: Device -> bool, says: Device -> nat, v: nat)
    requires forall d :: d in ds && answers(d) ==> says(d) == v
    ensures Merge(ds, answers, says) in {Silent, Value(v)}
  {
    if ds != [] {
      MergeAgreed(ds[1..], answers, says, v);
    }
  }

  /** One device answers: its answer is what the line carries. */
  lemma MergeOne(ds: seq<Device>, answers: Device -> bool, says: Device -> nat, d: Device)
    requires d in ds && answers(d)
    requires forall e :: e in ds && answers(e) ==> says(e) == says(d)
    ensures Merge(ds, answers, says) == Value(says(d))
  {
    MergeSilent(ds, answers, says);
    MergeAgreed(ds, answers, says, says(d));
  }

  /** Whoever answers while a clean value is on the line says that value. */
  lemma {:induction false} MergeAllAgree(ds: seq<Device>, answers: Device -> bool, says: Device -> nat, v: nat)
    requires Merge(ds, answers, says) == Value(v)
    ensures forall d :: d in ds && answers(d) ==> says(d) == v
  {
    if ds != [] {
      var rest := Merge(ds[1..], answers, says);
      if rest == Silent {
        MergeSilent(ds[1..], answers, says);
      } else {
        MergeAllAgree(ds[1..], answers, says, v);
      }
      assert forall d :: d in ds <==> d == ds[0] || d in ds[1..];
    }
  }

  /** Two that say different things collide. */
  lemma MergeCollides(ds: seq<Device>, answers: Device -> bool, says: Device -> nat, d: Device, e: Device)
    requires d in ds && e in ds && answers(d) && answers(e) && says(d) != says(e)
    ensures Merge(ds, answers, says) == Garbled
  {
    MergeSilent(ds, answers, says);
    if v: nat :| Merge(ds, answers, says) == Value(v) {
      MergeAllAgree(ds, answers, says, v);
    }
  }

  /** A clean value on the line was put there by somebody. */
  lemma {:induction false} MergeHasSource(ds: seq<Device>, answers: Device -> bool, says: Device -> nat)
    ensures Merge(ds, answers, says).Value?
      ==> exists d :: d in ds && answers(d) && says(d) == Merge(ds, answers, says).v
  {
    if ds != [] {
      MergeHasSource(ds[1..], answers, says);
      assert ds[0] in ds;
    }
  }

  predicate Participates(d: Device, addr: int)
  {
    d.mode == Enabled && d.random <= addr
  }

  predicate Selected(d: Device, addr: int)
  {
    d.mode != Disabled && d.random == addr
  }

  /** The gear, the search address it holds, the short addresses programmed so far, and the time. */
  datatype BusState = BusState(
    devices: seq<Device>, high: nat, medium: nat, low: nat, programmed: seq<nat>, tick: nat) {
    function Search(): nat
    {
      high * 0x10000 + medium * 0x100 + low
    }
  }

  /** The high, medium or low byte of a random address. */
  function ByteOf(random: Random, part: nat): (b: nat)
    ensures b < 0x100
  {
    if part == 0 then random / 0x10000 else if part == 1 then random / 0x100 % 0x100 else random % 0x100
  }

  /** What the gear puts on the line in answer to `f`. */
  function Truth(ds: seq<Device>, search: nat, f: Frame): Reply
  {
    match f
    case Compare(_) => Merge(ds, (d: Device) => Participates(d, search), (d: Device) => 1)
    case QueryShort => Merge(ds, (d: Device) => Selected(d, search), (d: Device) => d.short)
    case VerifyShort(s) => Merge(ds, (d: Device) => d.mode != Disabled && d.short == s, (d: Device) => 1)
    case QueryPresent(s) => Merge(ds, (d: Device) => d.short == s, (d: Device) => 1)
    case QueryRandom(s, part) => Merge(ds, (d: Device) => d.short == s, (d: Device) => ByteOf(d.random, part))
    case _ => Silent
  }

  predicate Joins(d: Device, target: Target)
  {
    target == Everyone || d.short == (if target == Unaddressed then MASK else target.short)
  }

  /** Device `i` after `f`. */
  function React(w: World, t: nat, search: nat, f: Frame, i: nat, d: Device): Device
  {
    if !w.obeys(t, f, i) then d else
    match f
    case Withdraw => if Selected(d, search) then d.(mode := Withdrawn) else d
    case ProgramShort(s) => if Selected(d, search) then d.(short := s) else d
    case Terminate => d.(mode := Disabled)
    case Initialise(target) => if Joins(d, target) then d.(mode := Enabled) else d
    case Randomise => if d.mode != Disabled then d.(random := w.draws(t, i)) else d
    case _ => d
  }

  function Step(w: World, s: BusState, f: Frame): BusState
  {
    BusState(
      seq(|s.devices|, i requires 0 <= i < |s.devices| => React(w, s.tick, s.Search(), f, i, s.devices[i])),
      if f.SearchH? then f.byte else s.high,
      if f.SearchM? then f.byte else s.medium,
      if f.SearchL? then f.byte else s.low,
      if f.ProgramShort? && f.short != MASK then s.programmed + [f.short] else s.programmed,
      s.tick + 1)
  }

  function Answer(w: World, s: BusState, f: Frame): Reply
  {
    w.hears(s.tick, f, Truth(s.devices, s.Search(), f))
  }

  /** Frames that only ask or only move the search address leave the gear as it is. */
  predicate Passive(f: Frame)
  {
    !(f.Withdraw? || f.ProgramShort? || f.Terminate? || f.Initialise? || f.Randomise?)
  }

  lemma PassiveKeepsDevices(w: World, s: BusState, f: Frame)
    requires Passive(f)
    ensures Step(w, s, f).devices == s.devices && Step(w, s, f).programmed == s.programmed
  {
  }

  /** No gear is left in its initialisation mode. */
  ghost predicate AllDisabled(ds: seq<Device>)
  {
    forall d :: d in ds ==> d.mode == Disabled
  }

  lemma TerminateDisables(w: World, s: BusState)
    requires Obedient(w)
    ensures AllDisabled(Step(w, s, Terminate).devices)
  {
  }

  ghost predicate SomeParticipant(ds: seq<Device>, addr: int)
  {
    exists d :: d in ds && Participates(d, addr)
  }

  /** COMPARE answered as the gear would: something participates at or below the search address. */
  lemma CompareTruth(ds: seq<Device>, search: nat, attempt: nat)
    ensures Truth(ds, search, Compare(attempt)) == if SomeParticipant(ds, search) then Value(1) else Silent
  {
    MergeSilent(ds, (d: Device) => Participates(d, search), (d: Device) => 1);
    MergeAgreed(ds, (d: Device) => Participates(d, search), (d: Device) => 1, 1);
  }

  class Bus {
    const world: World
    var st: BusState

    constructor (world: World, devices: seq<Device>, high: nat, medium: nat, low: nat)
      ensures this.world == world && st == BusState(devices, high, medium, low, [], 0)
    {
      this.world := world;
      st := BusState(devices, high, medium, low, [], 0);
    }

    method Send(f: Frame) returns (r: Reply)
      modifies this
      ensures st == Step(world, old(st), f)
      ensures r == Answer(world, old(st), f)
    {
      r := Answer(world, st, f);
      st := Step(world, st, f);
    }
  }
}
