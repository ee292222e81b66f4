/** Reading colour writes off the bus (`DtrSnapshot`, `ColourSequenceTracker`, and the colour part
    of `EventSyncCoordinator`). */
module ColourCapture {
  import opened Prelude
  import opened Bits

  type Byte = b: nat | b < 0x100

  type Register = r: nat | r < 3

  const PRIMARY_N_MAX: nat := 6

  datatype Component =
    | Red | Green | Blue | White | Amber | FreeColour
    | ColourTemperature | XCoordinate | YCoordinate | Primary(n: nat)

  datatype Kind = SetX | SetY | SetTc | SetRgb | SetWaf | SetPrimaryN | SetRgbwafControl

  type Uid = nat
  type Destination = nat

  /** `served` of ACTIVATE is the number of addressed devices that are dealt with before one of
      them fails; when it is not less than their number, none does. */
  datatype Command =
    | Dtr(register: Register, value: Byte)
    | SetTemporary(kind: Kind, dest: Destination)
    | Activate(dest: Destination, served: nat)
    | Other

  datatype Registers = Registers(dtr0: Byte, dtr1: Byte, dtr2: Byte) {
    /** DTR1:DTR0, as 16-bit components consume it. */
    function Word(): nat
    {
      BitOr(dtr1 * 0x100, dtr0)
    }

    function Write(register: Register, value: Byte): Registers
    {
      match register
      case 0 => this.(dtr0 := value)
      case 1 => this.(dtr1 := value)
      case _ => this.(dtr2 := value)
    }
  }

  lemma WordIsSum(r: Registers)
    ensures r.Word() == r.dtr1 * 0x100 + r.dtr0
  {
    assert Pow2(8) == 0x100;
    OrOfDisjoint(r.dtr1, 8, r.dtr0);
  }

  function Required(kind: Kind): set<Register>
  {
    if kind in {SetX, SetY, SetTc} then {0, 1} else {0, 1, 2}
  }

  /** What a SetTemporary of this kind stores, or nothing when DTR2 names no primary. */
  function Stored(kind: Kind, r: Registers): Option<map<Component, nat>>
  {
    match kind
    case SetX => Some(map[XCoordinate := r.Word()])
    case SetY => Some(map[YCoordinate := r.Word()])
    case SetTc => Some(map[ColourTemperature := r.Word()])
    case SetRgb => Some(map[Red := r.dtr0, Green := r.dtr1, Blue := r.dtr2])
    case SetWaf => Some(map[White := r.dtr0, Amber := r.dtr1, FreeColour := r.dtr2])
    case SetPrimaryN => if r.dtr2 < PRIMARY_N_MAX then Some(map[Primary(r.dtr2) := r.Word()]) else None
    case SetRgbwafControl => None
  }

  datatype Capture = Capture(components: map<Component, nat>, predictable: bool)

  const NO_CAPTURE := Capture(map[], true)

  /** A reported colour, and how many commands had been seen before the ACTIVATE it comes from. */
  datatype Event = Event(uid: Uid, components: map<Component, nat>, at: nat)

  datatype Env = Env(resolve: Destination -> seq<Uid>, hasHandler: Uid -> bool)

  datatype State = State(
    dtr: Registers, pending: map<Uid, Capture>, written: set<Register>, events: seq<Event>, seen: nat)

  const START := State(Registers(0, 0, 0), map[], {}, [], 0)

  function Recorded(c: Capture, kind: Kind, written: set<Register>, dtr: Registers): Capture
  {
    if kind == SetRgbwafControl || !(Required(kind) <= written) then c.(predictable := false)
    else match Stored(kind, dtr)
      case Some(m) => c.(components := c.components + m)
      case None => c.(predictable := false)
  }

  function PendingOf(pending: map<Uid, Capture>, uid: Uid): Capture
  {
    if uid in pending then pending[uid] else NO_CAPTURE
  }

  function RecordAll(env: Env, s: State, kind: Kind, uids: seq<Uid>): State
  {
    if uids == [] then s
    else
      var t := RecordAll(env, s, kind, uids[..|uids| - 1]);
      var uid := uids[|uids| - 1];
      if !env.hasHandler(uid) then t
      else t.(pending := t.pending[uid := Recorded(PendingOf(t.pending, uid), kind, s.written, s.dtr)])
  }

  function Reports(c: Capture): bool
  {
    c.predictable && c.components != map[]
  }

  function TakeAll(env: Env, s: State, uids: seq<Uid>): State
  {
    if uids == [] then s
    else
      var t := TakeAll(env, s, uids[..|uids| - 1]);
      var uid := uids[|uids| - 1];
      var c := PendingOf(t.pending, uid);
      t.(pending := t.pending - {uid},
         events := if env.hasHandler(uid) && Reports(c) then t.events + [Event(uid, c.components, s.seen)]
                   else t.events)
  }

  function Min(a: nat, b: nat): nat
  {
    if a < b then a else b
  }

  function Served(env: Env, cmd: Command): seq<Uid>
    requires cmd.Activate?
  {
    var uids := env.resolve(cmd.dest);
    uids[..Min(|uids|, cmd.served)]
  }

  /** The device that the service fails at: its capture is taken, but not reported. */
  function FailsAt(env: Env, cmd: Command): set<Uid>
    requires cmd.Activate?
  {
    var uids := env.resolve(cmd.dest);
    if cmd.served < |uids| then {uids[cmd.served]} else {}
  }

  /** The captures of the addressed devices are taken, as far as the service gets. */
  function EndTransaction(env: Env, s: State, cmd: Command): State
    requires cmd.Activate?
  {
    var t := TakeAll(env, s, Served(env, cmd));
    t.(pending := t.pending - FailsAt(env, cmd), written := {})
  }

  function Step(env: Env, s: State, cmd: Command): State
  {
    (match cmd
     case Dtr(register, value) =>
       s.(dtr := s.dtr.Write(register, value),
          pending := if s.written == {} then map[] else s.pending,
          written := s.written + {register})
     case SetTemporary(kind, dest) => RecordAll(env, s, kind, env.resolve(dest))
     case Activate(_, _) => EndTransaction(env, s, cmd)
     case Other => s
    ).(seen := s.seen + 1)
  }

  function Run(env: Env, s: State, cmds: seq<Command>): State
  {
    if cmds == [] then s else Step(env, Run(env, s, cmds[..|cmds| - 1]), cmds[|cmds| - 1])
  }

  // --- The classes ---

  class DtrSnapshot {
    var dtr0: Byte
    var dtr1: Byte
    var dtr2: Byte

    function Abs(): Registers
      reads this
    {
      Registers(dtr0, dtr1, dtr2)
    }

    constructor ()
      ensures Abs() == START.dtr
    {
      dtr0, dtr1, dtr2 := 0, 0, 0;
    }

    method Record(cmd: Command) returns (register: Option<Register>)
      modifies this
      ensures if cmd.Dtr? then
                Abs() == old(Abs()).Write(cmd.register, cmd.value)
                && register == Some(cmd.register)
              else register.None? && Abs() == old(Abs())
    {
      register := None;
      if cmd.Dtr? {
        if cmd.register == 0 { dtr0 := cmd.value; return Some(0); }
        if cmd.register == 1 { dtr1 := cmd.value; return Some(1); }
        dtr2 := cmd.value;
        return Some(2);
      }
    }
  }

  class ColourSequenceTracker {
    var pending: map<Uid, Capture>
    var written: set<Register>

    constructor ()
      ensures pending == map[] && written == {}
    {
      pending, written := map[], {};
    }

    method NoteDtr(register: Register)
      modifies this
      ensures pending == if old(written) == {} then map[] else old(pending)
      ensures written == old(written) + {register}
    {
      if written == {} {
        pending := map[];
      }
      written := written + {register};
    }

    method Record(uid: Uid, kind: Kind, dtr: Registers)
      modifies this`pending
      ensures pending == old(pending)[uid := Recorded(PendingOf(old(pending), uid), kind, written, dtr)]
    {
      var capture := PendingOf(pending, uid);
      pending := pending[uid := capture];
      if kind == SetRgbwafControl {
        pending := pending[uid := capture.(predictable := false)];
        return;
      }
      if !(Required(kind) <= written) {
        pending := pending[uid := capture.(predictable := false)];
        return;
      }
      var stored := Stored(kind, dtr);
      if stored.None? {
        pending := pending[uid := capture.(predictable := false)];
      } else {
        pending := pending[uid := capture.(components := capture.components + stored.value)];
      }
    }

    method Take(uid: Uid) returns (c: Option<Capture>)
      modifies this`pending
      ensures pending == old(pending) - {uid}
      ensures c == if uid in old(pending) then Some(old(pending)[uid]) else None
    {
      c := if uid in pending then Some(pending[uid]) else None;
      pending := pending - {uid};
    }

    method EndActivate()
      modifies this`written
      ensures written == {}
    {
      written := {};
    }
  }

  class EventSyncCoordinator {
    const env: Env
    const snapshot: DtrSnapshot
    const colour: ColourSequenceTracker
    ghost var events: seq<Event>
    ghost var seen: nat

    ghost function Abs(): State
      reads this, snapshot, colour
    {
      State(snapshot.Abs(), colour.pending, colour.written, events, seen)
    }

    constructor (env: Env)
      ensures this.env == env && Abs() == START && fresh(snapshot) && fresh(colour)
    {
      this.env := env;
      snapshot := new DtrSnapshot();
      colour := new ColourSequenceTracker();
      events, seen := [], 0;
    }

    method ApplyOne(cmd: Command)
      modifies this, snapshot, colour
      ensures Abs() == Step(env, old(Abs()), cmd)
    {
      ghost var s := Abs();
      var register := snapshot.Record(cmd);
      if register.Some? {
        colour.NoteDtr(register.value);
      } else if cmd.SetTemporary? {
        var uids := env.resolve(cmd.dest);
        for i := 0 to |uids|
          invariant Abs() == RecordAll(env, s, cmd.kind, uids[..i])
          invariant colour.written == s.written && snapshot.Abs() == s.dtr && seen == s.seen
        {
          assert uids[..i + 1][..i] == uids[..i];
          if env.hasHandler(uids[i]) {
            colour.Record(uids[i], cmd.kind, snapshot.Abs());
          }
        }
        assert uids[..|uids|] == uids;
      } else if cmd.Activate? {
        ApplyActivate(cmd);
      }
      seen := seen + 1;
    }

    method ApplyActivate(cmd: Command)
      requires cmd.Activate?
      modifies this`events, colour
      ensures Abs() == EndTransaction(env, old(Abs()), cmd)
    {
      ghost var s := Abs();
      var uids := Served(env, cmd);
      for i := 0 to |uids|
        invariant Abs() == TakeAll(env, s, uids[..i])
      {
        assert uids[..i + 1][..i] == uids[..i];
        var capture := colour.Take(uids[i]);
        if env.hasHandler(uids[i]) {
          if capture.Some? && capture.value.predictable && capture.value.components != map[] {
            events := events + [Event(uids[i], capture.value.components, seen)];
          }
        }
      }
      assert uids[..|uids|] == uids;
      var all := env.resolve(cmd.dest);
      if cmd.served < |all| {
        // The service fails after it has taken this device's capture.
        var _ := colour.Take(all[cmd.served]);
      }
      colour.EndActivate();
    }
  }

  // --- Soundness: what a report says about the trace ---

  /** The registers after `t`, from the writes in `t` alone. */
  function RegistersAfter(t: seq<Command>): Registers
  {
    if t == [] then Registers(0, 0, 0)
    else
      var before, cmd := RegistersAfter(t[..|t| - 1]), t[|t| - 1];
      if cmd.Dtr? then before.Write(cmd.register, cmd.value) else before
  }

  /** Register `r` was written after the last ACTIVATE of `t`. */
  predicate WrittenSince(t: seq<Command>, r: Register)
  {
    t != [] && var cmd := t[|t| - 1];
    !cmd.Activate? && ((cmd.Dtr? && cmd.register == r) || WrittenSince(t[..|t| - 1], r))
  }

  function KindOf(c: Component): Kind
  {
    match c
    case Red | Green | Blue => SetRgb
    case White | Amber | FreeColour => SetWaf
    case ColourTemperature => SetTc
    case XCoordinate => SetX
    case YCoordinate => SetY
    case Primary(_) => SetPrimaryN
  }

  function ValueOf(c: Component, r: Registers): nat
  {
    match c
    case Red | White => r.dtr0
    case Green | Amber => r.dtr1
    case Blue | FreeColour => r.dtr2
    case _ => r.dtr1 * 0x100 + r.dtr0
  }

  /** Command `i` of `t` sets component `c` of device `uid`. */
  predicate Sets(env: Env, t: seq<Command>, i: nat, uid: Uid, c: Component)
  {
    && i < |t| && t[i].SetTemporary? && t[i].kind == KindOf(c) && uid in env.resolve(t[i].dest)
    && (c.Primary? ==> c.n == RegistersAfter(t[..i]).dtr2)
  }

  /** `v` is what the registers held when `c` was last set, and the registers it was taken from
      had all been written since the ACTIVATE before that. */
  ghost predicate LastSet(env: Env, t: seq<Command>, i: nat, uid: Uid, c: Component, v: nat)
  {
    && Sets(env, t, i, uid, c) && v == ValueOf(c, RegistersAfter(t[..i]))
    && (forall r :: r in Required(t[i].kind) ==> WrittenSince(t[..i], r))
    && forall j: nat :: i < j ==> !Sets(env, t, j, uid, c)
  }

  ghost predicate Explained(env: Env, t: seq<Command>, uid: Uid, components: map<Component, nat>)
  {
    forall c :: c in components ==> exists i :: LastSet(env, t, i, uid, c, components[c])
  }

  ghost predicate PendingSound(env: Env, t: seq<Command>, pending: map<Uid, Capture>)
  {
    forall uid :: uid in pending ==>
      env.hasHandler(uid) && (pending[uid].predictable ==> Explained(env, t, uid, pending[uid].components))
  }

  /** Every report belongs to an ACTIVATE for its device and is explained by what precedes it. */
  ghost predicate EventsSound(env: Env, t: seq<Command>, events: seq<Event>)
  {
    forall e :: e in events ==>
      && e.at < |t| && t[e.at].Activate? && e.uid in env.resolve(t[e.at].dest)
      && Explained(env, t[..e.at], e.uid, e.components)
  }

  ghost predicate RegistersSound(t: seq<Command>, s: State)
  {
    && s.dtr == RegistersAfter(t) && s.seen == |t|
    && forall r: Register :: r in s.written <==> WrittenSince(t, r)
  }

  lemma SetsPrefix(env: Env, t: seq<Command>, x: Command, i: nat, uid: Uid, c: Component)
    requires i < |t|
    ensures Sets(env, t + [x], i, uid, c) <==> Sets(env, t, i, uid, c)
  {
    assert (t + [x])[..i] == t[..i];
  }

  lemma LastSetStays(env: Env, t: seq<Command>, x: Command, i: nat, uid: Uid, c: Component, v: nat)
    requires LastSet(env, t, i, uid, c, v) && !Sets(env, t + [x], |t|, uid, c)
    ensures LastSet(env, t + [x], i, uid, c, v)
  {
    assert (t + [x])[..i] == t[..i];
    forall j: nat | i < j
      ensures !Sets(env, t + [x], j, uid, c)
    {
      if j < |t| {
        SetsPrefix(env, t, x, j, uid, c);
      }
    }
  }

  lemma ExplainedStays(env: Env, t: seq<Command>, x: Command, uid: Uid, m: map<Component, nat>)
    requires Explained(env, t, uid, m)
    requires forall c :: c in m ==> !Sets(env, t + [x], |t|, uid, c)
    ensures Explained(env, t + [x], uid, m)
  {
    forall c | c in m
      ensures exists i :: LastSet(env, t + [x], i, uid, c, m[c])
    {
      var i :| LastSet(env, t, i, uid, c, m[c]);
      LastSetStays(env, t, x, i, uid, c, m[c]);
    }
  }

  /** Recording is the same for a device named once or more often. */
  lemma {:induction false} RecordAllEffect(env: Env, s: State, kind: Kind, uids: seq<Uid>)
    ensures var t := RecordAll(env, s, kind, uids);
            && t == s.(pending := t.pending)
            && forall uid ::
                 if uid in uids && env.hasHandler(uid)
                 then uid in t.pending && t.pending[uid] == Recorded(PendingOf(s.pending, uid), kind, s.written, s.dtr)
                 else
                   && (uid in t.pending <==> uid in s.pending)
                   && (uid in s.pending ==> t.pending[uid] == s.pending[uid])
  {
    if uids != [] {
      RecordAllEffect(env, s, kind, uids[..|uids| - 1]);
      var uid := uids[|uids| - 1];
      assert uids == uids[..|uids| - 1] + [uid];
      RecordedTwice(PendingOf(s.pending, uid), kind, s.written, s.dtr);
    }
  }

  lemma RecordedTwice(c: Capture, kind: Kind, written: set<Register>, dtr: Registers)
    ensures Recorded(Recorded(c, kind, written, dtr), kind, written, dtr) == Recorded(c, kind, written, dtr)
  {
  }

  lemma {:induction false} TakeAllEffect(env: Env, s: State, uids: seq<Uid>)
    ensures var t := TakeAll(env, s, uids);
            && t == s.(pending := t.pending, events := t.events)
            && (forall uid :: uid in t.pending <==> uid in s.pending && uid !in uids)
            && (forall uid :: uid in t.pending ==> t.pending[uid] == s.pending[uid])
            && s.events <= t.events
            && forall e :: e in t.events[|s.events|..] <==>
                 && e.uid in uids && env.hasHandler(e.uid) && Reports(PendingOf(s.pending, e.uid))
                 && e == Event(e.uid, PendingOf(s.pending, e.uid).components, s.seen)
  {
    if uids != [] {
      var front, uid := uids[..|uids| - 1], uids[|uids| - 1];
      assert uids == front + [uid];
      TakeAllEffect(env, s, front);
      var t, c := TakeAll(env, s, front), PendingOf(TakeAll(env, s, front).pending, uid);
      assert (t.events + [Event(uid, c.components, s.seen)])[|s.events|..]
        == t.events[|s.events|..] + [Event(uid, c.components, s.seen)];
    }
  }

  /** What one SetTemporary stores is what the registers hold. */
  lemma StoredIsValue(kind: Kind, r: Registers, c: Component)
    requires Stored(kind, r).Some? && c in Stored(kind, r).value
    ensures kind == KindOf(c) && Stored(kind, r).value[c] == ValueOf(c, r) && (c.Primary? ==> c.n == r.dtr2)
  {
    WordIsSum(r);
  }

  lemma SetIsStored(kind: Kind, r: Registers, c: Component)
    requires kind == KindOf(c) && (c.Primary? ==> c.n == r.dtr2) && Stored(kind, r).Some?
    ensures c in Stored(kind, r).value
  {
  }

  lemma RecordedSound(env: Env, t: seq<Command>, x: Command, s: State, uid: Uid)
    requires x.SetTemporary? && uid in env.resolve(x.dest) && RegistersSound(t, s)
    requires PendingOf(s.pending, uid).predictable ==> Explained(env, t, uid, PendingOf(s.pending, uid).components)
    ensures var c := Recorded(PendingOf(s.pending, uid), x.kind, s.written, s.dtr);
            c.predictable ==> Explained(env, t + [x], uid, c.components)
  {
    var before := PendingOf(s.pending, uid);
    var after := Recorded(before, x.kind, s.written, s.dtr);
    var t' := t + [x];
    assert t'[..|t|] == t;
    if after.predictable {
      var m := Stored(x.kind, s.dtr).value;
      forall c | c in after.components
        ensures exists i :: LastSet(env, t', i, uid, c, after.components[c])
      {
        if c in m {
          StoredIsValue(x.kind, s.dtr, c);
          assert LastSet(env, t', |t|, uid, c, m[c]);
        } else {
          var i :| LastSet(env, t, i, uid, c, before.components[c]);
          if Sets(env, t', |t|, uid, c) {
            SetIsStored(x.kind, s.dtr, c);
          }
          LastSetStays(env, t, x, i, uid, c, before.components[c]);
        }
      }
    }
  }

  lemma SetTemporarySound(env: Env, t: seq<Command>, x: Command, s: State)
    requires x.SetTemporary? && RegistersSound(t, s) && PendingSound(env, t, s.pending)
    ensures PendingSound(env, t + [x], Step(env, s, x).pending)
  {
    var s' := RecordAll(env, s, x.kind, env.resolve(x.dest));
    RecordAllEffect(env, s, x.kind, env.resolve(x.dest));
    forall uid | uid in s'.pending
      ensures env.hasHandler(uid)
      ensures s'.pending[uid].predictable ==> Explained(env, t + [x], uid, s'.pending[uid].components)
    {
      if uid in env.resolve(x.dest) && env.hasHandler(uid) {
        RecordedSound(env, t, x, s, uid);
      } else if s'.pending[uid].predictable {
        ExplainedStays(env, t, x, uid, s'.pending[uid].components);
      }
    }
  }

  lemma RegistersStep(env: Env, t: seq<Command>, x: Command, s: State)
    requires RegistersSound(t, s)
    ensures RegistersSound(t + [x], Step(env, s, x))
  {
    assert (t + [x])[..|t|] == t;
    if x.SetTemporary? {
      RecordAllEffect(env, s, x.kind, env.resolve(x.dest));
    } else if x.Activate? {
      TakeAllEffect(env, s, Served(env, x));
    }
  }

  lemma PendingStep(env: Env, t: seq<Command>, x: Command, s: State)
    requires RegistersSound(t, s) && PendingSound(env, t, s.pending)
    ensures PendingSound(env, t + [x], Step(env, s, x).pending)
  {
    if x.SetTemporary? {
      SetTemporarySound(env, t, x, s);
    } else {
      if x.Activate? { TakeAllEffect(env, s, Served(env, x)); }
      var s' := Step(env, s, x);
      forall uid | uid in s'.pending
        ensures env.hasHandler(uid)
        ensures s'.pending[uid].predictable ==> Explained(env, t + [x], uid, s'.pending[uid].components)
      {
        if s'.pending[uid].predictable {
          ExplainedStays(env, t, x, uid, s'.pending[uid].components);
        }
      }
    }
  }

  lemma EventsStep(env: Env, t: seq<Command>, x: Command, s: State)
    requires RegistersSound(t, s) && PendingSound(env, t, s.pending) && EventsSound(env, t, s.events)
    ensures EventsSound(env, t + [x], Step(env, s, x).events)
  {
    var s' := Step(env, s, x);
    if x.SetTemporary? {
      RecordAllEffect(env, s, x.kind, env.resolve(x.dest));
    }
    if x.Activate? {
      TakeAllEffect(env, s, Served(env, x));
      assert s'.events == s.events + s'.events[|s.events|..];
    }
    forall e | e in s'.events
      ensures e.at < |t| + 1 && (t + [x])[e.at].Activate? && e.uid in env.resolve((t + [x])[e.at].dest)
      ensures Explained(env, (t + [x])[..e.at], e.uid, e.components)
    {
      if e in s.events {
        assert (t + [x])[..e.at] == t[..e.at];
      } else {
        assert (t + [x])[..|t|] == t;
      }
    }
  }

  /**
   Over every command trace: each component of each report is what DTR0, DTR1 and DTR2 held when
   that component of that device was last set before its ACTIVATE, and the registers it was taken
   from had been written since the ACTIVATE before that.
   */
  lemma {:induction false} ReportsAreSound(env: Env, t: seq<Command>)
    ensures RegistersSound(t, Run(env, START, t))
    ensures PendingSound(env, t, Run(env, START, t).pending)
    ensures EventsSound(env, t, Run(env, START, t).events)
  {
    if t != [] {
      var front, x := t[..|t| - 1], t[|t| - 1];
      assert t == front + [x];
      ReportsAreSound(env, front);
      RegistersStep(env, front, x, Run(env, START, front));
      PendingStep(env, front, x, Run(env, START, front));
      EventsStep(env, front, x, Run(env, START, front));
    }
  }

  // --- Completeness: the command builders are inverted ---

  datatype Build =
    | BuildX(value: nat) | BuildY(value: nat) | BuildTc(value: nat)
    | BuildPrimary(value: nat, index: Byte)
    | BuildRgb(red: Byte, green: Byte, blue: Byte)
    | BuildWaf(white: Byte, amber: Byte, freeColour: Byte)

  function Low(value: nat): Byte
  {
    value % 0x100
  }

  function High(value: nat): Byte
  {
    value / 0x100 % 0x100
  }

  /** The commands that set a colour value without applying it. */
  function Commands(b: Build, dest: Destination): seq<Command>
  {
    match b
    case BuildX(v) => [Dtr(0, Low(v)), Dtr(1, High(v)), SetTemporary(SetX, dest)]
    case BuildY(v) => [Dtr(0, Low(v)), Dtr(1, High(v)), SetTemporary(SetY, dest)]
    case BuildTc(v) => [Dtr(0, Low(v)), Dtr(1, High(v)), SetTemporary(SetTc, dest)]
    case BuildPrimary(v, n) => [Dtr(0, Low(v)), Dtr(1, High(v)), Dtr(2, n), SetTemporary(SetPrimaryN, dest)]
    case BuildRgb(r, g, b) => [Dtr(0, r), Dtr(1, g), Dtr(2, b), SetTemporary(SetRgb, dest)]
    case BuildWaf(w, a, f) => [Dtr(0, w), Dtr(1, a), Dtr(2, f), SetTemporary(SetWaf, dest)]
  }

  /** The values the caller of the builder meant, reduced to the width of the registers. */
  function Meant(b: Build): map<Component, nat>
  {
    match b
    case BuildX(v) => map[XCoordinate := v % 0x10000]
    case BuildY(v) => map[YCoordinate := v % 0x10000]
    case BuildTc(v) => map[ColourTemperature := v % 0x10000]
    case BuildPrimary(v, n) => map[Primary(n) := v % 0x10000]
    case BuildRgb(r, g, b) => map[Red := r, Green := g, Blue := b]
    case BuildWaf(w, a, f) => map[White := w, Amber := a, FreeColour := f]
  }

  function AllCommands(bs: seq<Build>, dest: Destination): seq<Command>
  {
    if bs == [] then [] else AllCommands(bs[..|bs| - 1], dest) + Commands(bs[|bs| - 1], dest)
  }

  function AllMeant(bs: seq<Build>): map<Component, nat>
  {
    if bs == [] then map[] else AllMeant(bs[..|bs| - 1]) + Meant(bs[|bs| - 1])
  }

  /** A primary index that a luminaire has. */
  predicate WellFormed(b: Build)
  {
    b.BuildPrimary? ==> b.index < 6
  }

  lemma {:induction false} RunConcat(env: Env, s: State, a: seq<Command>, b: seq<Command>)
    ensures Run(env, s, a + b) == Run(env, Run(env, s, a), b)
  {
    if b == [] {
      assert a + b == a;
    } else {
      assert (a + b)[..|a + b| - 1] == a + b[..|b| - 1];
      RunConcat(env, s, a, b[..|b| - 1]);
    }
  }

  lemma RunOne(env: Env, s: State, x: Command)
    ensures Run(env, s, [x]) == Step(env, s, x)
  {
    assert [x][..0] == [];
  }

  lemma LowHigh(v: nat)
    ensures High(v) * 0x100 + Low(v) == v % 0x10000
  {
  }

  /** The state after the DTR writes of a builder, before its SetTemporary. */
  function Loaded(s: State, dtr: Registers, written: set<Register>, n: nat): State
  {
    State(dtr, if s.written == {} then map[] else s.pending, s.written + written, s.events, s.seen + n)
  }

  lemma LoadTwo(env: Env, s: State, a: Byte, b: Byte)
    ensures Run(env, s, [Dtr(0, a), Dtr(1, b)]) == Loaded(s, Registers(a, b, s.dtr.dtr2), {0, 1}, 2)
  {
    assert [Dtr(0, a), Dtr(1, b)] == [Dtr(0, a)] + [Dtr(1, b)];
    RunConcat(env, s, [Dtr(0, a)], [Dtr(1, b)]);
    RunOne(env, s, Dtr(0, a));
    RunOne(env, Step(env, s, Dtr(0, a)), Dtr(1, b));
    assert s.written + {0} + {1} == s.written + {0, 1};
  }

  lemma LoadThree(env: Env, s: State, a: Byte, b: Byte, c: Byte)
    ensures Run(env, s, [Dtr(0, a), Dtr(1, b), Dtr(2, c)]) == Loaded(s, Registers(a, b, c), {0, 1, 2}, 3)
  {
    assert [Dtr(0, a), Dtr(1, b), Dtr(2, c)] == [Dtr(0, a), Dtr(1, b)] + [Dtr(2, c)];
    RunConcat(env, s, [Dtr(0, a), Dtr(1, b)], [Dtr(2, c)]);
    LoadTwo(env, s, a, b);
    RunOne(env, Run(env, s, [Dtr(0, a), Dtr(1, b)]), Dtr(2, c));
    assert s.written + {0, 1} + {2} == s.written + {0, 1, 2};
  }

  function KindOfBuild(b: Build): Kind
  {
    match b
    case BuildX(_) => SetX
    case BuildY(_) => SetY
    case BuildTc(_) => SetTc
    case BuildPrimary(_, _) => SetPrimaryN
    case BuildRgb(_, _, _) => SetRgb
    case BuildWaf(_, _, _) => SetWaf
  }

  function RegistersOf(b: Build, before: Registers): Registers
  {
    match b
    case BuildX(v) => Registers(Low(v), High(v), before.dtr2)
    case BuildY(v) => Registers(Low(v), High(v), before.dtr2)
    case BuildTc(v) => Registers(Low(v), High(v), before.dtr2)
    case BuildPrimary(v, n) => Registers(Low(v), High(v), n)
    case BuildRgb(r, g, b) => Registers(r, g, b)
    case BuildWaf(w, a, f) => Registers(w, a, f)
  }

  /** Loading the registers and storing them stores what was meant. */
  lemma StoredIsMeant(b: Build, before: Registers)
    requires WellFormed(b)
    ensures Stored(KindOfBuild(b), RegistersOf(b, before)) == Some(Meant(b))
  {
    WordIsSum(RegistersOf(b, before));
    if b.BuildX? || b.BuildY? || b.BuildTc? || b.BuildPrimary? {
      LowHigh(b.value);
    }
  }

  lemma CommandsLoad(env: Env, s: State, b: Build, dest: Destination)
    ensures var n := |Commands(b, dest)| - 1;
            var loaded := Loaded(s, RegistersOf(b, s.dtr), Required(KindOfBuild(b)), n);
            Run(env, s, Commands(b, dest)) == Step(env, loaded, SetTemporary(KindOfBuild(b), dest))
  {
    var cmds := Commands(b, dest);
    var n := |cmds| - 1;
    assert cmds == cmds[..n] + [SetTemporary(KindOfBuild(b), dest)];
    RunConcat(env, s, cmds[..n], [SetTemporary(KindOfBuild(b), dest)]);
    RunOne(env, Run(env, s, cmds[..n]), SetTemporary(KindOfBuild(b), dest));
    if KindOfBuild(b) in {SetX, SetY, SetTc} {
      LoadTwo(env, s, Low(b.value), High(b.value));
      assert cmds[..n] == [Dtr(0, Low(b.value)), Dtr(1, High(b.value))];
    } else {
      var r := RegistersOf(b, s.dtr);
      LoadThree(env, s, r.dtr0, r.dtr1, r.dtr2);
      assert cmds[..n] == [Dtr(0, r.dtr0), Dtr(1, r.dtr1), Dtr(2, r.dtr2)];
    }
  }

  /** What a new transaction for `uid` starts from: nothing, unless a DTR write is still waiting
      for its ACTIVATE. */
  function Base(s: State, uid: Uid): Capture
  {
    if s.written == {} then NO_CAPTURE else PendingOf(s.pending, uid)
  }

  /** The capture for `uid` after a builder sequence that meant `m`. */
  ghost predicate Captured(s: State, t: State, uid: Uid, m: map<Component, nat>)
  {
    && t.written != {} && t.events == s.events && uid in t.pending
    && t.pending[uid] == Capture(Base(s, uid).components + m, Base(s, uid).predictable)
  }

  lemma CapturedThen(s: State, mid: State, t: State, uid: Uid, m: map<Component, nat>, m': map<Component, nat>)
    requires Captured(s, mid, uid, m) && Captured(mid, t, uid, m')
    ensures Captured(s, t, uid, m + m')
  {
    var base := Base(s, uid).components;
    assert (base + m) + m' == base + (m + m');
  }

  lemma BuildRuns(env: Env, s: State, b: Build, dest: Destination, uid: Uid)
    requires WellFormed(b) && uid in env.resolve(dest) && env.hasHandler(uid)
    ensures Captured(s, Run(env, s, Commands(b, dest)), uid, Meant(b))
  {
    CommandsLoad(env, s, b, dest);
    var n := |Commands(b, dest)| - 1;
    var loaded := Loaded(s, RegistersOf(b, s.dtr), Required(KindOfBuild(b)), n);
    RecordAllEffect(env, loaded, KindOfBuild(b), env.resolve(dest));
    StoredIsMeant(b, s.dtr);
    assert 0 in loaded.written;
  }

  lemma {:induction false} BuildsRun(env: Env, s: State, bs: seq<Build>, dest: Destination, uid: Uid)
    requires bs != [] && (forall b :: b in bs ==> WellFormed(b)) && uid in env.resolve(dest) && env.hasHandler(uid)
    ensures Captured(s, Run(env, s, AllCommands(bs, dest)), uid, AllMeant(bs))
  {
    var front, b := bs[..|bs| - 1], bs[|bs| - 1];
    var mid := Run(env, s, AllCommands(front, dest));
    RunConcat(env, s, AllCommands(front, dest), Commands(b, dest));
    BuildRuns(env, mid, b, dest, uid);
    if front == [] {
      assert mid == s;
      assert map[] + Meant(b) == Meant(b);
    } else {
      BuildsRun(env, s, front, dest, uid);
      CapturedThen(s, mid, Run(env, s, AllCommands(bs, dest)), uid, AllMeant(front), Meant(b));
    }
  }

  lemma {:induction false} SomethingMeant(bs: seq<Build>)
    requires bs != []
    ensures AllMeant(bs) != map[]
  {
    var b := bs[|bs| - 1];
    var c := match b
      case BuildX(_) => XCoordinate
      case BuildY(_) => YCoordinate
      case BuildTc(_) => ColourTemperature
      case BuildPrimary(_, n) => Primary(n)
      case BuildRgb(_, _, _) => Red
      case BuildWaf(_, _, _) => White;
    assert c in Meant(b);
  }

  /** The reports for `uid` that `t` adds to those of `s` are not empty and all carry `m`. */
  ghost predicate ReportsExactly(s: State, t: State, uid: Uid, m: map<Component, nat>)
  {
    && s.events <= t.events
    && (exists e :: e in t.events[|s.events|..] && e.uid == uid)
    && (forall e :: e in t.events[|s.events|..] && e.uid == uid ==> e.components == m)
  }

  lemma ReportsOneThing(s: State, t: State, uid: Uid, m: map<Component, nat>, m': map<Component, nat>)
    requires ReportsExactly(s, t, uid, m) && ReportsExactly(s, t, uid, m')
    ensures m == m'
  {
  }

  /** What a builder sequence and its ACTIVATE report for a device, from any state whatever. */
  lemma BuildersReport(env: Env, s: State, bs: seq<Build>, dest: Destination, served: nat, uid: Uid)
    requires bs != [] && (forall b :: b in bs ==> WellFormed(b))
    requires uid in Served(env, Activate(dest, served)) && env.hasHandler(uid)
    ensures var t := Run(env, s, AllCommands(bs, dest) + [Activate(dest, served)]);
            var m := Base(s, uid).components + AllMeant(bs);
            if Base(s, uid).predictable then ReportsExactly(s, t, uid, m)
            else s.events <= t.events && forall e :: e in t.events[|s.events|..] ==> e.uid != uid
  {
    hide Run, AllCommands, RecordAll, TakeAll, AllMeant, WellFormed;
    var cmd := Activate(dest, served);
    var mid := Run(env, s, AllCommands(bs, dest));
    RunConcat(env, s, AllCommands(bs, dest), [cmd]);
    RunOne(env, mid, cmd);
    assert uid in env.resolve(dest);
    BuildsRun(env, s, bs, dest, uid);
    TakeAllEffect(env, mid, Served(env, cmd));
    SomethingMeant(bs);
    var m := Base(s, uid).components + AllMeant(bs);
    assert m != map[] by {
      assert AllMeant(bs).Keys != {};
    }
    var t := Run(env, s, AllCommands(bs, dest) + [cmd]);
    if Base(s, uid).predictable {
      assert Event(uid, m, mid.seen) in t.events[|s.events|..];
    }
  }

  lemma ActivateEnds(env: Env, history: seq<Command>)
    requires history != [] && history[|history| - 1].Activate?
    ensures Run(env, START, history).written == {}
  {
  }

  lemma BaseOfNew(s: State, uid: Uid)
    requires s.written == {}
    ensures Base(s, uid) == NO_CAPTURE
  {
  }

  /** After any history whose last transaction was activated, the builders are inverted: the report
      is exactly the values written, with nothing from earlier transactions. */
  lemma BuildersAreInverted(env: Env, history: seq<Command>, bs: seq<Build>, dest: Destination, served: nat, uid: Uid)
    requires history != [] && history[|history| - 1].Activate?
    requires bs != [] && (forall b :: b in bs ==> WellFormed(b))
    requires uid in Served(env, Activate(dest, served)) && env.hasHandler(uid)
    ensures var s := Run(env, START, history);
            ReportsExactly(s, Run(env, s, AllCommands(bs, dest) + [Activate(dest, served)]), uid, AllMeant(bs))
  {
    var s := Run(env, START, history);
    ActivateEnds(env, history);
    BaseOfNew(s, uid);
    hide Run, Step, AllCommands, Base, Served;
    BuildersReport(env, s, bs, dest, served, uid);
    assert map[] + AllMeant(bs) == AllMeant(bs);
  }

  /**
   In general an abandoned transaction, whose ACTIVATE was missed, can bleed into the next one.  The
   report is exactly what was written if and only if no DTR write was waiting, or what is pending
   for the device is predictable and touches no other component.
   */
  lemma BuildersAreInvertedExactlyWhen(env: Env, s: State, bs: seq<Build>, dest: Destination, served: nat, uid: Uid)
    requires bs != [] && (forall b :: b in bs ==> WellFormed(b))
    requires uid in Served(env, Activate(dest, served)) && env.hasHandler(uid)
    ensures
      ReportsExactly(s, Run(env, s, AllCommands(bs, dest) + [Activate(dest, served)]), uid, AllMeant(bs))
      <==>
      (s.written == {}
       || (PendingOf(s.pending, uid).predictable && PendingOf(s.pending, uid).components.Keys <= AllMeant(bs).Keys))
  {
    BuildersReport(env, s, bs, dest, served, uid);
    var base, m := Base(s, uid).components, AllMeant(bs);
    var t := Run(env, s, AllCommands(bs, dest) + [Activate(dest, served)]);
    KeysDecide(base, m);
    if ReportsExactly(s, t, uid, m) && ReportsExactly(s, t, uid, base + m) {
      ReportsOneThing(s, t, uid, m, base + m);
    }
  }

  lemma KeysDecide(base: map<Component, nat>, m: map<Component, nat>)
    ensures base + m == m <==> base.Keys <= m.Keys
  {
    if base.Keys <= m.Keys {
      assert base + m == m;
    } else {
      assert (base + m).Keys == base.Keys + m.Keys;
    }
  }

  /** Such a state is reached: a colour temperature is set, its ACTIVATE is lost, and a following
      RGB write reports the colour temperature as well. */
  lemma AbandonedTransactionBleeds(env: Env, tc: nat, r: Byte, g: Byte, b: Byte, dest: Destination, uid: Uid)
    requires env.resolve(dest) == [uid] && env.hasHandler(uid)
    ensures var s := Run(env, START, Commands(BuildTc(tc), dest));
            !ReportsExactly(s, Run(env, s, AllCommands([BuildRgb(r, g, b)], dest) + [Activate(dest, 1)]), uid,
                            AllMeant([BuildRgb(r, g, b)]))
  {
    var s := Run(env, START, Commands(BuildTc(tc), dest));
    BuildRuns(env, START, BuildTc(tc), dest, uid);
    BuildersAreInvertedExactlyWhen(env, s, [BuildRgb(r, g, b)], dest, 1, uid);
    assert ColourTemperature in s.pending[uid].components;
    assert ColourTemperature !in AllMeant([BuildRgb(r, g, b)]);
  }
}
