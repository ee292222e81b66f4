/** The chunked read of the energy counter of DT51 gear (`Type51Parameters`). */
module EnergyRead {
  import opened Prelude
  import Cycles = ColourReadCycle

  type Byte = b: nat | b < 0x100

  // In memory bank 202: the scale at 0x04, six bytes of energy from 0x05 on, two for each chunk.
  const SCALE_ADDRESS: nat := 4
  const FIRST_ADDRESS: nat := 5
  const DATA_LENGTH: nat := 6
  const CHUNK_SIZE: nat := 2
  const CHUNK_COMMANDS: nat := 4
  const DEFAULT_MAX_COMMANDS: int := 3

  /** The counter as read, scale first, or a failure. */
  datatype Event = ReadFailed | EnergyRead(raw: seq<Byte>)

  /** The part that is awaited; a data chunk holds on to the bytes read before it. */
  datatype Flight = ScaleChunk | DataChunk(bytes: seq<Byte>)

  /** `progress` are the bytes that the cycle under way has read.  The last four fields number the
      read cycles and say which emitted an event, were cancelled, or were cancelled with a part in
      flight. */
  datatype ReaderState = ReaderState(
    scale: Option<Byte>, progress: Option<seq<Byte>>, flight: Option<Flight>,
    events: seq<Event>, cycle: nat, emitted: seq<nat>, cancelled: set<nat>, orphaned: set<nat>)

  type Memory = nat -> Byte

  /** What happens between two points at which the event loop can switch.  A part that is answered
      finds the bank as `memory`. */
  datatype Step =
    | Plan(due: bool, maxCommands: int)
    | Answered(memory: Memory)
    | Unanswered
    | Cancel
    | SetScale(scale: Option<Byte>)

  /** Which raw counters stand for a value, and not for one that is missing or invalid. */
  type Check = seq<Byte> -> bool

  predicate IsPollDue(s: ReaderState, due: bool)
  {
    s.progress.Some? || due
  }

  function BytesRead(s: ReaderState): seq<Byte>
  {
    if s.progress.Some? then s.progress.value else []
  }

  predicate NeedsScale(s: ReaderState)
  {
    s.scale.None? && BytesRead(s) == []
  }

  function PlanChunk(s: ReaderState, due: bool, maxCommands: int): ReaderState
  {
    if s.flight.Some? || maxCommands < DEFAULT_MAX_COMMANDS || !IsPollDue(s, due) then s
    else
      s.(progress := Some(BytesRead(s)),
         flight := Some(if NeedsScale(s) then ScaleChunk else DataChunk(BytesRead(s))),
         cycle := if s.progress.None? then s.cycle + 1 else s.cycle)
  }

  /** The part in flight ends its cycle with an event. */
  function Finish(s: ReaderState, e: Event): ReaderState
  {
    s.(progress := None, flight := None, events := s.events + [e], emitted := s.emitted + [s.cycle])
  }

  function NextBytes(bytes: seq<Byte>, memory: Memory): seq<Byte>
  {
    bytes + [memory(FIRST_ADDRESS + |bytes|), memory(FIRST_ADDRESS + |bytes| + 1)]
  }

  function Result(scale: Option<Byte>, bytes: seq<Byte>, check: Check): Event
  {
    if scale.None? || !check([scale.value] + bytes) then ReadFailed else EnergyRead([scale.value] + bytes)
  }

  function EndChunk(s: ReaderState, memory: Memory, check: Check): ReaderState
  {
    match s.flight
    case None => s
    case Some(ScaleChunk) => s.(scale := Some(memory(SCALE_ADDRESS)), flight := None)
    case Some(DataChunk(before)) =>
      var bytes := NextBytes(before, memory);
      if |bytes| < DATA_LENGTH then
        s.(progress := if s.progress.Some? then Some(bytes) else None, flight := None)
      else Finish(s, Result(s.scale, bytes, check))
  }

  function CancelPoll(s: ReaderState): ReaderState
  {
    s.(progress := None,
       cancelled := if s.progress.Some? then s.cancelled + {s.cycle} else s.cancelled,
       orphaned := if s.progress.Some? && s.flight.Some? then s.orphaned + {s.cycle} else s.orphaned)
  }

  function Next(s: ReaderState, e: Step, check: Check): ReaderState
  {
    match e
    case Plan(due, maxCommands) => PlanChunk(s, due, maxCommands)
    case Answered(memory) => EndChunk(s, memory, check)
    case Unanswered => if s.flight.Some? then Finish(s, ReadFailed) else s
    case Cancel => CancelPoll(s)
    case SetScale(scale) => s.(scale := scale)
  }

  function Start(scale: Option<Byte>): ReaderState
  {
    ReaderState(scale, None, None, [], 0, [], {}, {})
  }

  function Run(s: ReaderState, steps: seq<Step>, check: Check): ReaderState
  {
    if steps == [] then s else Next(Run(s, steps[..|steps| - 1], check), steps[|steps| - 1], check)
  }

  /** What the scheduler is told: whether chunks follow, and how many commands this one takes. */
  function PlanOf(s: ReaderState, due: bool, maxCommands: int): (bool, nat)
  {
    if maxCommands < DEFAULT_MAX_COMMANDS then (true, 0)
    else if !IsPollDue(s, due) then (false, 0)
    else (NeedsScale(s) || |BytesRead(s)| / CHUNK_SIZE < DATA_LENGTH / CHUNK_SIZE - 1, CHUNK_COMMANDS)
  }

  /** The bytes of one cycle, shared by the reader and the chunk that is awaited. */
  class ReadProgress {
    var bytes: seq<Byte>

    constructor ()
      ensures bytes == []
    {
      bytes := [];
    }
  }

  class Type51Parameters {
    const check: Check
    var scale: Option<Byte>
    var progress: ReadProgress?
    ghost var flight: ReadProgress?
    ghost var scaling: bool
    ghost var events: seq<Event>
    ghost var cycle: nat
    ghost var emitted: seq<nat>
    ghost var cancelled: set<nat>
    ghost var orphaned: set<nat>

    /** A chunk in flight belongs to the cycle under way, unless that was cancelled. */
    ghost predicate Valid()
      reads this
    {
      progress != null && flight != null ==> progress == flight
    }

    ghost function Abs(): ReaderState
      reads this, progress, flight
    {
      ReaderState(scale, if progress == null then None else Some(progress.bytes),
                  if flight == null then None else Some(if scaling then ScaleChunk else DataChunk(flight.bytes)),
                  events, cycle, emitted, cancelled, orphaned)
    }

    constructor (scale: Option<Byte>, check: Check)
      ensures Valid() && Abs() == Start(scale) && this.check == check
    {
      this.scale, this.check, progress, flight, scaling := scale, check, null, null, false;
      events, cycle, emitted, cancelled, orphaned := [], 0, [], {}, {};
    }

    /** Plans the next chunk; `part` is what it will hold on to, `forScale` which of the two it is. */
    method NextPollStep(due: bool, maxCommands: int)
      returns (hasMore: bool, commands: nat, part: ReadProgress?, forScale: bool)
      requires Valid() && flight == null
      modifies this`progress, this`flight, this`scaling, this`cycle
      ensures Valid() && Abs() == Next(old(Abs()), Plan(due, maxCommands), check)
      ensures (hasMore, commands) == PlanOf(old(Abs()), due, maxCommands)
      ensures part == flight && (part != null ==> forScale == scaling)
    {
      if maxCommands < DEFAULT_MAX_COMMANDS {
        return true, 0, null, false;
      }
      if progress == null && !due {
        return false, 0, null, false;
      }
      if progress == null {
        progress := new ReadProgress();
        cycle := cycle + 1;
      }
      flight, scaling := progress, scale.None? && progress.bytes == [];
      if scale.None? && progress.bytes == [] {
        return true, CHUNK_COMMANDS, progress, true;
      }
      return |progress.bytes| / CHUNK_SIZE < DATA_LENGTH / CHUNK_SIZE - 1, CHUNK_COMMANDS, progress, false;
    }

    method FailCycle() returns (event: Option<Event>)
      requires flight != null
      modifies this`progress, this`flight, this`events, this`emitted
      ensures Valid() && Abs() == Next(old(Abs()), Unanswered, check) && event == Some(ReadFailed)
    {
      progress, flight := null, null;
      events, emitted := events + [ReadFailed], emitted + [cycle];
      return Some(ReadFailed);
    }

    method DoScaleChunk(part: ReadProgress, memory: Memory) returns (event: Option<Event>)
      requires Valid() && flight == part && scaling
      modifies this`scale, this`flight
      ensures Valid() && Abs() == Next(old(Abs()), Answered(memory), check) && event == None
    {
      scale := Some(memory(SCALE_ADDRESS));
      flight := null;
      return None;
    }

    method DoChunk(part: ReadProgress, memory: Memory) returns (event: Option<Event>)
      requires Valid() && flight == part && !scaling
      modifies this`progress, this`flight, this`events, this`emitted, part
      ensures Valid() && Abs() == Next(old(Abs()), Answered(memory), check)
      ensures event == if |events| > |old(events)| then Some(events[|events| - 1]) else None
    {
      var address := FIRST_ADDRESS + |part.bytes|;
      part.bytes := part.bytes + [memory(address), memory(address + 1)];
      flight := null;
      if |part.bytes| < DATA_LENGTH {
        return None;
      }
      progress := null;
      event := Some(if scale.None? || !check([scale.value] + part.bytes) then ReadFailed
                    else EnergyRead([scale.value] + part.bytes));
      events, emitted := events + [event.value], emitted + [cycle];
    }

    method CancelPendingPoll()
      requires Valid()
      modifies this`progress, this`cancelled, this`orphaned
      ensures Valid() && Abs() == Next(old(Abs()), Cancel, check)
    {
      if progress != null {
        cancelled := cancelled + {cycle};
        if flight != null {
          orphaned := orphaned + {cycle};
        }
      }
      progress := null;
    }
  }

  // --- Cycles ---

  ghost predicate WholeChunks(bytes: seq<Byte>)
  {
    |bytes| < DATA_LENGTH && |bytes| % CHUNK_SIZE == 0
  }

  /** A chunk in flight follows on from what the cycle under way has read. */
  ghost predicate InStep(progress: Option<seq<Byte>>, flight: Option<Flight>)
  {
    && (progress.Some? ==> WholeChunks(progress.value))
    && (flight.Some? && flight.value.DataChunk? ==> WholeChunks(flight.value.bytes))
    && (progress.Some? && flight.Some? ==>
          progress.value == if flight.value.ScaleChunk? then [] else flight.value.bytes)
  }

  /** The invariant of the reader. */
  ghost predicate Atomic(s: ReaderState)
  {
    && InStep(s.progress, s.flight)
    && Cycles.OneEventEach(s.cycle, s.emitted, s.cancelled, s.orphaned, s.progress.Some?)
    && Cycles.Open(s.cycle, s.emitted, s.cancelled, s.orphaned, s.progress.Some?, s.flight.Some?)
    && |s.emitted| == |s.events|
    && forall e :: e in s.events && e.EnergyRead? ==> |e.raw| == DATA_LENGTH + 1
  }

  lemma NextAtomic(s: ReaderState, e: Step, check: Check)
    requires Atomic(s)
    ensures Atomic(Next(s, e, check))
  {
    if s.flight.Some? {
      Cycles.CycleEmits(s.cycle, s.emitted, s.cancelled, s.orphaned, s.progress.Some?);
    }
  }

  /** Over every run, cancellations with a chunk in flight included: no read cycle emits more than
      one event, and each that is over and was not cancelled has emitted exactly one. */
  lemma {:induction false} CyclesAreAtomic(scale: Option<Byte>, steps: seq<Step>, check: Check)
    ensures Atomic(Run(Start(scale), steps, check))
  {
    if steps != [] {
      CyclesAreAtomic(scale, steps[..|steps| - 1], check);
      NextAtomic(Run(Start(scale), steps[..|steps| - 1], check), steps[|steps| - 1], check);
    }
  }

  /** The `count` bytes from `address` on. */
  function Bytes(memory: Memory, address: nat, count: nat): (b: seq<Byte>)
    ensures |b| == count && forall i :: 0 <= i < count ==> b[i] == memory(address + i)
  {
    seq(count, (i: nat) => memory(address + i))
  }

  /** All that is read is what the gear holds, from its first byte on. */
  ghost predicate FromMemory(s: ReaderState, memory: Memory)
  {
    && (s.scale.Some? ==> s.scale.value == memory(SCALE_ADDRESS))
    && (s.progress.Some? ==> s.progress.value == Bytes(memory, FIRST_ADDRESS, |s.progress.value|))
    && (s.flight.Some? && s.flight.value.DataChunk? ==>
          s.flight.value.bytes == Bytes(memory, FIRST_ADDRESS, |s.flight.value.bytes|))
    && forall e :: e in s.events && e.EnergyRead? ==> e.raw == Bytes(memory, SCALE_ADDRESS, |e.raw|)
  }

  lemma NextFromMemory(s: ReaderState, e: Step, check: Check, memory: Memory)
    requires FromMemory(s, memory)
    requires e.Answered? ==> e.memory == memory
    requires e.SetScale? && e.scale.Some? ==> e.scale.value == memory(SCALE_ADDRESS)
    ensures FromMemory(Next(s, e, check), memory)
  {
    if e.Answered? && s.flight.Some? && s.flight.value.DataChunk? {
      var bytes := NextBytes(s.flight.value.bytes, memory);
      assert bytes == Bytes(memory, FIRST_ADDRESS, |bytes|);
      if s.scale.Some? {
        assert [s.scale.value] + bytes == Bytes(memory, SCALE_ADDRESS, |bytes| + 1);
      }
    }
  }

  /** While the counter stands still, every energy reported is the gear's scale and its six bytes, in
      their order, from one cycle: whatever parts failed and whichever cycles were cancelled. */
  lemma {:induction false} ReportsTheCounter(scale: Option<Byte>, steps: seq<Step>, check: Check, memory: Memory)
    requires scale.Some? ==> scale.value == memory(SCALE_ADDRESS)
    requires forall e :: e in steps && e.Answered? ==> e.memory == memory
    requires forall e :: e in steps && e.SetScale? && e.scale.Some? ==> e.scale.value == memory(SCALE_ADDRESS)
    ensures FromMemory(Run(Start(scale), steps, check), memory)
    ensures forall e :: e in Run(Start(scale), steps, check).events && e.EnergyRead?
              ==> e.raw == Bytes(memory, 4, 7)
  {
    CyclesAreAtomic(scale, steps, check);
    if steps != [] {
      var front, last := steps[..|steps| - 1], steps[|steps| - 1];
      assert last in steps && forall e :: e in front ==> e in steps;
      ReportsTheCounter(scale, front, check, memory);
      NextFromMemory(Run(Start(scale), front, check), last, check, memory);
    }
  }

  /** The chunk in flight is the last of its cycle. */
  predicate IsLastChunk(s: ReaderState)
  {
    s.flight.Some? && s.flight.value.DataChunk? && |s.flight.value.bytes| + CHUNK_SIZE >= DATA_LENGTH
  }

  /** While the counter stands still, the last chunk of a cycle, once answered, reports the energy if and
      only if the counter is valid and the scale known, and an error otherwise; a part that is not answered
      reports an error, and nothing else reports anything. */
  lemma ReportsExactlyWhenValid(scale: Option<Byte>, steps: seq<Step>, check: Check, memory: Memory, e: Step)
    requires scale.Some? ==> scale.value == memory(SCALE_ADDRESS)
    requires forall e :: e in steps && e.Answered? ==> e.memory == memory
    requires forall e :: e in steps && e.SetScale? && e.scale.Some? ==> e.scale.value == memory(SCALE_ADDRESS)
    ensures var s := Run(Start(scale), steps, check);
            var counter := Bytes(memory, SCALE_ADDRESS, DATA_LENGTH + 1);
            && Next(s, Answered(memory), check).events ==
               (if !IsLastChunk(s) then s.events
                else s.events + [if s.scale.Some? && check(counter) then EnergyRead(counter) else ReadFailed])
            && Next(s, Unanswered, check).events == (if s.flight.Some? then s.events + [ReadFailed] else s.events)
            && (!e.Answered? && !e.Unanswered? ==> Next(s, e, check).events == s.events)
  {
    hide Run, Cycles.OneEventEach, Cycles.Open;
    var s := Run(Start(scale), steps, check);
    CyclesAreAtomic(scale, steps, check);
    ReportsTheCounter(scale, steps, check, memory);
    if IsLastChunk(s) {
      var bytes := NextBytes(s.flight.value.bytes, memory);
      assert bytes == Bytes(memory, FIRST_ADDRESS, DATA_LENGTH);
      if s.scale.Some? {
        assert [s.scale.value] + bytes == Bytes(memory, SCALE_ADDRESS, DATA_LENGTH + 1);
      }
    }
  }
}
