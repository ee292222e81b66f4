/** The multi-tick colour read of DT8 gear and the colour picture it maintains (`Type8Parameters`). */
module ColourReadCycle {
  import opened Prelude
  import opened Bits
  import opened ColourCapture

  const MASK: nat := 0xFF
  const MASK_2BYTES: nat := 0xFFFF

  // 10000 K and 1000 K.
  const UI_MIN_TC_MIREK: nat := 100
  const UI_MAX_TC_MIREK: nat := 1000

  datatype ColourType = Xy | Temperature | PrimaryN | Rgbwaf

  function Decode(raw: nat): Option<ColourType>
  {
    if raw == 0x10 then Some(Xy)
    else if raw == 0x20 then Some(Temperature)
    else if raw == 0x40 then Some(PrimaryN)
    else if raw == 0x80 then Some(Rgbwaf)
    else None
  }

  function Components(t: ColourType): seq<Component>
  {
    match t
    case Xy => [XCoordinate, YCoordinate]
    case Temperature => [ColourTemperature]
    case PrimaryN => [Primary(0), Primary(1), Primary(2), Primary(3), Primary(4), Primary(5)]
    case Rgbwaf => [Red, Green, Blue, White]
  }

  predicate IsByteComponent(c: Component)
  {
    c in {Red, Green, Blue, White, Amber, FreeColour}
  }

  /** The value that stands for "not available". */
  function UnsetRaw(c: Component): nat
  {
    if IsByteComponent(c) then MASK else MASK_2BYTES
  }

  predicate IsUnset(c: Component, value: nat)
  {
    (c == ColourTemperature && value == 0) || value == UnsetRaw(c)
  }

  /** Temperature limits in mirek, with the interface's limits for gear that has no limit registers. */
  datatype Limits = Limits(tcMin: nat, tcMax: nat) {
    function Coolest(): nat
    {
      if tcMin == MASK_2BYTES then UI_MIN_TC_MIREK else tcMin
    }

    function Warmest(): nat
    {
      if tcMax == MASK_2BYTES then UI_MAX_TC_MIREK else tcMax
    }
  }

  type Picture = map<Component, nat>

  /** How far a read cycle has come; no colour type until its opening part is answered. */
  datatype Progress = Progress(colourType: Option<ColourType>, pending: seq<Component>, done: Picture)

  const OPENING := Progress(None, [], map[])

  datatype Event = ReadFailed(components: set<Component>) | Read(picture: Picture) | Observed(known: Picture)

  /** `active` are the components of the colour type the gear is driven as.  `flight` is what the
      part that is awaited holds on to: the progress of the cycle, even after a cancellation has
      taken it from the reader.  The rest is history: `cycle` numbers the read cycles from 1,
      `emitted` are the cycles of the read events in `events`, `cancelled` the cycles that were
      cancelled, and `orphaned` those of them that had a part in flight then. */
  datatype ReaderState = ReaderState(
    colourType: Option<ColourType>, active: seq<Component>, limits: Limits,
    progress: Option<Progress>, flight: Option<Progress>, colour: Picture,
    events: seq<Event>, cycle: nat, emitted: seq<nat>, cancelled: set<nat>, orphaned: set<nat>)

  /** What the gear answers to one part of a read, after the retries. */
  datatype Answer = Silence | Bytes(msb: nat, lsb: nat)

  /** What happens between two points at which the event loop can switch.  `Plan` is a turn of the
      poll, `Answered` the end of the part it sent: the polling loop awaits the part before it plans
      another, but commands are observed and reads are cancelled meanwhile. */
  datatype Step =
    | Plan(due: bool, maxCommands: int)
    | Answered(answer: Answer)
    | Observe(components: Picture)
    | Cancel
    | SetLimits(limits: Limits)

  /** The components of the colour type the gear is driven as. */
  function ActiveOf(t: Option<ColourType>): seq<Component>
  {
    if t.None? then [] else Components(t.value)
  }

  function ColourOf(colour: Picture, active: seq<Component>): Picture
  {
    map c | c in active :: if c in colour then colour[c] else UnsetRaw(c)
  }

  function Failed(active: seq<Component>): Event
  {
    ReadFailed(SetOf(active))
  }

  /** The part in flight ends the cycle in an error. */
  function Fail(s: ReaderState): ReaderState
  {
    s.(progress := None, flight := None, events := s.events + [Failed(s.active)], emitted := s.emitted + [s.cycle])
  }

  /** The part in flight moves its cycle on; of a cancelled cycle nothing is left. */
  function MoveOn(s: ReaderState, p: Progress): ReaderState
  {
    s.(progress := if s.progress.Some? then Some(p) else None, flight := None)
  }

  /** The opening part: the colour type the gear reports must be the one it is driven as. */
  function FirstPart(s: ReaderState, answer: Answer): ReaderState
  {
    if answer.Silence? || answer.msb == MASK || Decode(answer.msb).None? || Decode(answer.msb) != s.colourType
    then Fail(s)
    else MoveOn(s, Progress(s.colourType, s.active, map[]))
  }

  function ValueOfAnswer(t: Option<ColourType>, msb: nat, lsb: nat): nat
  {
    if t == Some(Rgbwaf) then msb else BitOr(msb * 0x100, lsb)
  }

  /** A component: the last one updates the picture and reports it. */
  function ComponentPart(s: ReaderState, p: Progress, answer: Answer): ReaderState
    requires p.pending != []
  {
    if answer.Silence? then Fail(s)
    else
      var done := p.done[p.pending[0] := ValueOfAnswer(p.colourType, answer.msb, answer.lsb)];
      if |p.pending| > 1 then MoveOn(s, Progress(p.colourType, p.pending[1..], done))
      else
        var colour := s.colour + done;
        s.(progress := None, flight := None, colour := colour,
           events := s.events + [Read(ColourOf(colour, s.active))], emitted := s.emitted + [s.cycle])
  }

  function EndPart(s: ReaderState, answer: Answer): ReaderState
  {
    if s.flight.None? then s
    else if s.flight.value.colourType.None? then FirstPart(s, answer)
    else if s.flight.value.pending == [] then s
    else ComponentPart(s, s.flight.value, answer)
  }

  /** How many commands the next part takes. */
  function PartSize(progress: Option<Progress>): nat
  {
    if progress.None? || progress.value.colourType != Some(Rgbwaf) then 3 else 2
  }

  predicate IsPollDue(s: ReaderState, due: bool)
  {
    s.colourType.Some? && (s.progress.Some? || due)
  }

  /** A poll turn starts a cycle when one is due, and goes on with one that is under way, if the
      next part fits. */
  function PlanPart(s: ReaderState, due: bool, maxCommands: int): ReaderState
  {
    if s.flight.Some? || !IsPollDue(s, due) || PartSize(s.progress) > maxCommands then s
    else if s.progress.None? then s.(progress := Some(OPENING), flight := Some(OPENING), cycle := s.cycle + 1)
    else s.(flight := s.progress)
  }

  /** What the scheduler is told: whether parts follow, and how many commands this one takes. */
  function PlanOf(s: ReaderState, due: bool, maxCommands: int): (bool, nat)
  {
    if !IsPollDue(s, due) then (false, 0)
    else if PartSize(s.progress) > maxCommands then (true, 0)
    else (s.progress.None? || s.progress.value.colourType.None? || |s.progress.value.pending| > 1, PartSize(s.progress))
  }

  function Known(picture: Picture): Picture
  {
    map c | c in picture && !IsUnset(c, picture[c]) :: picture[c]
  }

  function Clamped(colour: Picture, limits: Limits): Picture
  {
    if ColourTemperature !in colour || IsUnset(ColourTemperature, colour[ColourTemperature]) then colour
    else
      var tc := colour[ColourTemperature];
      var raised := if tc < limits.Coolest() then limits.Coolest() else tc;
      colour[ColourTemperature := if raised > limits.Warmest() then limits.Warmest() else raised]
  }

  /** The components of the active type that an observed command names. */
  function Relevant(components: Picture, active: seq<Component>): Picture
  {
    map c | c in Known(components) && c in active :: components[c]
  }

  function ApplyObserved(s: ReaderState, components: Picture): ReaderState
  {
    if s.colourType.None? || components == map[] then s
    else
      var active := s.active;
      var colour := Clamped(s.colour + Relevant(components, active), s.limits);
      var known := Known(ColourOf(colour, active));
      s.(colour := colour, events := if known == map[] then s.events else s.events + [Observed(known)])
  }

  /** Takes the cycle under way from the reader; a part in flight goes on by itself. */
  function CancelPoll(s: ReaderState): ReaderState
  {
    s.(progress := None,
       cancelled := if s.progress.Some? then s.cancelled + {s.cycle} else s.cancelled,
       orphaned := if s.progress.Some? && s.flight.Some? then s.orphaned + {s.cycle} else s.orphaned)
  }

  function Next(s: ReaderState, e: Step): ReaderState
  {
    match e
    case Plan(due, maxCommands) => PlanPart(s, due, maxCommands)
    case Answered(answer) => EndPart(s, answer)
    case Observe(components) => ApplyObserved(s, components)
    case Cancel => CancelPoll(s)
    case SetLimits(limits) => s.(limits := limits)
  }

  function Start(t: Option<ColourType>, limits: Limits): ReaderState
  {
    ReaderState(t, ActiveOf(t), limits, None, None, map[], [], 0, [], {}, {})
  }

  function Run(s: ReaderState, steps: seq<Step>): ReaderState
  {
    if steps == [] then s else Next(Run(s, steps[..|steps| - 1]), steps[|steps| - 1])
  }

  /** The progress of one read cycle, shared by the reader and the part that is awaited. */
  class ReadProgress {
    var colourType: Option<ColourType>
    var pending: seq<Component>
    var done: Picture

    function Abs(): Progress
      reads this
    {
      Progress(colourType, pending, done)
    }

    constructor ()
      ensures Abs() == OPENING
    {
      colourType, pending, done := None, [], map[];
    }
  }

  class Type8Parameters {
    const colourType: Option<ColourType>
    var limits: Limits
    var progress: ReadProgress?
    var colour: Picture
    ghost var flight: ReadProgress?
    ghost var events: seq<Event>
    ghost var cycle: nat
    ghost var emitted: seq<nat>
    ghost var cancelled: set<nat>
    ghost var orphaned: set<nat>

    /** A part in flight belongs to the cycle under way, unless that was cancelled. */
    ghost predicate Valid()
      reads this
    {
      progress != null && flight != null ==> progress == flight
    }

    ghost function Abs(): ReaderState
      reads this, progress, flight
    {
      ReaderState(colourType, ActiveOf(colourType), limits,
                  if progress == null then None else Some(progress.Abs()),
                  if flight == null then None else Some(flight.Abs()),
                  colour, events, cycle, emitted, cancelled, orphaned)
    }

    constructor (colourType: Option<ColourType>, limits: Limits)
      ensures Valid() && Abs() == Start(colourType, limits)
    {
      this.colourType, this.limits := colourType, limits;
      progress, colour, flight := null, map[], null;
      events, cycle, emitted, cancelled, orphaned := [], 0, [], {}, {};
    }

    /** Plans the next part.  `part` is what it will hold on to; there is none if nothing is due or
        the part does not fit into the budget. */
    method NextPollStep(due: bool, maxCommands: int) returns (hasMore: bool, commands: nat, part: ReadProgress?)
      requires Valid() && flight == null
      modifies this`progress, this`flight, this`cycle
      ensures Valid() && Abs() == Next(old(Abs()), Plan(due, maxCommands))
      ensures part == flight && (hasMore, commands) == PlanOf(old(Abs()), due, maxCommands)
    {
      if colourType.None? || (progress == null && !due) {
        return false, 0, null;
      }
      var size := 3;
      if progress != null && progress.colourType == Some(Rgbwaf) {
        size := 2;
      }
      if size > maxCommands {
        return true, 0, null;
      }
      if progress == null {
        progress := new ReadProgress();
        cycle := cycle + 1;
      }
      flight := progress;
      return progress.colourType.None? || |progress.pending| > 1, size, progress;
    }

    /** The opening part is answered. */
    method DoFirstSubbatch(part: ReadProgress, answer: Answer) returns (event: Option<Event>)
      requires Valid() && part == flight && part.colourType.None?
      modifies this`progress, this`flight, this`events, this`emitted, part
      ensures Valid() && flight == null && Abs() == Next(old(Abs()), Answered(answer))
      ensures event == if |events| > |old(events)| then Some(events[|events| - 1]) else None
    {
      if answer.Silence? || answer.msb == MASK {
        event := EndInError();
        return;
      }
      var reported := Decode(answer.msb);
      if reported.None? || reported != colourType {
        event := EndInError();
        return;
      }
      part.colourType, part.pending, part.done := reported, Components(reported.value), map[];
      flight := null;
      return None;
    }

    /** The part in flight ends its cycle, cancelled or not, with one event for all components. */
    method EndInError() returns (event: Option<Event>)
      modifies this`progress, this`flight, this`events, this`emitted
      ensures flight == null && progress == null && Abs() == Fail(old(Abs()))
      ensures event == Some(Failed(ActiveOf(colourType)))
    {
      progress, flight := null, null;
      event := Some(Failed(ActiveOf(colourType)));
      events, emitted := events + [event.value], emitted + [cycle];
    }

    /** A component part is answered. */
    method DoComponentSubbatch(part: ReadProgress, answer: Answer) returns (event: Option<Event>)
      requires Valid() && part == flight && part.colourType.Some? && part.pending != []
      modifies this`progress, this`flight, this`events, this`emitted, this`colour, part
      ensures Valid() && flight == null && Abs() == Next(old(Abs()), Answered(answer))
      ensures event == if |events| > |old(events)| then Some(events[|events| - 1]) else None
    {
      if answer.Silence? {
        event := EndInError();
        return;
      }
      part.done := part.done[part.pending[0] := ValueOfAnswer(part.colourType, answer.msb, answer.lsb)];
      part.pending := part.pending[1..];
      flight := null;
      if part.pending != [] {
        return None;
      }
      progress := null;
      colour := colour + part.done;
      event := Some(Read(ColourOf(colour, ActiveOf(colourType))));
      events, emitted := events + [event.value], emitted + [cycle];
    }

    method ApplyObservedColour(components: Picture)
      requires Valid()
      modifies this`colour, this`events
      ensures Valid() && Abs() == Next(old(Abs()), Observe(components))
    {
      hide Relevant, Known, ColourOf, Clamped;
      if colourType.None? || components == map[] {
        return;
      }
      colour := colour + Relevant(components, ActiveOf(colourType));
      ClampTc();
      var known := Known(ColourOf(colour, ActiveOf(colourType)));
      if known != map[] {
        events := events + [Observed(known)];
      }
    }

    method ClampTc()
      modifies this`colour
      ensures colour == Clamped(old(colour), limits)
    {
      if ColourTemperature !in colour || IsUnset(ColourTemperature, colour[ColourTemperature]) {
        return;
      }
      var tc := colour[ColourTemperature];
      if tc < limits.Coolest() { tc := limits.Coolest(); }
      if tc > limits.Warmest() { tc := limits.Warmest(); }
      colour := colour[ColourTemperature := tc];
    }

    method CancelPendingPoll()
      requires Valid()
      modifies this`progress, this`cancelled, this`orphaned
      ensures Valid() && Abs() == Next(old(Abs()), Cancel)
    {
      if progress != null {
        cancelled := cancelled + {cycle};
        if flight != null {
          orphaned := orphaned + {cycle};
        }
      }
      progress := null;
    }

    method UpdateLimits(limits: Limits)
      requires Valid()
      modifies this`limits
      ensures Valid() && Abs() == Next(old(Abs()), SetLimits(limits))
    {
      this.limits := limits;
    }
  }

  // --- Atomic cycles ---

  function Finished(events: seq<Event>): nat
  {
    if events == [] then 0
    else Finished(events[..|events| - 1]) + (if events[|events| - 1].Observed? then 0 else 1)
  }

  function SetOf(cs: seq<Component>): set<Component>
  {
    set c | c in cs
  }

  /** The components read so far and those still to read are the active ones, each once. */
  ghost predicate PartWay(active: seq<Component>, p: Progress)
  {
    && 0 < |p.pending| <= |active| && p.pending == active[|active| - |p.pending|..]
    && p.done.Keys == SetOf(active[..|active| - |p.pending|])
  }

  /** What an event of a finished cycle carries: nothing of any active component, or all of them. */
  predicate WholeCycle(active: seq<Component>, e: Event)
  {
    match e
    case ReadFailed(cs) => cs == SetOf(active)
    case Read(picture) => picture.Keys == SetOf(active)
    case Observed(_) => true
  }

  ghost predicate Sound(active: seq<Component>, t: Option<ColourType>, p: Progress)
  {
    t.Some? && active != [] && (p == OPENING || (p.colourType == t && PartWay(active, p)))
  }

  /** A part in flight holds the progress of the cycle under way, if that was not cancelled. */
  ghost predicate InStep(active: seq<Component>, t: Option<ColourType>, progress: Option<Progress>,
                         flight: Option<Progress>)
  {
    && (progress.Some? ==> Sound(active, t, progress.value))
    && (flight.Some? ==> Sound(active, t, flight.value))
    && (progress.Some? && flight.Some? ==> progress == flight)
    && (progress == Some(OPENING) ==> flight.Some?)
  }

  /** No cycle emits twice; a cycle that is over and was not cancelled has emitted; and a cancelled
      one emits only if a part of it was in flight. */
  ghost predicate OneEventEach(cycle: nat, emitted: seq<nat>, cancelled: set<nat>, orphaned: set<nat>, underWay: bool)
  {
    && (forall i, j :: 0 <= i < j < |emitted| ==> emitted[i] != emitted[j])
    && (forall c :: c in emitted ==> 1 <= c <= cycle)
    && (forall c :: c in cancelled ==> 1 <= c <= cycle)
    && orphaned <= cancelled
    && (forall c :: 1 <= c <= cycle && c !in cancelled ==> (c in emitted <==> !(underWay && c == cycle)))
    && (forall c :: c in cancelled && c !in orphaned ==> c !in emitted)
  }

  /** The present cycle while it is under way or has a part in flight. */
  ghost predicate Open(cycle: nat, emitted: seq<nat>, cancelled: set<nat>, orphaned: set<nat>, underWay: bool,
                       inFlight: bool)
  {
    && (underWay ==> cycle > 0 && cycle !in cancelled)
    && (inFlight ==> cycle > 0 && cycle !in emitted && (!underWay ==> cycle in orphaned))
  }

  /** The invariant of the reader. */
  ghost predicate Atomic(s: ReaderState)
  {
    && InStep(s.active, s.colourType, s.progress, s.flight)
    && OneEventEach(s.cycle, s.emitted, s.cancelled, s.orphaned, s.progress.Some?)
    && Open(s.cycle, s.emitted, s.cancelled, s.orphaned, s.progress.Some?, s.flight.Some?)
    && |s.emitted| == Finished(s.events)
    && (forall e :: e in s.events ==> WholeCycle(s.active, e))
    && (s.colourType.Some? ==> s.active != [])
  }

  lemma FinishedAppended(events: seq<Event>, e: Event)
    ensures Finished(events + [e]) == Finished(events) + (if e.Observed? then 0 else 1)
  {
    assert (events + [e])[..|events|] == events;
  }

  lemma NextOfPrefix(cs: seq<Component>, k: nat, done: Picture, v: nat)
    requires k < |cs| && done.Keys == SetOf(cs[..k])
    ensures done[cs[k] := v].Keys == SetOf(cs[..k + 1])
  {
    assert cs[..k + 1] == cs[..k] + [cs[k]];
  }

  lemma ComponentPartWay(active: seq<Component>, p: Progress, v: nat)
    requires PartWay(active, p)
    ensures var done := p.done[p.pending[0] := v];
            if |p.pending| > 1 then PartWay(active, Progress(p.colourType, p.pending[1..], done))
            else done.Keys == SetOf(active)
  {
    NextOfPrefix(active, |active| - |p.pending|, p.done, v);
    assert |p.pending| == 1 ==> active[..|active|] == active;
  }

  lemma Opened(active: seq<Component>, t: Option<ColourType>)
    requires active != []
    ensures PartWay(active, Progress(t, active, map[]))
  {
    assert active[..0] == [];
  }

  /** The part in flight emits the one event of its cycle. */
  lemma CycleEmits(cycle: nat, emitted: seq<nat>, cancelled: set<nat>, orphaned: set<nat>, underWay: bool)
    requires OneEventEach(cycle, emitted, cancelled, orphaned, underWay)
    requires Open(cycle, emitted, cancelled, orphaned, underWay, true)
    ensures OneEventEach(cycle, emitted + [cycle], cancelled, orphaned, false)
    ensures Open(cycle, emitted + [cycle], cancelled, orphaned, false, false)
  {
  }

  lemma FailAtomic(s: ReaderState)
    requires Atomic(s) && s.flight.Some?
    ensures Atomic(Fail(s))
  {
    CycleEmits(s.cycle, s.emitted, s.cancelled, s.orphaned, s.progress.Some?);
    FinishedAppended(s.events, Failed(s.active));
  }

  lemma MoveOnAtomic(s: ReaderState, p: Progress)
    requires Atomic(s) && s.flight.Some? && p != OPENING && Sound(s.active, s.colourType, p)
    ensures Atomic(MoveOn(s, p))
  {
  }

  lemma ReportAtomic(s: ReaderState, colour: Picture)
    requires Atomic(s) && s.flight.Some?
    ensures Atomic(s.(progress := None, flight := None, colour := colour,
                      events := s.events + [Read(ColourOf(colour, s.active))], emitted := s.emitted + [s.cycle]))
  {
    CycleEmits(s.cycle, s.emitted, s.cancelled, s.orphaned, s.progress.Some?);
    FinishedAppended(s.events, Read(ColourOf(colour, s.active)));
  }

  lemma EndPartAtomic(s: ReaderState, answer: Answer)
    requires Atomic(s)
    ensures Atomic(EndPart(s, answer))
  {
    if s.flight.Some? {
      var p := s.flight.value;
      if answer.Silence? {
        FailAtomic(s);
      } else if p.colourType.None? {
        FailAtomic(s);
        Opened(s.active, s.colourType);
        MoveOnAtomic(s, Progress(s.colourType, s.active, map[]));
      } else {
        var v := ValueOfAnswer(p.colourType, answer.msb, answer.lsb);
        var done := p.done[p.pending[0] := v];
        ComponentPartWay(s.active, p, v);
        if |p.pending| > 1 {
          MoveOnAtomic(s, Progress(p.colourType, p.pending[1..], done));
        } else {
          ReportAtomic(s, s.colour + done);
        }
      }
    }
  }

  lemma PlanAtomic(s: ReaderState, due: bool, maxCommands: int)
    requires Atomic(s)
    ensures Atomic(PlanPart(s, due, maxCommands))
  {
  }

  lemma ObservedAtomic(s: ReaderState, components: Picture)
    requires Atomic(s)
    ensures Atomic(ApplyObserved(s, components))
  {
    var colour := Clamped(s.colour + Relevant(components, s.active), s.limits);
    FinishedAppended(s.events, Observed(Known(ColourOf(colour, s.active))));
  }

  lemma NextAtomic(s: ReaderState, e: Step)
    requires Atomic(s)
    ensures Atomic(Next(s, e)) && Next(s, e).active == s.active && Next(s, e).colourType == s.colourType
  {
    match e {
      case Plan(due, maxCommands) => PlanAtomic(s, due, maxCommands);
      case Answered(answer) => EndPartAtomic(s, answer);
      case Observe(components) => ObservedAtomic(s, components);
      case Cancel =>
      case SetLimits(_) =>
    }
  }

  /**
   Over every run of plans, answers, silences, observed commands and cancellations, also of those
   that come while a part is in flight: no read cycle emits more than one event, each that is over
   and was not cancelled has emitted exactly one, and every event covers all active components.
   */
  lemma {:induction false} CyclesAreAtomic(t: Option<ColourType>, limits: Limits, steps: seq<Step>)
    ensures var s := Run(Start(t, limits), steps);
            && s.active == ActiveOf(t) && s.colourType == t && Atomic(s)
            && OneEventEach(s.cycle, s.emitted, s.cancelled, s.orphaned, s.progress.Some?)
  {
    if steps != [] {
      CyclesAreAtomic(t, limits, steps[..|steps| - 1]);
      NextAtomic(Run(Start(t, limits), steps[..|steps| - 1]), steps[|steps| - 1]);
    }
  }

  /** A cycle that was cancelled with a part in flight still emits exactly when that part fails, or
      brings the last component. */
  lemma OrphanEmitsExactlyWhen(s: ReaderState, answer: Answer)
    requires Atomic(s) && s.flight.Some? && s.progress.None?
    ensures var p := s.flight.value;
            var opening := p.colourType.None?;
            s.cycle in Next(s, Answered(answer)).emitted <==>
            || answer.Silence?
            || (opening && (answer.msb == MASK || Decode(answer.msb).None? || Decode(answer.msb) != s.colourType))
            || (!opening && |p.pending| == 1)
  {
  }

  /** So a cancelled cycle can still report and change the picture: a colour temperature is asked
      for, the read is cancelled, and the answer comes. */
  lemma CancelledCycleReports(limits: Limits, msb: nat, lsb: nat)
    ensures var steps := [Plan(true, 3), Answered(Bytes(0x20, 0)), Plan(true, 3), Cancel, Answered(Bytes(msb, lsb))];
            var s := Run(Start(Some(Temperature), limits), steps);
            var picture := map[ColourTemperature := BitOr(msb * 0x100, lsb)];
            && s.cancelled == {1} && s.emitted == [1] && s.events == [Read(picture)] && s.colour == picture
  {
    var start := Start(Some(Temperature), limits);
    var r1 := [Plan(true, 3)];
    var r2 := r1 + [Answered(Bytes(0x20, 0))];
    var r3 := r2 + [Plan(true, 3)];
    var r4 := r3 + [Cancel];
    var r5 := r4 + [Answered(Bytes(msb, lsb))];
    var p := Progress(Some(Temperature), [ColourTemperature], map[]);
    RunNext(start, [], Plan(true, 3));
    assert [] + r1 == r1;
    var s1 := start.(progress := Some(OPENING), flight := Some(OPENING), cycle := 1);
    assert Run(start, r1) == s1;
    RunNext(start, r1, Answered(Bytes(0x20, 0)));
    var s2 := s1.(progress := Some(p), flight := None);
    assert Run(start, r2) == s2;
    RunNext(start, r2, Plan(true, 3));
    var s3 := s2.(flight := Some(p));
    assert Run(start, r3) == s3;
    RunNext(start, r3, Cancel);
    var s4 := s3.(progress := None, cancelled := {1}, orphaned := {1});
    assert Run(start, r4) == s4;
    RunNext(start, r4, Answered(Bytes(msb, lsb)));
    CancelledReport(s4, p, msb, lsb);
    assert r5 == [Plan(true, 3), Answered(Bytes(0x20, 0)), Plan(true, 3), Cancel, Answered(Bytes(msb, lsb))];
  }

  lemma CancelledReport(s: ReaderState, p: Progress, msb: nat, lsb: nat)
    requires s.flight == Some(p) && p == Progress(Some(Temperature), [ColourTemperature], map[])
    requires s.active == [ColourTemperature] && s.colour == map[]
    ensures var t, picture := Next(s, Answered(Bytes(msb, lsb))), map[ColourTemperature := BitOr(msb * 0x100, lsb)];
            && t.cancelled == s.cancelled && t.emitted == s.emitted + [s.cycle]
            && t.events == s.events + [Read(picture)] && t.colour == picture
  {
    var v := BitOr(msb * 0x100, lsb);
    assert map[] + map[][ColourTemperature := v] == map[ColourTemperature := v];
    assert ColourOf(map[ColourTemperature := v], [ColourTemperature]) == map[ColourTemperature := v];
  }

  lemma RunNext(s: ReaderState, steps: seq<Step>, e: Step)
    ensures Run(s, steps + [e]) == Next(Run(s, steps), e)
  {
    assert (steps + [e])[..|steps|] == steps;
  }

  /** The stored picture changes only with an observed command or with a read event, and then holds
      what that event reports. */
  lemma PictureChangesWhole(s: ReaderState, e: Step)
    requires Next(s, e).colour != s.colour
    ensures e.Observe?
            || (e.Answered? && Next(s, e).events == s.events + [Read(ColourOf(Next(s, e).colour, s.active))])
  {
  }

  /** A read event carries the answers of its own cycle and nothing older. */
  lemma ReadIsFresh(s: ReaderState, answer: Answer)
    requires Atomic(s) && s.flight.Some? && |s.flight.value.pending| == 1 && answer.Bytes?
    ensures var p := s.flight.value;
            var done := p.done[p.pending[0] := ValueOfAnswer(p.colourType, answer.msb, answer.lsb)];
            Next(s, Answered(answer)).events == s.events + [Read(done)]
  {
    var p := s.flight.value;
    var v := ValueOfAnswer(p.colourType, answer.msb, answer.lsb);
    ComponentPartWay(s.active, p, v);
    WholePicture(s.colour, p.done[p.pending[0] := v], s.active);
  }

  lemma WholePicture(colour: Picture, done: Picture, active: seq<Component>)
    requires done.Keys == SetOf(active)
    ensures ColourOf(colour + done, active) == done
  {
    assert forall c :: c in active <==> c in done.Keys;
  }

  // --- Clamping ---

  /** An observed temperature is kept within the limits exactly when they are in order. */
  lemma ClampExact(colour: Picture, limits: Limits)
    requires ColourTemperature in colour && !IsUnset(ColourTemperature, colour[ColourTemperature])
    ensures var tc := Clamped(colour, limits)[ColourTemperature];
            limits.Coolest() <= tc <= limits.Warmest() <==> limits.Coolest() <= limits.Warmest()
    ensures limits.Coolest() <= colour[ColourTemperature] <= limits.Warmest() ==> Clamped(colour, limits) == colour
  {
    assert colour[ColourTemperature := colour[ColourTemperature]] == colour;
  }

  // --- What an answer means ---

  /** The byte by which gear reports its colour type. */
  function Code(t: ColourType): nat
  {
    match t
    case Xy => 0x10
    case Temperature => 0x20
    case PrimaryN => 0x40
    case Rgbwaf => 0x80
  }

  /** The opening part goes on to the components exactly if the gear reports the type it is driven as, and
      fails the cycle, with one error for all active components, otherwise. */
  lemma OpeningFailsExactlyWhen(s: ReaderState, t: ColourType, answer: Answer)
    requires s.colourType == Some(t) && s.flight == Some(OPENING)
    ensures var next := Next(s, Answered(answer));
            if answer.Bytes? && answer.msb == Code(t)
            then next.events == s.events && next.progress ==
                 if s.progress.Some? then Some(Progress(Some(t), s.active, map[])) else None
            else next.events == s.events + [ReadFailed(SetOf(s.active))] && next.progress == None
  {
  }

  /** A component of RGBWAF gear is the byte it answers, any other the two bytes, high one first. */
  lemma AnswerIsValue(t: ColourType, msb: nat, lsb: nat)
    requires lsb < 0x100
    ensures ValueOfAnswer(Some(t), msb, lsb) == if t == Rgbwaf then msb else msb * 0x100 + lsb
  {
    if t != Rgbwaf {
      assert Pow2(8) == 0x100;
      OrOfDisjoint(msb, 8, lsb);
    }
  }

  // --- What an observed command does to the picture ---

  /** The component has a value, and not one that stands for "not available". */
  predicate IsKnown(picture: Picture, c: Component)
  {
    c in picture && IsValue(c, picture[c])
  }

  /** All bits set stand for no value, and so does a temperature of zero. */
  predicate IsValue(c: Component, v: nat)
  {
    v != (if c in {Red, Green, Blue, White, Amber, FreeColour} then 0xFF else 0xFFFF)
    && (c == ColourTemperature ==> v != 0)
  }

  /** The value that an observed command leaves for a component, before the temperature is clamped: the one
      it names, if that is a value and the component is of the active type, or else the one there was. */
  function Overlaid(before: Picture, active: seq<Component>, components: Picture, c: Component): Option<nat>
  {
    if c in active && IsKnown(components, c) then Some(components[c])
    else if c in before then Some(before[c])
    else None
  }

  /** `after` is `tc` within the limits: itself if it lies between them, the one it is beyond if they are in
      order, and the warmest if they are not. */
  ghost predicate IsClamped(tc: nat, limits: Limits, after: nat)
  {
    var coolest := if limits.tcMin == 0xFFFF then 100 else limits.tcMin;
    var warmest := if limits.tcMax == 0xFFFF then 1000 else limits.tcMax;
    if coolest > warmest || tc > warmest then after == warmest
    else if tc < coolest then after == coolest
    else after == tc
  }

  /** After an observed command every component has the value it names for it, if there is one, and its own
      otherwise, but for a known temperature, which is clamped. */
  lemma ObservedIsOverlaid(s: ReaderState, components: Picture, c: Component)
    requires s.colourType.Some? && components != map[]
    ensures var colour, value := ApplyObserved(s, components).colour, Overlaid(s.colour, s.active, components, c);
            if c == ColourTemperature && value.Some? && IsValue(c, value.value)
            then c in colour && IsClamped(value.value, s.limits, colour[c])
            else (c in colour <==> value.Some?) && (c in colour ==> colour[c] == value.value)
  {
    var overlaid := s.colour + Relevant(components, s.active);
    assert c in Relevant(components, s.active) <==> c in s.active && IsKnown(components, c);
    assert c in overlaid <==> Overlaid(s.colour, s.active, components, c).Some?;
  }

  /** It is reported with the values that the components of the active type have by then: those that are
      known and no others, if there are any. */
  lemma ObservedIsReported(s: ReaderState, components: Picture) returns (known: Picture)
    requires s.colourType.Some? && components != map[]
    ensures var colour := ApplyObserved(s, components).colour;
            forall c :: (c in known <==> c in s.active && IsKnown(colour, c)) && (c in known ==> known[c] == colour[c])
    ensures ApplyObserved(s, components).events ==
            if known == map[] then s.events else s.events + [Observed(known)]
  {
    hide Known, ColourOf, Clamped, Relevant, IsKnown;
    known := Known(ColourOf(ApplyObserved(s, components).colour, s.active));
    KnownOf(ApplyObserved(s, components).colour, s.active);
  }

  lemma KnownOf(colour: Picture, active: seq<Component>)
    ensures var known := Known(ColourOf(colour, active));
            forall c :: (c in known <==> c in active && IsKnown(colour, c)) && (c in known ==> known[c] == colour[c])
  {
  }
}
