/** The readers of several ticks as the polling round sees them: what `PollBudget` assumes of a
    reader is what the colour and the energy reader do. */
module PollReaders {
  import opened Prelude
  import opened PollBudget
  import Colours = ColourReadCycle
  import Energies = EnergyRead

  function SizeOf(t: Option<Colours.ColourType>): PartSize
  {
    if t == Some(Colours.Rgbwaf) then 2 else 3
  }

  function Sizes(t: Option<Colours.ColourType>, count: nat): (s: seq<PartSize>)
    ensures |s| == count && forall i :: 0 <= i < count ==> s[i] == SizeOf(t)
  {
    seq(count, i => SizeOf(t))
  }

  /** The parts that a colour reader has still to read: the opening one and one for each component. */
  function ColourParts(s: Colours.ReaderState, due: bool): seq<PartSize>
  {
    if !Colours.IsPollDue(s, due) then []
    else if s.progress.None? then [3] + Sizes(s.colourType, |s.active|)
    else Sizes(s.colourType, |s.progress.value.pending|)
  }

  /** The colour reader plans as a reader with those parts does. */
  lemma ColourPlans(s: Colours.ReaderState, due: bool, maxCommands: int)
    requires Colours.Atomic(s) && s.flight.None?
    ensures var plan := NextPollStep(Colour(ColourParts(s, due)), maxCommands);
            (plan.hasMore, plan.commands) == Colours.PlanOf(s, due, maxCommands)
  {
  }

  /** Whether an answer spoils the part in flight. */
  predicate ColourFails(s: Colours.ReaderState, answer: Colours.Answer)
    requires s.flight.Some?
  {
    || answer.Silence?
    || (s.flight.value.colourType.None?
        && (answer.msb == Colours.MASK || Colours.Decode(answer.msb).None?
            || Colours.Decode(answer.msb) != s.colourType))
  }

  /** A part that is sent and answered leaves the others; one that fails leaves nothing to read until
      the next read is due. */
  lemma ColourReads(s: Colours.ReaderState, due: bool, maxCommands: int, answer: Colours.Answer)
    requires Colours.Atomic(s) && s.flight.None?
    requires Colours.PlanOf(s, due, maxCommands).1 > 0
    ensures var planned := Colours.Next(s, Colours.Plan(due, maxCommands));
            && planned.flight.Some?
            && var read := Colours.Next(planned, Colours.Answered(answer));
               Colour(ColourParts(read, false)) ==
               if ColourFails(planned, answer) then PartFailed(Colour(ColourParts(s, due)))
               else PartRead(Colour(ColourParts(s, due)))
  {
    var planned := Colours.Next(s, Colours.Plan(due, maxCommands));
    var read := Colours.Next(planned, Colours.Answered(answer));
    var parts := ColourParts(s, due);
    if s.progress.None? {
      assert parts[1..] == Sizes(s.colourType, |s.active|);
    } else {
      assert parts[1..] == Sizes(s.colourType, |s.progress.value.pending| - 1);
    }
  }

  /** The chunks that an energy reader has still to read: three of data, after one for the scale if
      that is not known. */
  function EnergyChunks(s: Energies.ReaderState, due: bool): nat
  {
    if !Energies.IsPollDue(s, due) || |Energies.BytesRead(s)| > Energies.DATA_LENGTH then 0
    else
      (if Energies.NeedsScale(s) then 1 else 0)
      + (Energies.DATA_LENGTH - |Energies.BytesRead(s)|) / Energies.CHUNK_SIZE
  }

  lemma EnergyPlans(s: Energies.ReaderState, due: bool, maxCommands: int)
    requires Energies.Atomic(s) && s.flight.None?
    ensures var plan := NextPollStep(Energy(EnergyChunks(s, due)), maxCommands);
            (plan.hasMore, plan.commands) == Energies.PlanOf(s, due, maxCommands)
  {
  }

  lemma EnergyReads(s: Energies.ReaderState, due: bool, maxCommands: int, memory: Energies.Memory,
                    check: Energies.Check)
    requires Energies.Atomic(s) && s.flight.None?
    requires Energies.PlanOf(s, due, maxCommands).1 > 0
    ensures var planned := Energies.Next(s, Energies.Plan(due, maxCommands), check);
            && planned.flight.Some?
            && Energy(EnergyChunks(Energies.Next(planned, Energies.Answered(memory), check), false))
               == PartRead(Energy(EnergyChunks(s, due)))
            && Energy(EnergyChunks(Energies.Next(planned, Energies.Unanswered, check), false))
               == PartFailed(Energy(EnergyChunks(s, due)))
  {
  }
}
