/** The command budget of a polling tick, and the rounds it works off (`PollScheduler.poll`,
    `DaliDeviceBase.poll_controls`, `next_poll_step` of the three kinds of pollables). */
module PollBudget {

  const DEFAULT_MAX_COMMANDS: int := 3
  const ENERGY_CHUNK_COMMANDS: nat := 4

  /** The commands of one part of a colour read. */
  type PartSize = n: nat | n == 2 || n == 3 witness 2

  /** A control read by one query; the DT8 colour reader with the sizes of the parts it has still to
      read; the DT51 energy reader with the chunks it has still to read.  A reader with nothing left
      is not due. */
  datatype Pollable = Single(id: nat) | Colour(parts: seq<PartSize>) | Energy(chunks: nat)

  /** The plan of one pollable: whether it stays at the head, and how many commands it sends now. */
  datatype Plan = Plan(hasMore: bool, commands: nat)

  function NextPollStep(p: Pollable, maxCommands: int): Plan
  {
    match p
    case Single(_) => if maxCommands < 1 then Plan(true, 0) else Plan(false, 1)
    case Colour(parts) =>
      if parts == [] then Plan(false, 0)
      else if parts[0] > maxCommands then Plan(true, 0)
      else Plan(|parts| > 1, parts[0])
    case Energy(chunks) =>
      if maxCommands < DEFAULT_MAX_COMMANDS then Plan(true, 0)
      else if chunks == 0 then Plan(false, 0)
      else Plan(chunks > 1, ENERGY_CHUNK_COMMANDS)
  }

  /** The reader after the part it sent was answered. */
  function PartRead(p: Pollable): Pollable
  {
    match p
    case Single(_) => p
    case Colour(parts) => if parts == [] then p else Colour(parts[1..])
    case Energy(chunks) => if chunks == 0 then p else Energy(chunks - 1)
  }

  /** The reader after the part it sent failed: the read is over, and the next one is not due yet. */
  function PartFailed(p: Pollable): Pollable
  {
    match p
    case Single(_) => p
    case Colour(_) => Colour([])
    case Energy(_) => Energy(0)
  }

  datatype Batch = Batch(pollable: Pollable, commands: nat)

  function Total(batches: seq<Batch>): nat
  {
    if batches == [] then 0 else Total(batches[..|batches| - 1]) + batches[|batches| - 1].commands
  }

  /** Within `budget`, except that an energy chunk may be all that a full budget is spent on. */
  predicate WithinBudget(batches: seq<Batch>, budget: int)
  {
    || Total(batches) <= budget
    || (budget == DEFAULT_MAX_COMMANDS && |batches| == 1 && batches[0].pollable.Energy?
        && batches[0].commands == ENERGY_CHUNK_COMMANDS)
  }

  /** The plan of a device for a tick: its batches, what is left of its round, and whether the
      reader at the head of it has a part in flight. */
  datatype Turn = Turn(batches: seq<Batch>, round: seq<Pollable>, inFlight: bool)

  function Next(b: seq<Batch>, p: Pollable, plan: Plan): seq<Batch>
  {
    if plan.commands > 0 then b + [Batch(p, plan.commands)] else b
  }

  function TakeTurn(batches: seq<Batch>, round: seq<Pollable>, maxCommands: int): Turn
    decreases |round|
  {
    if round == [] then Turn(batches, round, false)
    else
      var plan := NextPollStep(round[0], maxCommands - Total(batches));
      var next := Next(batches, round[0], plan);
      if plan.hasMore then Turn(next, round, plan.commands > 0) else TakeTurn(next, round[1..], maxCommands)
  }

  /** The round once the answers of the tick are in: a part in flight was read or has failed. */
  function AfterAnswers(round: seq<Pollable>, inFlight: bool, failed: bool): seq<Pollable>
  {
    if round == [] || !inFlight then round
    else [if failed then PartFailed(round[0]) else PartRead(round[0])] + round[1..]
  }

  // --- One turn ---

  lemma NextTotal(b: seq<Batch>, p: Pollable, plan: Plan)
    ensures Total(Next(b, p, plan)) == Total(b) + plan.commands
  {
    assert (b + [Batch(p, plan.commands)])[..|b|] == b;
  }

  predicate AllSend(batches: seq<Batch>)
  {
    forall b :: b in batches ==> b.commands > 0
  }

  lemma SomethingSent(batches: seq<Batch>)
    requires AllSend(batches) && batches != []
    ensures Total(batches) > 0
  {
    assert batches[|batches| - 1] in batches;
  }

  /** One device's turn keeps the budget, whatever its pollables have to read. */
  lemma {:induction false} TurnWithinBudget(batches: seq<Batch>, round: seq<Pollable>, maxCommands: int)
    requires 0 < maxCommands <= DEFAULT_MAX_COMMANDS && AllSend(batches) && WithinBudget(batches, maxCommands)
    ensures var r := TakeTurn(batches, round, maxCommands).batches;
            AllSend(r) && WithinBudget(r, maxCommands)
    decreases |round|
  {
    if round != [] {
      var plan := NextPollStep(round[0], maxCommands - Total(batches));
      NextTotal(batches, round[0], plan);
      if batches != [] {
        SomethingSent(batches);
      }
      if !plan.hasMore {
        TurnWithinBudget(Next(batches, round[0], plan), round[1..], maxCommands);
      }
    }
  }

  // --- Progress ---

  function Weight(p: Pollable): nat
    ensures Weight(p) > 0
  {
    match p
    case Single(_) => 1
    case Colour(parts) => |parts| + 1
    case Energy(chunks) => chunks + 1
  }

  /** The work left in a round: a part of a reader, or a pollable, for each full budget. */
  function Work(round: seq<Pollable>): nat
  {
    if round == [] then 0 else Weight(round[0]) + Work(round[1..])
  }

  lemma NoWorkLeft(round: seq<Pollable>)
    ensures Work(round) == 0 <==> round == []
  {
  }

  /** A turn and its answers never add work. */
  lemma {:induction false} TurnAddsNoWork(batches: seq<Batch>, round: seq<Pollable>, maxCommands: int, failed: bool)
    ensures var t := TakeTurn(batches, round, maxCommands);
            && Work(AfterAnswers(t.round, t.inFlight, failed)) <= Work(round)
            && (t.inFlight ==> t.round != [] && Work(AfterAnswers(t.round, t.inFlight, failed)) < Work(round))
            && (AfterAnswers(t.round, t.inFlight, failed) == [] <==> t.round == [])
            && (round == [] ==> t.round == [])
    decreases |round|
  {
    if round != [] {
      var plan := NextPollStep(round[0], maxCommands - Total(batches));
      if plan.hasMore {
        var head := if failed then PartFailed(round[0]) else PartRead(round[0]);
        assert ([head] + round[1..])[1..] == round[1..];
      } else {
        TurnAddsNoWork(Next(batches, round[0], plan), round[1..], maxCommands, failed);
      }
    }
  }

  /** With the whole budget to spend, a round that is not empty gets shorter by work. */
  lemma FullBudgetProgresses(round: seq<Pollable>, failed: bool)
    requires round != []
    ensures var t := TakeTurn([], round, DEFAULT_MAX_COMMANDS);
            Work(AfterAnswers(t.round, t.inFlight, failed)) < Work(round)
  {
    var plan := NextPollStep(round[0], DEFAULT_MAX_COMMANDS);
    TurnAddsNoWork([], round, DEFAULT_MAX_COMMANDS, failed);
    if !plan.hasMore {
      TurnAddsNoWork(Next([], round[0], plan), round[1..], DEFAULT_MAX_COMMANDS, failed);
    }
  }

  function PollablesOf(batches: seq<Batch>): (ps: seq<Pollable>)
    ensures |ps| == |batches| && forall k :: 0 <= k < |ps| ==> ps[k] == batches[k].pollable
  {
    seq(|batches|, k requires 0 <= k < |batches| => batches[k].pollable)
  }

  /** A reader that has nothing left to read. */
  predicate IsIdle(p: Pollable)
  {
    match p
    case Single(_) => false
    case Colour(parts) => parts == []
    case Energy(chunks) => chunks == 0
  }

  /** What a turn sends is of its round, and what of the round it neither sends nor leaves had nothing to
      read. */
  lemma {:induction false} TurnIsOfRound(batches: seq<Batch>, round: seq<Pollable>, maxCommands: int)
    ensures var t := TakeTurn(batches, round, maxCommands);
            && batches <= t.batches
            && (forall b :: b in t.batches ==> b in batches || b.pollable in round)
            && forall p :: p in round ==> p in t.round || p in PollablesOf(t.batches) || IsIdle(p)
    decreases |round|
  {
    if round != [] {
      var plan := NextPollStep(round[0], maxCommands - Total(batches));
      var next := Next(batches, round[0], plan);
      if !plan.hasMore {
        TurnIsOfRound(next, round[1..], maxCommands);
        var t := TakeTurn(next, round[1..], maxCommands);
        assert forall p :: p in round <==> p == round[0] || p in round[1..];
        if plan.commands > 0 {
          assert t.batches[|batches|] == Batch(round[0], plan.commands);
          assert PollablesOf(t.batches)[|batches|] == round[0];
        }
      }
    }
  }

  // --- Every single-query control of a round is queried once ---

  function Singles(round: seq<Pollable>): seq<nat>
  {
    if round == [] then [] else (if round[0].Single? then [round[0].id] else []) + Singles(round[1..])
  }

  function Queried(batches: seq<Batch>): seq<nat>
  {
    if batches == [] then []
    else
      var b := batches[|batches| - 1];
      Queried(batches[..|batches| - 1]) + (if b.pollable.Single? then [b.pollable.id] else [])
  }

  lemma PlanQueries(batches: seq<Batch>, p: Pollable, left: int)
    ensures var plan := NextPollStep(p, left);
            Queried(Next(batches, p, plan))
            == if plan.hasMore then Queried(batches) else Queried(batches) + Singles([p])
  {
    NextQueried(batches, p, NextPollStep(p, left));
  }

  lemma {:induction false} TurnConserves(batches: seq<Batch>, round: seq<Pollable>, maxCommands: int)
    ensures var t := TakeTurn(batches, round, maxCommands);
            Queried(t.batches) + Singles(t.round) == Queried(batches) + Singles(round)
    decreases |round|
  {
    hide NextPollStep, Next, Queried, Singles;
    if round != [] {
      var p, rest := round[0], round[1..];
      var plan := NextPollStep(p, maxCommands - Total(batches));
      var next := Next(batches, p, plan);
      PlanQueries(batches, p, maxCommands - Total(batches));
      if !plan.hasMore {
        TurnConserves(next, rest, maxCommands);
        ConcatAssoc(Queried(batches), Singles([p]), Singles(rest));
        SinglesHead(round);
      }
    }
  }

  lemma SinglesHead(round: seq<Pollable>)
    requires round != []
    ensures Singles(round) == Singles([round[0]]) + Singles(round[1..])
    ensures Singles([round[0]]) == if round[0].Single? then [round[0].id] else []
  {
    assert [round[0]][1..] == [];
  }

  lemma ConcatAssoc(a: seq<nat>, b: seq<nat>, c: seq<nat>)
    ensures (a + b) + c == a + (b + c)
  {
  }

  lemma NextQueried(batches: seq<Batch>, p: Pollable, plan: Plan)
    ensures Queried(Next(batches, p, plan)) ==
            Queried(batches) + (if plan.commands > 0 && p.Single? then [p.id] else [])
  {
    assert (batches + [Batch(p, plan.commands)])[..|batches|] == batches;
  }

  lemma AnswersKeepSingles(round: seq<Pollable>, inFlight: bool, failed: bool)
    ensures Singles(AfterAnswers(round, inFlight, failed)) == Singles(round)
  {
    if round != [] && inFlight {
      var head := if failed then PartFailed(round[0]) else PartRead(round[0]);
      assert ([head] + round[1..])[1..] == round[1..];
    }
  }

  /** The turns of a device over successive ticks, each with what budget other devices left it and
      whether its reader's part failed. */
  datatype DeviceTick = DeviceTick(maxCommands: int, failed: bool)

  function RoundAfter(round: seq<Pollable>, ticks: seq<DeviceTick>): seq<Pollable>
  {
    if ticks == [] then round
    else
      var last := ticks[|ticks| - 1];
      var t := TakeTurn([], RoundAfter(round, ticks[..|ticks| - 1]), last.maxCommands);
      AfterAnswers(t.round, t.inFlight, last.failed)
  }

  function QueriedIn(round: seq<Pollable>, ticks: seq<DeviceTick>): seq<nat>
  {
    if ticks == [] then []
    else
      var last := ticks[|ticks| - 1];
      QueriedIn(round, ticks[..|ticks| - 1])
      + Queried(TakeTurn([], RoundAfter(round, ticks[..|ticks| - 1]), last.maxCommands).batches)
  }

  function FullBudgets(ticks: seq<DeviceTick>): nat
  {
    if ticks == [] then 0
    else
      FullBudgets(ticks[..|ticks| - 1]) + (if ticks[|ticks| - 1].maxCommands == DEFAULT_MAX_COMMANDS then 1 else 0)
  }

  /** However the ticks go, what has been queried and what is left are the controls of the snapshot
      in their order: none is skipped, none is queried twice. */
  lemma {:induction false} RoundConserves(round: seq<Pollable>, ticks: seq<DeviceTick>)
    ensures QueriedIn(round, ticks) + Singles(RoundAfter(round, ticks)) == Singles(round)
  {
    if ticks != [] {
      var front, last := ticks[..|ticks| - 1], ticks[|ticks| - 1];
      RoundConserves(round, front);
      var before := RoundAfter(round, front);
      var turn := TakeTurn([], before, last.maxCommands);
      TurnConserves([], before, last.maxCommands);
      AnswersKeepSingles(turn.round, turn.inFlight, last.failed);
      assert Queried(turn.batches) + Singles(turn.round) == Singles(before);
      ConcatAssoc(QueriedIn(round, front), Queried(turn.batches), Singles(turn.round));
    }
  }

  /** The round is over after as many full budgets as there is work in it. */
  lemma {:induction false} RoundEnds(round: seq<Pollable>, ticks: seq<DeviceTick>)
    ensures RoundAfter(round, ticks) == [] || Work(RoundAfter(round, ticks)) + FullBudgets(ticks) <= Work(round)
  {
    if ticks != [] {
      var front, last := ticks[..|ticks| - 1], ticks[|ticks| - 1];
      RoundEnds(round, front);
      var before := RoundAfter(round, front);
      TurnAddsNoWork([], before, last.maxCommands, last.failed);
      if last.maxCommands == DEFAULT_MAX_COMMANDS && before != [] {
        FullBudgetProgresses(before, last.failed);
      }
    }
  }

  /** So each single-query control of the snapshot is queried exactly once, in order, by the time a
      device has had the full budget as often as there are pollables and parts to read. */
  lemma RoundQueriesOnce(round: seq<Pollable>, ticks: seq<DeviceTick>)
    requires FullBudgets(ticks) >= Work(round)
    ensures RoundAfter(round, ticks) == [] && QueriedIn(round, ticks) == Singles(round)
  {
    RoundEnds(round, ticks);
    RoundConserves(round, ticks);
    NoWorkLeft(RoundAfter(round, ticks));
  }

  // --- The scheduler over all devices ---

  /** The pollables that are due, as the round to go through. */
  function Snapshot(pollables: seq<Pollable>, due: Pollable -> bool): seq<Pollable>
  {
    if pollables == [] then []
    else (if due(pollables[0]) then [pollables[0]] else []) + Snapshot(pollables[1..], due)
  }

  /** How many pollables before position `i` are due. */
  function Rank(pollables: seq<Pollable>, due: Pollable -> bool, i: nat): nat
    requires i <= |pollables|
  {
    if i == 0 then 0 else Rank(pollables, due, i - 1) + (if due(pollables[i - 1]) then 1 else 0)
  }

  /** `round` is made up of exactly the pollables that are due, as often as they are there and in the same
      order: each stands where the number of those before it says. */
  ghost predicate IsDueRound(pollables: seq<Pollable>, due: Pollable -> bool, round: seq<Pollable>)
  {
    && |round| == Rank(pollables, due, |pollables|)
    && forall i: nat :: i < |pollables| && due(pollables[i]) ==>
         Rank(pollables, due, i) < |round| && round[Rank(pollables, due, i)] == pollables[i]
  }

  lemma {:induction false} RankOfTail(pollables: seq<Pollable>, due: Pollable -> bool, i: nat)
    requires pollables != [] && i < |pollables|
    ensures Rank(pollables, due, i + 1) == (if due(pollables[0]) then 1 else 0) + Rank(pollables[1..], due, i)
  {
    if i > 0 {
      RankOfTail(pollables, due, i - 1);
    }
  }

  lemma {:induction false} SnapshotIsDue(pollables: seq<Pollable>, due: Pollable -> bool)
    ensures IsDueRound(pollables, due, Snapshot(pollables, due))
  {
    if pollables != [] {
      SnapshotIsDue(pollables[1..], due);
      DueRoundMore(pollables, due, Snapshot(pollables[1..], due));
    }
  }

  lemma DueRoundMore(pollables: seq<Pollable>, due: Pollable -> bool, rest: seq<Pollable>)
    requires pollables != [] && IsDueRound(pollables[1..], due, rest)
    ensures IsDueRound(pollables, due, (if due(pollables[0]) then [pollables[0]] else []) + rest)
  {
    hide Rank;
    RankOfTail(pollables, due, |pollables| - 1);
    NoneBefore(pollables, due);
    forall i: nat | i < |pollables| && due(pollables[i])
      ensures var round := (if due(pollables[0]) then [pollables[0]] else []) + rest;
              Rank(pollables, due, i) < |round| && round[Rank(pollables, due, i)] == pollables[i]
    {
      if i > 0 {
        RankOfTail(pollables, due, i - 1);
        assert pollables[1..][i - 1] == pollables[i];
      }
    }
  }

  lemma NoneBefore(pollables: seq<Pollable>, due: Pollable -> bool)
    ensures Rank(pollables, due, 0) == 0
  {
  }

  lemma {:induction false} SnapshotHolds(pollables: seq<Pollable>, due: Pollable -> bool)
    ensures forall p :: p in Snapshot(pollables, due) <==> p in pollables && due(p)
  {
    if pollables != [] {
      SnapshotHolds(pollables[1..], due);
      assert forall p :: p in pollables <==> p == pollables[0] || p in pollables[1..];
    }
  }

  /** The rounds of the devices and the one whose turn it is.  The rest is history: the snapshots
      the rounds began as, and the controls queried since. */
  datatype Cycle = Cycle(
    rounds: seq<seq<Pollable>>, current: nat, snapshots: seq<seq<Pollable>>, queried: seq<seq<nat>>)

  /** What one device sends in a tick. */
  datatype Polled = Polled(device: nat, batches: seq<Batch>)

  /** A tick: which pollables are due, and whether the part in flight at its end fails. */
  datatype Tick = Tick(due: Pollable -> bool, failed: bool)

  predicate Aligned(pollables: seq<seq<Pollable>>, c: Cycle)
  {
    |pollables| == |c.rounds| == |c.snapshots| == |c.queried|
  }

  /** The round that the device whose turn it is goes through: what is left of it, or a new one. */
  function RoundOf(pollables: seq<seq<Pollable>>, c: Cycle, due: Pollable -> bool): seq<Pollable>
    requires Aligned(pollables, c) && c.current < |pollables|
  {
    if c.rounds[c.current] == [] then Snapshot(pollables[c.current], due) else c.rounds[c.current]
  }

  /** The turn of one device in a tick: what it sends, the cycle afterwards, and whether its round is
      over, so that the next device follows. */
  datatype Taken = Taken(batches: seq<Batch>, cycle: Cycle, over: bool)

  function TurnOf(pollables: seq<seq<Pollable>>, c: Cycle, tick: Tick, left: int): Taken
    requires Aligned(pollables, c) && c.current < |pollables|
  {
    var d, round := c.current, RoundOf(pollables, c, tick.due);
    var t := TakeTurn([], round, left);
    Taken(t.batches,
          Cycle(c.rounds[d := AfterAnswers(t.round, t.inFlight, tick.failed)],
                if t.round == [] then d + 1 else d,
                if c.rounds[d] == [] then c.snapshots[d := round] else c.snapshots,
                c.queried[d := c.queried[d] + Queried(t.batches)]),
          t.round == [])
  }

  type Turns = (Cycle, int) -> Taken

  function TurnsOf(pollables: seq<seq<Pollable>>, tick: Tick): Turns
  {
    (c: Cycle, left: int) =>
      if Aligned(pollables, c) && c.current < |pollables| then TurnOf(pollables, c, tick, left) else Taken([], c, false)
  }

  function Add(polled: seq<Polled>, device: nat, batches: seq<Batch>): seq<Polled>
  {
    if batches == [] then polled else polled + [Polled(device, batches)]
  }

  /** The `n` devices, from the one whose turn it is, as far as the budget goes. */
  function PollFrom(turns: Turns, n: nat, c: Cycle, left: int, polled: seq<Polled>): (seq<Polled>, Cycle)
    decreases n - c.current
  {
    if left <= 0 || c.current >= n then (polled, c)
    else
      var t := turns(c, left);
      var polled' := Add(polled, c.current, t.batches);
      if t.over then PollFrom(turns, n, t.cycle.(current := c.current + 1), left - Total(t.batches), polled')
      else (polled', t.cycle)
  }

  lemma PollEnds(turns: Turns, n: nat, c: Cycle, left: int, polled: seq<Polled>)
    requires left <= 0 || c.current >= n
    ensures PollFrom(turns, n, c, left, polled) == (polled, c)
  {
  }

  lemma PollNext(turns: Turns, n: nat, c: Cycle, left: int, polled: seq<Polled>)
    requires left > 0 && c.current < n
    ensures var t := turns(c, left);
            var polled' := Add(polled, c.current, t.batches);
            PollFrom(turns, n, c, left, polled) ==
            if t.over then PollFrom(turns, n, t.cycle.(current := c.current + 1), left - Total(t.batches), polled')
            else (polled', t.cycle)
  {
  }

  function PollTick(pollables: seq<seq<Pollable>>, c: Cycle, tick: Tick): (seq<Polled>, Cycle)
  {
    PollFrom(TurnsOf(pollables, tick), |pollables|, c, DEFAULT_MAX_COMMANDS, [])
  }

  function Begin(pollables: seq<seq<Pollable>>): Cycle
  {
    var none := seq(|pollables|, i => []);
    Cycle(none, 0, none, seq(|pollables|, i => []))
  }

  function RunCycle(pollables: seq<seq<Pollable>>, ticks: seq<Tick>): Cycle
    decreases |ticks|
  {
    if ticks == [] then Begin(pollables)
    else PollTick(pollables, RunCycle(pollables, ticks[..|ticks| - 1]), ticks[|ticks| - 1]).1
  }

  ghost predicate Account(round: seq<Pollable>, snapshot: seq<Pollable>, queried: seq<nat>)
  {
    queried + Singles(round) == Singles(snapshot)
  }

  /** What holds throughout a cycle: of each device's snapshot, queried and left make up the whole;
      devices that had their turn are done, devices that wait for it have not begun. */
  ghost predicate Consistent(pollables: seq<seq<Pollable>>, c: Cycle)
  {
    && Aligned(pollables, c) && c.current <= |pollables|
    && (forall d :: 0 <= d < |pollables| ==> Account(c.rounds[d], c.snapshots[d], c.queried[d]))
    && (forall d :: 0 <= d < |pollables| && d != c.current ==> c.rounds[d] == [])
    && (forall d :: c.current <= d < |pollables| && c.rounds[d] == [] ==> c.snapshots[d] == [] && c.queried[d] == [])
  }

  lemma TurnAccounts(round: seq<Pollable>, snapshot: seq<Pollable>, queried: seq<nat>, left: int, failed: bool)
    requires Account(round, snapshot, queried)
    ensures var t := TakeTurn([], round, left);
            Account(AfterAnswers(t.round, t.inFlight, failed), snapshot, queried + Queried(t.batches))
  {
    var t := TakeTurn([], round, left);
    TurnConserves([], round, left);
    AnswersKeepSingles(t.round, t.inFlight, failed);
    ConcatAssoc(queried, Queried(t.batches), Singles(t.round));
    assert Queried([]) + Singles(round) == Singles(round);
  }

  lemma TurnConsistent(pollables: seq<seq<Pollable>>, c: Cycle, tick: Tick, left: int)
    requires Consistent(pollables, c) && c.current < |pollables|
    ensures Consistent(pollables, TurnOf(pollables, c, tick, left).cycle)
  {
    hide TakeTurn, AfterAnswers, Snapshot, Singles, Queried, Account;
    var d := c.current;
    var round := RoundOf(pollables, c, tick.due);
    var snapshot := if c.rounds[d] == [] then round else c.snapshots[d];
    assert Account(c.rounds[d], c.snapshots[d], c.queried[d]);
    TurnAccounts(round, snapshot, c.queried[d], left, tick.failed);
    TurnAddsNoWork([], round, left, tick.failed);
  }

  /** What every turn keeps, a tick keeps. */
  lemma {:induction false} TickKeeps(turns: Turns, n: nat, c: Cycle, left: int, polled: seq<Polled>,
                                     kept: Cycle -> bool)
    requires kept(c)
    requires forall c, left :: kept(c) && c.current < n ==> kept(turns(c, left).cycle)
    requires forall c, left :: kept(c) && c.current < n && turns(c, left).over
               ==> turns(c, left).cycle.current == c.current + 1
    ensures kept(PollFrom(turns, n, c, left, polled).1)
    decreases n - c.current
  {
    if left > 0 && c.current < n {
      var t := turns(c, left);
      if t.over {
        TickKeeps(turns, n, t.cycle, left - Total(t.batches), Add(polled, c.current, t.batches), kept);
      }
    }
  }

  // Each round begins as what is due.

  /** Device `d` has begun its round, or is done with it. */
  ghost predicate Begun(c: Cycle, d: nat)
  {
    d < c.current || (d == c.current && d < |c.rounds| && c.rounds[d] != [])
  }

  /** Since `before`, devices that had begun kept their snapshots, and others began with what is due. */
  ghost predicate BeganWith(pollables: seq<seq<Pollable>>, due: Pollable -> bool, before: Cycle, c: Cycle)
  {
    && Aligned(pollables, before) && Aligned(pollables, c)
    && forall d :: 0 <= d < |pollables| ==>
         if Begun(before, d) then Begun(c, d) && c.snapshots[d] == before.snapshots[d]
         else Begun(c, d) ==> c.snapshots[d] == Snapshot(pollables[d], due)
  }

  lemma TurnBegins(pollables: seq<seq<Pollable>>, before: Cycle, c: Cycle, tick: Tick, left: int)
    requires BeganWith(pollables, tick.due, before, c) && c.current < |pollables| && Consistent(pollables, c)
    ensures BeganWith(pollables, tick.due, before, TurnOf(pollables, c, tick, left).cycle)
  {
    hide TakeTurn, Snapshot, Queried, Account;
  }

  lemma TickBegins(pollables: seq<seq<Pollable>>, c: Cycle, tick: Tick)
    requires Consistent(pollables, c)
    ensures BeganWith(pollables, tick.due, c, PollTick(pollables, c, tick).1)
  {
    hide Consistent, BeganWith, TurnOf;
    var turns := TurnsOf(pollables, tick);
    var kept: Cycle -> bool := x => Consistent(pollables, x) && BeganWith(pollables, tick.due, c, x);
    BeginsItself(pollables, tick.due, c);
    forall x, left | kept(x) && x.current < |pollables|
      ensures kept(turns(x, left).cycle)
      ensures turns(x, left).over ==> turns(x, left).cycle.current == x.current + 1
    {
      ConsistentIsAligned(pollables, x);
      TurnConsistent(pollables, x, tick, left);
      TurnBegins(pollables, c, x, tick, left);
      TurnAdvances(pollables, x, tick, left);
    }
    TickKeeps(turns, |pollables|, c, DEFAULT_MAX_COMMANDS, [], kept);
  }

  lemma BeginsItself(pollables: seq<seq<Pollable>>, due: Pollable -> bool, c: Cycle)
    requires Consistent(pollables, c)
    ensures BeganWith(pollables, due, c, c)
  {
  }

  lemma ConsistentIsAligned(pollables: seq<seq<Pollable>>, c: Cycle)
    requires Consistent(pollables, c)
    ensures Aligned(pollables, c)
  {
  }

  lemma TurnAdvances(pollables: seq<seq<Pollable>>, c: Cycle, tick: Tick, left: int)
    requires Aligned(pollables, c) && c.current < |pollables|
    ensures var t := TurnOf(pollables, c, tick, left); t.over ==> t.cycle.current == c.current + 1
  {
  }

  /** Tick number `k` of the cycle is the one in which device `d` began its round. */
  ghost predicate BeganIn(pollables: seq<seq<Pollable>>, ticks: seq<Tick>, d: nat, k: nat)
  {
    && k < |ticks| && !Begun(RunCycle(pollables, ticks[..k]), d) && Begun(RunCycle(pollables, ticks[..k + 1]), d)
  }

  lemma NoneBegun(pollables: seq<seq<Pollable>>, d: nat)
    ensures !Begun(Begin(pollables), d)
  {
  }

  lemma BeganStill(pollables: seq<seq<Pollable>>, ticks: seq<Tick>, d: nat, k: nat)
    requires ticks != [] && BeganIn(pollables, ticks[..|ticks| - 1], d, k)
    ensures BeganIn(pollables, ticks, d, k)
  {
    hide Begun, RunCycle;
    var front := ticks[..|ticks| - 1];
    assert front[..k] == ticks[..k] && front[..k + 1] == ticks[..k + 1];
  }

  lemma RunCycleNext(pollables: seq<seq<Pollable>>, ticks: seq<Tick>)
    requires ticks != []
    ensures RunCycle(pollables, ticks)
            == PollTick(pollables, RunCycle(pollables, ticks[..|ticks| - 1]), ticks[|ticks| - 1]).1
  {
  }

  lemma BeganWithAt(pollables: seq<seq<Pollable>>, due: Pollable -> bool, before: Cycle, c: Cycle, d: nat)
    requires BeganWith(pollables, due, before, c) && d < |pollables|
    ensures Aligned(pollables, before) && Aligned(pollables, c)
    ensures Begun(before, d) ==> c.snapshots[d] == before.snapshots[d]
    ensures Begun(c, d) && !Begun(before, d) ==> c.snapshots[d] == Snapshot(pollables[d], due)
  {
  }

  lemma BeginsLast(pollables: seq<seq<Pollable>>, ticks: seq<Tick>, d: nat)
    requires ticks != [] && Begun(RunCycle(pollables, ticks), d)
    requires !Begun(RunCycle(pollables, ticks[..|ticks| - 1]), d)
    ensures BeganIn(pollables, ticks, d, |ticks| - 1)
  {
    hide Begun, RunCycle;
    assert ticks[..|ticks| - 1 + 1] == ticks;
  }

  /** The round of each device began, at some tick of the cycle, as a snapshot of what was due then. */
  lemma {:induction false} RoundsWereDue(pollables: seq<seq<Pollable>>, ticks: seq<Tick>, d: nat) returns (k: nat)
    requires d < |pollables| && Begun(RunCycle(pollables, ticks), d)
    ensures Aligned(pollables, RunCycle(pollables, ticks)) && k < |ticks| && BeganIn(pollables, ticks, d, k)
    ensures RunCycle(pollables, ticks).snapshots[d] == Snapshot(pollables[d], ticks[k].due)
    decreases |ticks|
  {
    hide Begun, Snapshot, Consistent, BeganIn, BeganWith, PollTick;
    if ticks == [] {
      k := 0;
      NoneBegun(pollables, d);
    } else {
      hide RunCycle;
      var front, tick := ticks[..|ticks| - 1], ticks[|ticks| - 1];
      var before, c := RunCycle(pollables, front), RunCycle(pollables, ticks);
      CycleQueriesOnce(pollables, front);
      RunCycleNext(pollables, ticks);
      TickBegins(pollables, before, tick);
      BeganWithAt(pollables, tick.due, before, c, d);
      if Begun(before, d) {
        k := RoundsWereDue(pollables, front, d);
        BeganStill(pollables, ticks, d, k);
      } else {
        k := |ticks| - 1;
        BeginsLast(pollables, ticks, d);
      }
    }
  }

  lemma {:induction false} SinglesHold(round: seq<Pollable>)
    ensures forall id :: id in Singles(round) <==> Single(id) in round
  {
    if round != [] {
      SinglesHold(round[1..]);
      assert forall p :: p in round <==> p == round[0] || p in round[1..];
    }
  }

  /** So after as many ticks as there is work each device has been asked, once and in their order, for the
      single-query controls that were due when its round began: for all of those, and for no others. */
  lemma CycleQueriesDue(pollables: seq<seq<Pollable>>, ticks: seq<Tick>, d: nat) returns (k: nat)
    requires d < |pollables| && |ticks| >= WorkFrom(pollables, 0)
    ensures Aligned(pollables, RunCycle(pollables, ticks)) && BeganIn(pollables, ticks, d, k)
    ensures exists round: seq<Pollable> ::
      IsDueRound(pollables[d], ticks[k].due, round) && RunCycle(pollables, ticks).queried[d] == Singles(round)
    ensures forall id ::
      id in RunCycle(pollables, ticks).queried[d] <==> Single(id) in pollables[d] && ticks[k].due(Single(id))
  {
    hide IsDueRound, Consistent, BeganIn, RunCycle, Snapshot, WorkLeft, WorkFrom;
    CycleQueriesOnce(pollables, ticks);
    k := RoundsWereDue(pollables, ticks, d);
    var round := RunCycle(pollables, ticks).snapshots[d];
    SnapshotIsDue(pollables[d], ticks[k].due);
    SnapshotHolds(pollables[d], ticks[k].due);
    SinglesHold(round);
  }

  // The cycle ends.

  lemma {:induction false} SnapshotWork(pollables: seq<Pollable>, due: Pollable -> bool)
    ensures Work(Snapshot(pollables, due)) <= Work(pollables)
  {
    if pollables != [] {
      SnapshotWork(pollables[1..], due);
      var rest := Snapshot(pollables[1..], due);
      assert ([pollables[0]] + rest)[1..] == rest && [] + rest == rest;
    }
  }

  /** The work of the devices from `d` on, which have not begun. */
  function WorkFrom(pollables: seq<seq<Pollable>>, d: nat): nat
    decreases |pollables| - d
  {
    if d >= |pollables| then 0 else 1 + Work(pollables[d]) + WorkFrom(pollables, d + 1)
  }

  function WorkLeft(pollables: seq<seq<Pollable>>, c: Cycle): nat
    requires |pollables| == |c.rounds|
  {
    if c.current >= |pollables| then 0
    else if c.rounds[c.current] == [] then WorkFrom(pollables, c.current)
    else 1 + Work(c.rounds[c.current]) + WorkFrom(pollables, c.current + 1)
  }

  lemma TurnWorks(pollables: seq<seq<Pollable>>, c: Cycle, tick: Tick, left: int)
    requires Consistent(pollables, c) && c.current < |pollables|
    ensures var c' := TurnOf(pollables, c, tick, left).cycle;
            && |c'.rounds| == |pollables| && WorkLeft(pollables, c') <= WorkLeft(pollables, c)
            && (left == DEFAULT_MAX_COMMANDS ==> WorkLeft(pollables, c') < WorkLeft(pollables, c))
  {
    hide TakeTurn, Snapshot, Work, AfterAnswers;
    var d := c.current;
    var round := RoundOf(pollables, c, tick.due);
    SnapshotWork(pollables[d], tick.due);
    TurnAddsNoWork([], round, left, tick.failed);
    if left == DEFAULT_MAX_COMMANDS && round != [] {
      FullBudgetProgresses(round, tick.failed);
    }
  }

  ghost predicate WorksFrom(pollables: seq<seq<Pollable>>, c: Cycle, work: int)
  {
    Consistent(pollables, c) && WorkLeft(pollables, c) <= work
  }

  /** The devices of a tick keep the account of a cycle, and leave no more work. */
  lemma PollWorks(pollables: seq<seq<Pollable>>, c: Cycle, tick: Tick, left: int, polled: seq<Polled>, work: int)
    requires WorksFrom(pollables, c, work)
    ensures WorksFrom(pollables, PollFrom(TurnsOf(pollables, tick), |pollables|, c, left, polled).1, work)
  {
    var turns := TurnsOf(pollables, tick);
    var kept: Cycle -> bool := c => WorksFrom(pollables, c, work);
    forall c, left | kept(c) && c.current < |pollables|
      ensures kept(turns(c, left).cycle)
      ensures turns(c, left).over ==> turns(c, left).cycle.current == c.current + 1
    {
      TurnConsistent(pollables, c, tick, left);
      TurnWorks(pollables, c, tick, left);
    }
    TickKeeps(turns, |pollables|, c, left, polled, kept);
  }

  /** A tick, which begins with the full budget, leaves less. */
  lemma TickWorks(pollables: seq<seq<Pollable>>, c: Cycle, tick: Tick)
    requires Consistent(pollables, c) && c.current < |pollables|
    ensures WorksFrom(pollables, PollTick(pollables, c, tick).1, WorkLeft(pollables, c) - 1)
  {
    hide PollFrom, TurnOf, Consistent, WorkLeft, Add;
    var turns := TurnsOf(pollables, tick);
    ConsistentIsAligned(pollables, c);
    var t := turns(c, DEFAULT_MAX_COMMANDS);
    TurnConsistent(pollables, c, tick, DEFAULT_MAX_COMMANDS);
    TurnWorks(pollables, c, tick, DEFAULT_MAX_COMMANDS);
    TurnAdvances(pollables, c, tick, DEFAULT_MAX_COMMANDS);
    PollNext(turns, |pollables|, c, DEFAULT_MAX_COMMANDS, []);
    assert t.over ==> t.cycle.(current := c.current + 1) == t.cycle;
    PollWorks(pollables, t.cycle, tick, DEFAULT_MAX_COMMANDS - Total(t.batches), Add([], c.current, t.batches),
              WorkLeft(pollables, c) - 1);
  }

  /**
   A polling cycle, whatever is due at which tick and whichever parts fail: what was queried and what
   is left of each device's round make up its snapshot; and after as many ticks as there is work for
   the devices, all have had their turn and each control of each snapshot was queried exactly once.
   */
  lemma {:induction false} CycleQueriesOnce(pollables: seq<seq<Pollable>>, ticks: seq<Tick>)
    ensures var c := RunCycle(pollables, ticks);
            && Consistent(pollables, c)
            && (c.current == |pollables| || WorkLeft(pollables, c) + |ticks| <= WorkFrom(pollables, 0))
            && (|ticks| >= WorkFrom(pollables, 0) ==>
                  c.current == |pollables|
                  && forall d :: 0 <= d < |pollables| ==> c.queried[d] == Singles(c.snapshots[d]))
    decreases |ticks|
  {
    if ticks != [] {
      var front, tick := ticks[..|ticks| - 1], ticks[|ticks| - 1];
      CycleQueriesOnce(pollables, front);
      var c := RunCycle(pollables, front);
      if c.current < |pollables| {
        TickWorks(pollables, c, tick);
      }
    }
    var c := RunCycle(pollables, ticks);
    if c.current == |pollables| {
      forall d | 0 <= d < |pollables|
        ensures c.queried[d] == Singles(c.snapshots[d])
      {
        assert Account(c.rounds[d], c.snapshots[d], c.queried[d]);
      }
    }
  }

  // --- The classes ---

  class Device {
    const pollables: seq<Pollable>
    var currentRound: seq<Pollable>

    constructor (pollables: seq<Pollable>)
      ensures this.pollables == pollables && currentRound == []
    {
      this.pollables := pollables;
      currentRound := [];
    }

    /** The round a tick starts with. */
    function RoundAt(due: Pollable -> bool): seq<Pollable>
      reads this
    {
      if currentRound == [] then Snapshot(pollables, due) else currentRound
    }

    method PollControls(maxCommands: int, due: Pollable -> bool)
      returns (batches: seq<Batch>, hasMore: bool, inFlight: bool)
      requires 0 < maxCommands <= DEFAULT_MAX_COMMANDS
      modifies this`currentRound
      ensures Turn(batches, currentRound, inFlight) == TakeTurn([], old(RoundAt(due)), maxCommands)
      ensures WithinBudget(batches, maxCommands) && AllSend(batches)
      ensures hasMore <==> currentRound != []
      ensures old(currentRound) == [] ==>
        && (forall b :: b in batches ==> b.pollable in pollables && due(b.pollable))
        && forall p :: p in pollables && due(p) ==> p in currentRound || p in PollablesOf(batches) || IsIdle(p)
    {
      if currentRound == [] {
        currentRound := Snapshot(pollables, due);
        SnapshotHolds(pollables, due);
        TurnIsOfRound([], currentRound, maxCommands);
      }
      TurnWithinBudget([], currentRound, maxCommands);
      batches, hasMore, inFlight := GoThroughRound(maxCommands);
    }

    method GoThroughRound(maxCommands: int) returns (batches: seq<Batch>, hasMore: bool, inFlight: bool)
      modifies this`currentRound
      ensures Turn(batches, currentRound, inFlight) == TakeTurn([], old(currentRound), maxCommands)
      ensures hasMore <==> currentRound != []
    {
      batches := [];
      var consumed := 0;
      while currentRound != []
        invariant consumed == Total(batches)
        invariant TakeTurn(batches, currentRound, maxCommands) == TakeTurn([], old(currentRound), maxCommands)
        decreases |currentRound|
      {
        var plan := NextPollStep(currentRound[0], maxCommands - consumed);
        NextTotal(batches, currentRound[0], plan);
        batches := Next(batches, currentRound[0], plan);
        consumed := consumed + plan.commands;
        if plan.hasMore {
          return batches, true, plan.commands > 0;
        }
        currentRound := currentRound[1..];
      }
      return batches, false, false;
    }

    /** The answers of the tick: the reader at the head has read the part it sent, or has failed. */
    method TakeAnswers(inFlight: bool, failed: bool)
      modifies this`currentRound
      ensures currentRound == AfterAnswers(old(currentRound), inFlight, failed)
    {
      if currentRound != [] && inFlight {
        var head := currentRound[0];
        if failed {
          head := PartFailed(head);
        } else {
          head := PartRead(head);
        }
        currentRound := [head] + currentRound[1..];
      }
    }

    /** The round is dropped, and with it what its readers had read: the next one is a new snapshot, in
        which each reader that is due begins anew with all its parts. */
    method ResetPollingState()
      modifies this`currentRound
      ensures currentRound == []
      ensures forall due: Pollable -> bool :: RoundAt(due) == Snapshot(pollables, due)
    {
      currentRound := [];
    }
  }

  // --- The budget of a tick ---

  lemma {:induction false} TotalConcat(a: seq<Batch>, b: seq<Batch>)
    ensures Total(a + b) == Total(a) + Total(b)
    decreases |b|
  {
    if b == [] {
      assert a + b == a;
    } else {
      assert (a + b)[..|a + b| - 1] == a + b[..|b| - 1];
      TotalConcat(a, b[..|b| - 1]);
    }
  }

  /** What the next device sends fits into what the devices before it have left. */
  lemma AppendWithinBudget(batches: seq<Batch>, turn: seq<Batch>, left: int)
    requires left == DEFAULT_MAX_COMMANDS - Total(batches) && left > 0
    requires AllSend(batches) && AllSend(turn) && WithinBudget(turn, left)
    ensures WithinBudget(batches + turn, DEFAULT_MAX_COMMANDS) && AllSend(batches + turn)
    ensures Total(batches + turn) == Total(batches) + Total(turn)
  {
    TotalConcat(batches, turn);
    if left == DEFAULT_MAX_COMMANDS {
      if batches != [] {
        SomethingSent(batches);
      }
      assert batches == [] ==> batches + turn == turn;
    }
  }

  /** All that is sent in a tick, device after device. */
  function Sent(polled: seq<Polled>): seq<Batch>
  {
    if polled == [] then [] else Sent(polled[..|polled| - 1]) + polled[|polled| - 1].batches
  }

  lemma SentAppended(polled: seq<Polled>, d: nat, batches: seq<Batch>)
    ensures Sent(Add(polled, d, batches)) == Sent(polled) + batches
  {
    assert (polled + [Polled(d, batches)])[..|polled|] == polled;
  }

  /** What the devices of a tick send, one after the other, keeps its budget. */
  lemma {:induction false} DevicesWithinBudget(turns: Turns, n: nat, c: Cycle, left: int, polled: seq<Polled>)
    requires forall c: Cycle, left: int :: 0 < left <= DEFAULT_MAX_COMMANDS && c.current < n
               ==> AllSend(turns(c, left).batches) && WithinBudget(turns(c, left).batches, left)
    requires left == DEFAULT_MAX_COMMANDS - Total(Sent(polled))
    requires AllSend(Sent(polled)) && WithinBudget(Sent(polled), DEFAULT_MAX_COMMANDS)
    ensures var r := PollFrom(turns, n, c, left, polled).0;
            AllSend(Sent(r)) && WithinBudget(Sent(r), DEFAULT_MAX_COMMANDS)
    decreases n - c.current
  {
    hide PollFrom, Sent, AllSend, WithinBudget, Total, Add;
    if left > 0 && c.current < n {
      var t := turns(c, left);
      PollNext(turns, n, c, left, polled);
      AppendWithinBudget(Sent(polled), t.batches, left);
      SentAppended(polled, c.current, t.batches);
      if t.over {
        DevicesWithinBudget(turns, n, t.cycle.(current := c.current + 1), left - Total(t.batches),
                            Add(polled, c.current, t.batches));
      }
    } else {
      PollEnds(turns, n, c, left, polled);
    }
  }

  /** A tick sends three commands at most, or one energy chunk and nothing else. */
  lemma TickWithinBudget(pollables: seq<seq<Pollable>>, c: Cycle, tick: Tick)
    ensures var sent := Sent(PollTick(pollables, c, tick).0);
            AllSend(sent) && (Total(sent) <= 3 || (|sent| == 1 && sent[0].pollable.Energy? && Total(sent) == 4))
  {
    var turns := TurnsOf(pollables, tick);
    forall c: Cycle, left: int | 0 < left <= DEFAULT_MAX_COMMANDS && c.current < |pollables|
      ensures AllSend(turns(c, left).batches) && WithinBudget(turns(c, left).batches, left)
    {
      if Aligned(pollables, c) {
        TurnWithinBudget([], RoundOf(pollables, c, tick.due), left);
      }
    }
    DevicesWithinBudget(turns, |pollables|, c, DEFAULT_MAX_COMMANDS, []);
  }

  class PollScheduler {
    var devices: seq<Device>
    var current: nat
    ghost var snapshots: seq<seq<Pollable>>
    ghost var queried: seq<seq<nat>>

    ghost predicate Valid()
      reads this
    {
      && (forall i, j :: 0 <= i < j < |devices| ==> devices[i] != devices[j])
      && |snapshots| == |queried| == |devices| && current <= |devices|
    }

    ghost function Pollables(): seq<seq<Pollable>>
      reads this, devices
    {
      seq(|devices|, i requires 0 <= i < |devices| reads this, devices => devices[i].pollables)
    }

    ghost function Abs(): Cycle
      reads this, devices
    {
      Cycle(seq(|devices|, i requires 0 <= i < |devices| reads this, devices => devices[i].currentRound),
            current, snapshots, queried)
    }

    /** A polling cycle over devices that have no round under way. */
    constructor (devices: seq<Device>)
      requires forall i, j :: 0 <= i < j < |devices| ==> devices[i] != devices[j]
      requires forall d :: d in devices ==> d.currentRound == []
      ensures Valid() && this.devices == devices && Abs() == Begin(Pollables())
    {
      this.devices, current := devices, 0;
      snapshots, queried := seq(|devices|, i => []), seq(|devices|, i => []);
    }

    /** One tick: at most three commands, except for an energy chunk that is then all that is sent. */
    method Poll(tick: Tick) returns (polled: seq<Polled>)
      requires Valid()
      modifies this`current, this`snapshots, this`queried, devices
      ensures Valid() && devices == old(devices) && Pollables() == old(Pollables())
      ensures (polled, Abs()) == PollTick(old(Pollables()), old(Abs()), tick)
      ensures WithinBudget(Sent(polled), DEFAULT_MAX_COMMANDS) && AllSend(Sent(polled))
    {
      hide PollFrom;
      polled := [];
      var left := DEFAULT_MAX_COMMANDS;
      ghost var all := Pollables();
      ghost var turns, goal := TurnsOf(all, tick), PollTick(all, Abs(), tick);
      TickWithinBudget(all, Abs(), tick);
      while left > 0 && current < |devices|
        invariant Valid() && devices == old(devices) && Pollables() == all
        invariant left <= DEFAULT_MAX_COMMANDS
        invariant PollFrom(turns, |devices|, Abs(), left, polled) == goal
        decreases |devices| - current
      {
        var turn := current;
        ghost var c := Abs();
        PollNext(turns, |devices|, c, left, polled);
        var batches, hasMore := PollDevice(devices[current], tick, left);
        assert turns(c, left) == Taken(batches, Abs(), !hasMore);
        if batches != [] {
          polled := polled + [Polled(turn, batches)];
        }
        left := left - Total(batches);
        if hasMore {
          return;
        }
      }
      PollEnds(turns, |devices|, Abs(), left, polled);
    }

    /** The device whose turn it is; when its round is over it is the next one's. */
    method PollDevice(device: Device, tick: Tick, left: int) returns (batches: seq<Batch>, hasMore: bool)
      requires Valid() && current < |devices| && device == devices[current] && 0 < left <= DEFAULT_MAX_COMMANDS
      modifies this`current, this`snapshots, this`queried, device`currentRound
      ensures Valid() && devices == old(devices) && Pollables() == old(Pollables())
      ensures TurnOf(Pollables(), old(Abs()), tick, left) ==
              Taken(batches, Abs(), !hasMore)
    {
      ghost var c, round := Abs(), device.RoundAt(tick.due);
      var inFlight: bool;
      batches, hasMore, inFlight := device.PollControls(left, tick.due);
      device.TakeAnswers(inFlight, tick.failed);
      if c.rounds[current] == [] {
        snapshots := snapshots[current := round];
      }
      queried := queried[current := queried[current] + Queried(batches)];
      if !hasMore {
        current := current + 1;
      }
      assert Pollables() == old(Pollables());
      assert Abs().rounds == c.rounds[c.current := device.currentRound];
    }
  }
}
