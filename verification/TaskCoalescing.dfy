/** Pending writes of controls and the task queue (`_handle_on_topic`, `_polling_loop`,
    `_remove_queued_commissioning_task` of the application controller). */
module TaskCoalescing {
  import opened Prelude

  type Control = nat
  type Payload = string

  datatype Task = Execute(control: Control) | Commissioning | OtherTask(id: nat)

  datatype Write = Write(control: Control, payload: Option<Payload>)

  /** `values` are the payloads of the controls that are dirty; `hand` is the task the loop has taken
      off the queue.  The rest is history: what arrived, and what became of it. */
  datatype State = State(
    queue: seq<Task>, values: map<Control, Payload>, hand: Option<Task>, quiescent: bool,
    received: seq<Write>, executed: seq<Write>, superseded: seq<Write>, refused: seq<Write>)

  const START := State([], map[], None, false, [], [], [], [])

  /** What happens between two points at which the event loop can switch. */
  datatype Event =
    | OnTopic(control: Control, payload: Payload)
    | Put(task: Task)
    | RemoveCommissioning
    | SetQuiescent(on: bool)
    | LoopTakes
    | LoopHandles

  function ValueToSet(s: State, c: Control): Option<Payload>
  {
    if c in s.values then Some(s.values[c]) else None
  }

  /** A payload for a control: it replaces one that is still pending, else a task is queued. */
  function Arrives(s: State, c: Control, p: Payload): State
  {
    s.(values := s.values[c := p],
       received := s.received + [Write(c, Some(p))],
       superseded := if c in s.values then s.superseded + [Write(c, ValueToSet(s, c))] else s.superseded,
       queue := if c in s.values then s.queue else s.queue + [Execute(c)])
  }

  /** Takes the value of the control in hand for execution. */
  function TakeValue(s: State): State
    requires s.hand.Some? && s.hand.value.Execute?
  {
    var c := s.hand.value.control;
    s.(executed := s.executed + [Write(c, ValueToSet(s, c))], values := s.values - {c})
  }

  function NextInHand(s: State): State
  {
    if s.queue == [] then s.(hand := None) else s.(hand := Some(s.queue[0]), queue := s.queue[1..])
  }

  /** Collects execute tasks until another kind of task or the end of the queue. */
  function ExecuteBatch(s: State): State
    requires s.hand.Some? && s.hand.value.Execute?
    decreases |s.queue|
  {
    var t := NextInHand(TakeValue(s));
    if t.hand.Some? && t.hand.value.Execute? then ExecuteBatch(t) else t
  }

  function Refuse(s: State): State
    requires s.hand.Some?
  {
    if s.hand.value.Execute? then
      var c := s.hand.value.control;
      s.(hand := None, values := s.values - {c}, refused := s.refused + [Write(c, ValueToSet(s, c))])
    else s.(hand := None)
  }

  /** The queue without its first commissioning task. */
  function WithoutCommissioning(queue: seq<Task>): seq<Task>
  {
    if queue == [] then []
    else if queue[0] == Commissioning then queue[1..]
    else [queue[0]] + WithoutCommissioning(queue[1..])
  }

  function Step(s: State, e: Event): State
  {
    match e
    case OnTopic(c, p) => Arrives(s, c, p)
    case Put(t) => if t.Execute? then s else s.(queue := s.queue + [t])
    case RemoveCommissioning => s.(queue := WithoutCommissioning(s.queue))
    case SetQuiescent(on) => s.(quiescent := on)
    case LoopTakes => if s.hand.None? then NextInHand(s) else s
    case LoopHandles =>
      if s.hand.None? then s
      else if s.quiescent then Refuse(s)
      else if s.hand.value.Execute? then ExecuteBatch(s)
      else s.(hand := None)
  }

  function Run(events: seq<Event>): State
  {
    if events == [] then START else Step(Run(events[..|events| - 1]), events[|events| - 1])
  }

  class ApplicationController {
    var queue: seq<Task>
    var values: map<Control, Payload>
    var hand: Option<Task>
    var quiescent: bool
    ghost var received: seq<Write>
    ghost var executed: seq<Write>
    ghost var superseded: seq<Write>
    ghost var refused: seq<Write>

    ghost function Abs(): State
      reads this
    {
      State(queue, values, hand, quiescent, received, executed, superseded, refused)
    }

    constructor ()
      ensures Abs() == START
    {
      queue, values, hand, quiescent := [], map[], None, false;
      received, executed, superseded, refused := [], [], [], [];
    }

    method HandleOnTopic(c: Control, p: Payload)
      modifies this
      ensures Abs() == Step(old(Abs()), OnTopic(c, p))
    {
      var dirty := c in values;
      if dirty {
        superseded := superseded + [Write(c, Some(values[c]))];
      }
      received := received + [Write(c, Some(p))];
      values := values[c := p];
      if dirty {
        return;
      }
      queue := queue + [Execute(c)];
    }

    /** Takes every task off the queue and puts back all but the first commissioning task. */
    method RemoveQueuedCommissioningTask() returns (removed: bool)
      modifies this`queue
      ensures Abs() == Step(old(Abs()), RemoveCommissioning)
      ensures removed <==> Commissioning in old(queue)
    {
      var pending: seq<Task>;
      pending, removed := Drain(queue);
      queue := pending;
    }

    /** One turn of the loop with a task in hand. */
    method HandleItem()
      modifies this
      ensures Abs() == Step(old(Abs()), LoopHandles)
    {
      if hand.None? {
        return;
      }
      if quiescent {
        if hand.value.Execute? {
          var c := hand.value.control;
          refused := refused + [Write(c, if c in values then Some(values[c]) else None)];
          values := values - {c};
        }
        hand := None;
        return;
      }
      if hand.value.Execute? {
        ghost var s := Abs();
        while hand.Some? && hand.value.Execute?
          invariant quiescent == s.quiescent
          invariant (if hand.Some? && hand.value.Execute? then ExecuteBatch(Abs()) else Abs()) == ExecuteBatch(s)
          decreases |queue| + (if hand.Some? then 1 else 0)
        {
          var c := hand.value.control;
          executed := executed + [Write(c, if c in values then Some(values[c]) else None)];
          values := values - {c};
          if queue == [] {
            hand := None;
          } else {
            hand := Some(queue[0]);
            queue := queue[1..];
          }
        }
      } else {
        hand := None;
      }
    }
  }

  /** Goes through a queue once, passing over the first commissioning task. */
  method Drain(queue: seq<Task>) returns (pending: seq<Task>, removed: bool)
    ensures pending == WithoutCommissioning(queue)
    ensures removed <==> Commissioning in queue
  {
    pending, removed := [], false;
    ghost var k := 0;
    for i := 0 to |queue|
      invariant !removed ==> pending == queue[..i] && Commissioning !in queue[..i]
      invariant removed ==>
        && 0 <= k < i && queue[k] == Commissioning && Commissioning !in queue[..k]
        && pending == queue[..k] + queue[k + 1..i]
    {
      if !removed && queue[i] == Commissioning {
        removed, k := true, i;
      } else {
        pending := pending + [queue[i]];
      }
    }
    if removed {
      CancelKeepsOrder(queue, k);
    } else {
      WithoutNone(queue);
    }
  }

  // --- A control is dirty exactly while one task for it is pending ---

  function Tasks(s: State): seq<Task>
  {
    (if s.hand.Some? then [s.hand.value] else []) + s.queue
  }

  function Executes(tasks: seq<Task>, c: Control): nat
  {
    multiset(tasks)[Execute(c)]
  }

  ghost predicate OneTaskEach(tasks: seq<Task>, dirty: set<Control>)
  {
    forall c: Control :: Executes(tasks, c) == if c in dirty then 1 else 0
  }

  /** How often `w` is what its control has pending. */
  function PendingCount(values: map<Control, Payload>, w: Write): nat
  {
    if w.control in values && w.payload == Some(values[w.control]) then 1 else 0
  }

  /** Every payload that arrived was executed, superseded or refused, or is pending: as often as it
      arrived. */
  ghost predicate Accounted(received: multiset<Write>, settled: multiset<Write>, values: map<Control, Payload>)
  {
    forall w: Write :: received[w] == settled[w] + PendingCount(values, w)
  }

  function Settled(s: State): multiset<Write>
  {
    multiset(s.executed) + multiset(s.superseded) + multiset(s.refused)
  }

  /** The last write for a control in a list. */
  function LastFor(ws: seq<Write>, c: Control): Option<Write>
  {
    if ws == [] then None
    else var w := ws[|ws| - 1]; if w.control == c then Some(w) else LastFor(ws[..|ws| - 1], c)
  }

  /** The last payload of a control is never superseded: it is pending, or it was the last one
      executed for the control, or the last one refused. */
  ghost predicate LastGetsThrough(received: seq<Write>, executed: seq<Write>, refused: seq<Write>,
                                  values: map<Control, Payload>)
  {
    forall c: Control ::
      if c in values then LastFor(received, c) == Some(Write(c, Some(values[c])))
      else LastFor(received, c).None?
           || LastFor(received, c) == LastFor(executed, c) || LastFor(received, c) == LastFor(refused, c)
  }

  /** The invariant of the queue and the pending values. */
  ghost predicate Coalesced(s: State)
  {
    && OneTaskEach(Tasks(s), s.values.Keys)
    && Accounted(multiset(s.received), Settled(s), s.values)
    && LastGetsThrough(s.received, s.executed, s.refused, s.values)
  }

  lemma WithoutFirst(a: seq<Task>, b: seq<Task>)
    requires Commissioning !in a
    ensures WithoutCommissioning(a + [Commissioning] + b) == a + b
  {
    if a == [] {
      assert a + [Commissioning] + b == [Commissioning] + b;
      assert a + b == b;
    } else {
      var all := a + [Commissioning] + b;
      assert all[1..] == a[1..] + [Commissioning] + b;
      WithoutFirst(a[1..], b);
      assert [a[0]] + (a[1..] + b) == a + b;
    }
  }

  lemma WithoutNone(a: seq<Task>)
    requires Commissioning !in a
    ensures WithoutCommissioning(a) == a
  {
    if a != [] {
      WithoutNone(a[1..]);
    }
  }

  lemma ExecutesConcat(a: seq<Task>, b: seq<Task>, c: Control)
    ensures Executes(a + b, c) == Executes(a, c) + Executes(b, c)
  {
  }

  lemma ExecutesOne(t: Task, c: Control)
    ensures Executes([t], c) == if t == Execute(c) then 1 else 0
  {
  }

  lemma TasksOfNext(s: State)
    ensures Tasks(NextInHand(s)) == s.queue
  {
    if s.queue != [] {
      assert s.queue == [s.queue[0]] + s.queue[1..];
    }
  }

  /** The task in hand is the one its control is dirty for. */
  lemma HandIsDirty(c: Control, queue: seq<Task>, dirty: set<Control>)
    requires OneTaskEach([Execute(c)] + queue, dirty)
    ensures c in dirty && OneTaskEach(queue, dirty - {c})
  {
    forall d: Control
      ensures Executes([Execute(c)] + queue, d) == (if d == c then 1 else 0) + Executes(queue, d)
    {
      ExecutesConcat([Execute(c)], queue, d);
      ExecutesOne(Execute(c), d);
    }
  }

  lemma TakeAccounted(received: multiset<Write>, settled: multiset<Write>, values: map<Control, Payload>, c: Control)
    requires Accounted(received, settled, values) && c in values
    ensures Accounted(received, settled + multiset{Write(c, Some(values[c]))}, values - {c})
  {
  }

  lemma LastForAppended(ws: seq<Write>, w: Write, c: Control)
    ensures LastFor(ws + [w], c) == if w.control == c then Some(w) else LastFor(ws, c)
  {
    assert (ws + [w])[..|ws|] == ws;
  }

  lemma TakeLast(received: seq<Write>, executed: seq<Write>, refused: seq<Write>, values: map<Control, Payload>,
                 c: Control)
    requires LastGetsThrough(received, executed, refused, values) && c in values
    ensures LastGetsThrough(received, executed + [Write(c, Some(values[c]))], refused, values - {c})
    ensures LastGetsThrough(received, executed, refused + [Write(c, Some(values[c]))], values - {c})
  {
    var w := Write(c, Some(values[c]));
    forall d: Control
      ensures LastFor(executed + [w], d) == if c == d then Some(w) else LastFor(executed, d)
      ensures LastFor(refused + [w], d) == if c == d then Some(w) else LastFor(refused, d)
    {
      LastForAppended(executed, w, d);
      LastForAppended(refused, w, d);
    }
  }

  lemma TakeKeeps(s: State)
    requires Coalesced(s) && s.hand.Some? && s.hand.value.Execute?
    ensures s.hand.value.control in s.values
    ensures Coalesced(NextInHand(TakeValue(s)))
  {
    var c := s.hand.value.control;
    HandIsDirty(c, s.queue, s.values.Keys);
    TakeAccounted(multiset(s.received), Settled(s), s.values, c);
    TakeLast(s.received, s.executed, s.refused, s.values, c);
    TasksOfNext(TakeValue(s));
    assert Settled(TakeValue(s)) == Settled(s) + multiset{Write(c, Some(s.values[c]))};
    assert (s.values - {c}).Keys == s.values.Keys - {c};
  }

  lemma RefuseKeeps(s: State)
    requires Coalesced(s) && s.hand.Some? && s.hand.value.Execute?
    ensures Coalesced(Refuse(s))
  {
    var c := s.hand.value.control;
    HandIsDirty(c, s.queue, s.values.Keys);
    TakeAccounted(multiset(s.received), Settled(s), s.values, c);
    TakeLast(s.received, s.executed, s.refused, s.values, c);
    assert Tasks(Refuse(s)) == s.queue;
    assert Settled(Refuse(s)) == Settled(s) + multiset{Write(c, Some(s.values[c]))};
    assert (s.values - {c}).Keys == s.values.Keys - {c};
  }

  lemma {:induction false} BatchKeeps(s: State)
    requires Coalesced(s) && s.hand.Some? && s.hand.value.Execute?
    ensures Coalesced(ExecuteBatch(s))
    decreases |s.queue|
  {
    TakeKeeps(s);
    var t := NextInHand(TakeValue(s));
    if t.hand.Some? && t.hand.value.Execute? {
      BatchKeeps(t);
    }
  }

  lemma ArriveAccounted(received: multiset<Write>, settled: multiset<Write>, values: map<Control, Payload>,
                        c: Control, p: Payload)
    requires Accounted(received, settled, values)
    ensures Accounted(received + multiset{Write(c, Some(p))},
                      if c in values then settled + multiset{Write(c, Some(values[c]))} else settled, values[c := p])
  {
  }

  lemma ArriveLast(received: seq<Write>, executed: seq<Write>, refused: seq<Write>, values: map<Control, Payload>,
                   c: Control, p: Payload)
    requires LastGetsThrough(received, executed, refused, values)
    ensures LastGetsThrough(received + [Write(c, Some(p))], executed, refused, values[c := p])
  {
    forall d: Control
      ensures LastFor(received + [Write(c, Some(p))], d) ==
              if c == d then Some(Write(c, Some(p))) else LastFor(received, d)
    {
      LastForAppended(received, Write(c, Some(p)), d);
    }
  }

  lemma ArriveTask(tasks: seq<Task>, dirty: set<Control>, c: Control)
    requires OneTaskEach(tasks, dirty)
    ensures OneTaskEach(if c in dirty then tasks else tasks + [Execute(c)], dirty + {c})
  {
    forall d: Control
      ensures Executes(tasks + [Execute(c)], d) == Executes(tasks, d) + if d == c then 1 else 0
    {
      ExecutesConcat(tasks, [Execute(c)], d);
      ExecutesOne(Execute(c), d);
    }
  }

  lemma ArrivesSettled(s: State, c: Control, p: Payload)
    ensures Settled(Arrives(s, c, p)) ==
            if c in s.values then Settled(s) + multiset{Write(c, Some(s.values[c]))} else Settled(s)
    ensures multiset(Arrives(s, c, p).received) == multiset(s.received) + multiset{Write(c, Some(p))}
  {
  }

  lemma ArrivesTasks(s: State, c: Control, p: Payload)
    ensures Tasks(Arrives(s, c, p)) == if c in s.values then Tasks(s) else Tasks(s) + [Execute(c)]
  {
  }

  lemma ArrivesKeeps(s: State, c: Control, p: Payload)
    requires Coalesced(s)
    ensures Coalesced(Arrives(s, c, p))
  {
    var t := Arrives(s, c, p);
    assert OneTaskEach(Tasks(t), t.values.Keys) by {
      ArriveTask(Tasks(s), s.values.Keys, c);
      ArrivesTasks(s, c, p);
      assert t.values.Keys == s.values.Keys + {c};
    }
    assert Accounted(multiset(t.received), Settled(t), t.values) by {
      ArriveAccounted(multiset(s.received), Settled(s), s.values, c, p);
      ArrivesSettled(s, c, p);
    }
    ArriveLast(s.received, s.executed, s.refused, s.values, c, p);
  }

  lemma {:induction false} RemovalKeepsExecutes(queue: seq<Task>, c: Control)
    ensures Executes(WithoutCommissioning(queue), c) == Executes(queue, c)
  {
    if queue != [] {
      assert queue == [queue[0]] + queue[1..];
      ExecutesConcat([queue[0]], queue[1..], c);
      ExecutesOne(queue[0], c);
      if queue[0] != Commissioning {
        RemovalKeepsExecutes(queue[1..], c);
        ExecutesConcat([queue[0]], WithoutCommissioning(queue[1..]), c);
      }
    }
  }

  lemma SameExecutes(tasks: seq<Task>, tasks': seq<Task>, dirty: set<Control>)
    requires OneTaskEach(tasks, dirty) && forall c: Control :: Executes(tasks', c) == Executes(tasks, c)
    ensures OneTaskEach(tasks', dirty)
  {
  }

  lemma PutKeeps(tasks: seq<Task>, task: Task, dirty: set<Control>)
    requires OneTaskEach(tasks, dirty) && !task.Execute?
    ensures OneTaskEach(tasks + [task], dirty)
  {
    forall c: Control
      ensures Executes(tasks + [task], c) == Executes(tasks, c)
    {
      ExecutesConcat(tasks, [task], c);
      ExecutesOne(task, c);
    }
  }

  lemma RemovalKeeps(hand: seq<Task>, queue: seq<Task>, dirty: set<Control>)
    requires OneTaskEach(hand + queue, dirty)
    ensures OneTaskEach(hand + WithoutCommissioning(queue), dirty)
  {
    forall c: Control
      ensures Executes(hand + WithoutCommissioning(queue), c) == Executes(hand + queue, c)
    {
      RemovalKeepsExecutes(queue, c);
      ExecutesConcat(hand, queue, c);
      ExecutesConcat(hand, WithoutCommissioning(queue), c);
    }
  }

  // Tasks of other kinds come and go without touching the writes.

  lemma PutCoalesced(s: State, task: Task)
    requires Coalesced(s) && !task.Execute?
    ensures Coalesced(s.(queue := s.queue + [task]))
  {
    PutKeeps(Tasks(s), task, s.values.Keys);
    assert Tasks(s.(queue := s.queue + [task])) == Tasks(s) + [task];
  }

  lemma RemovalCoalesced(s: State)
    requires Coalesced(s)
    ensures Coalesced(s.(queue := WithoutCommissioning(s.queue)))
  {
    RemovalKeeps(if s.hand.Some? then [s.hand.value] else [], s.queue, s.values.Keys);
  }

  lemma TakeCoalesced(s: State)
    requires Coalesced(s) && s.hand.None?
    ensures Coalesced(NextInHand(s))
  {
    TasksOfNext(s);
    assert Tasks(s) == s.queue;
  }

  lemma OtherInHand(s: State)
    requires Coalesced(s) && s.hand.Some? && !s.hand.value.Execute?
    ensures Coalesced(s.(hand := None))
  {
    forall c: Control
      ensures Executes(s.queue, c) == Executes(Tasks(s), c)
    {
      ExecutesConcat([s.hand.value], s.queue, c);
      ExecutesOne(s.hand.value, c);
    }
    SameExecutes(Tasks(s), s.queue, s.values.Keys);
    assert Tasks(s.(hand := None)) == s.queue;
  }

  lemma StepKeeps(s: State, e: Event)
    requires Coalesced(s)
    ensures Coalesced(Step(s, e))
  {
    match e {
      case OnTopic(c, p) => ArrivesKeeps(s, c, p);
      case SetQuiescent(on) => assert Tasks(s.(quiescent := on)) == Tasks(s);
      case LoopHandles =>
        if s.hand.Some? {
          if !s.hand.value.Execute? {
            OtherInHand(s);
          } else if s.quiescent {
            RefuseKeeps(s);
          } else {
            BatchKeeps(s);
          }
        }
      case Put(task) => if !task.Execute? { PutCoalesced(s, task); }
      case RemoveCommissioning => RemovalCoalesced(s);
      case LoopTakes => if s.hand.None? { TakeCoalesced(s); }
    }
  }

  /**
   Over every interleaving of arriving payloads, other tasks, cancellations and turns of the loop: a
   control is dirty exactly while one task for it is queued or in the loop's hand; every payload is
   executed, superseded, refused or pending; and the last one for a control is not superseded.
   */
  lemma {:induction false} NothingIsLost(events: seq<Event>)
    ensures Coalesced(Run(events))
  {
    if events != [] {
      NothingIsLost(events[..|events| - 1]);
      StepKeeps(Run(events[..|events| - 1]), events[|events| - 1]);
    }
  }

  /** With nothing queued or in hand nothing is pending: all that arrived has been dealt with. */
  lemma IdleMeansDone(events: seq<Event>)
    requires Run(events).queue == [] && Run(events).hand.None?
    ensures var s := Run(events);
            && s.values == map[]
            && multiset(s.received) == multiset(s.executed) + multiset(s.superseded) + multiset(s.refused)
  {
    NothingIsLost(events);
    var s := Run(events);
    assert Tasks(s) == [];
    assert forall c: Control :: Executes(Tasks(s), c) == 0;
    assert s.values.Keys == {};
    forall w: Write
      ensures multiset(s.received)[w] == Settled(s)[w]
    {
      assert PendingCount(s.values, w) == 0;
    }
  }

  /** What the loop executes is always a payload: a task never finds its control clean. */
  lemma {:induction false} ExecutedHasPayload(events: seq<Event>)
    ensures AllPayloads(Run(events).executed)
  {
    if events != [] {
      var s, e := Run(events[..|events| - 1]), events[|events| - 1];
      ExecutedHasPayload(events[..|events| - 1]);
      NothingIsLost(events[..|events| - 1]);
      if e.LoopHandles? && s.hand.Some? && s.hand.value.Execute? && !s.quiescent {
        BatchHasPayload(s);
      }
    }
  }

  predicate AllPayloads(ws: seq<Write>)
  {
    forall w :: w in ws ==> w.payload.Some?
  }

  lemma TakeHasPayload(s: State)
    requires s.hand.Some? && s.hand.value.Execute? && s.hand.value.control in s.values && AllPayloads(s.executed)
    ensures AllPayloads(NextInHand(TakeValue(s)).executed)
  {
  }

  lemma {:induction false} BatchHasPayload(s: State)
    requires Coalesced(s) && s.hand.Some? && s.hand.value.Execute? && AllPayloads(s.executed)
    ensures AllPayloads(ExecuteBatch(s).executed)
    decreases |s.queue|
  {
    TakeKeeps(s);
    TakeHasPayload(s);
    var t := NextInHand(TakeValue(s));
    if t.hand.Some? && t.hand.value.Execute? {
      BatchHasPayload(t);
    }
  }

  /** Cancelling a queued commissioning removes that one task and keeps all others in order. */
  lemma CancelKeepsOrder(queue: seq<Task>, k: nat)
    requires k < |queue| && queue[k] == Commissioning && Commissioning !in queue[..k]
    ensures WithoutCommissioning(queue) == queue[..k] + queue[k + 1..]
  {
    WithoutFirst(queue[..k], queue[k + 1..]);
    assert queue == queue[..k] + [Commissioning] + queue[k + 1..];
  }

  // --- Quiescent mode ---

  /** Whether quiescent mode is on: as it was last set. */
  function QuiescentAfter(events: seq<Event>): bool
  {
    if events == [] then false
    else
      var e := events[|events| - 1];
      if e.SetQuiescent? then e.on else QuiescentAfter(events[..|events| - 1])
  }

  lemma {:induction false} BatchTakes(s: State)
    requires s.hand.Some? && s.hand.value.Execute?
    ensures ExecuteBatch(s).quiescent == s.quiescent && ExecuteBatch(s).refused == s.refused
    ensures ExecuteBatch(s).received == s.received && ExecuteBatch(s).superseded == s.superseded
    ensures s.executed < ExecuteBatch(s).executed
    decreases |s.queue|
  {
    var t := NextInHand(TakeValue(s));
    if t.hand.Some? && t.hand.value.Execute? {
      BatchTakes(t);
    }
  }

  lemma {:induction false} QuiescentIsLastSet(events: seq<Event>)
    ensures Run(events).quiescent == QuiescentAfter(events)
  {
    if events != [] {
      var s := Run(events[..|events| - 1]);
      QuiescentIsLastSet(events[..|events| - 1]);
      if s.hand.Some? && s.hand.value.Execute? {
        BatchTakes(s);
      }
    }
  }

  /** A write is executed only by a turn of the loop outside quiescent mode and refused only by one in
      it; and a turn that finds a write in hand does one of the two to it. */
  lemma RefusedInQuiescentMode(events: seq<Event>, e: Event)
    ensures var s, t := Run(events), Run(events + [e]);
            && s.executed <= t.executed && s.refused <= t.refused
            && (t.executed != s.executed ==> e.LoopHandles? && !QuiescentAfter(events))
            && (t.refused != s.refused ==> e.LoopHandles? && QuiescentAfter(events))
            && (e.LoopHandles? && s.hand.Some? && s.hand.value.Execute? ==>
                  if QuiescentAfter(events) then |t.refused| == |s.refused| + 1 else t.executed != s.executed)
  {
    var s := Run(events);
    assert (events + [e])[..|events|] == events;
    QuiescentIsLastSet(events);
    if s.hand.Some? && s.hand.value.Execute? {
      BatchTakes(s);
    }
  }

  predicate NeverQuiescent(events: seq<Event>)
  {
    forall e :: e in events ==> !(e.SetQuiescent? && e.on)
  }

  lemma {:induction false} NothingRefused(events: seq<Event>)
    requires NeverQuiescent(events)
    ensures Run(events).refused == [] && !QuiescentAfter(events)
  {
    if events != [] {
      var front, e := events[..|events| - 1], events[|events| - 1];
      assert e in events && events == front + [e];
      assert forall d :: d in front ==> d in events;
      NothingRefused(front);
      RefusedInQuiescentMode(front, e);
    }
  }

  /** A run without quiescent mode that ends idle has refused nothing and executed, of every control that
      was written, the last payload last. */
  lemma IdleHasExecutedLast(events: seq<Event>, c: Control)
    requires NeverQuiescent(events)
    requires Run(events).queue == [] && Run(events).hand.None?
    ensures Run(events).refused == []
    ensures LastFor(Run(events).received, c) == LastFor(Run(events).executed, c)
  {
    NothingRefused(events);
    IdleMeansDone(events);
    NothingIsLost(events);
    var s := Run(events);
    if LastFor(s.received, c).None? {
      if LastFor(s.executed, c).Some? {
        var w := LastFor(s.executed, c).value;
        LastForHolds(s.executed, c);
        assert w in multiset(s.executed) && w in multiset(s.received);
        NoneForHolds(s.received, c);
      }
    }
  }

  lemma {:induction false} LastForHolds(ws: seq<Write>, c: Control)
    ensures LastFor(ws, c).Some? ==> LastFor(ws, c).value in ws && LastFor(ws, c).value.control == c
  {
    if ws != [] {
      LastForHolds(ws[..|ws| - 1], c);
    }
  }

  lemma {:induction false} NoneForHolds(ws: seq<Write>, c: Control)
    requires LastFor(ws, c).None?
    ensures forall w :: w in ws ==> w.control != c
  {
    if ws != [] {
      NoneForHolds(ws[..|ws| - 1], c);
      assert ws == ws[..|ws| - 1] + [ws[|ws| - 1]];
    }
  }

  // --- Order ---

  /** The controls of the execute tasks with which a list of tasks begins. */
  function Leading(tasks: seq<Task>): seq<Control>
  {
    if tasks == [] || !tasks[0].Execute? then [] else [tasks[0].control] + Leading(tasks[1..])
  }

  function ControlsOf(ws: seq<Write>): (cs: seq<Control>)
    ensures |cs| == |ws| && forall i :: 0 <= i < |cs| ==> cs[i] == ws[i].control
  {
    seq(|ws|, i requires 0 <= i < |ws| => ws[i].control)
  }

  /** A turn of the loop executes all execute tasks up to the first of another kind, in their order, and
      leaves that one in hand with the rest queued. */
  lemma {:induction false} BatchInOrder(s: State)
    requires s.hand.Some? && s.hand.value.Execute?
    ensures var t, n := ExecuteBatch(s), |Leading(Tasks(s))|;
            && s.executed <= t.executed && ControlsOf(t.executed[|s.executed|..]) == Leading(Tasks(s))
            && n <= |Tasks(s)| && Tasks(t) == Tasks(s)[n..]
    decreases |s.queue|
  {
    var u, t := NextInHand(TakeValue(s)), ExecuteBatch(s);
    TasksOfNext(TakeValue(s));
    assert Tasks(s)[1..] == s.queue == Tasks(u);
    BatchTakes(s);
    if u.hand.Some? && u.hand.value.Execute? {
      BatchInOrder(u);
      LaterControls(s.executed, u.executed, t.executed);
      DropMore(Tasks(s), |Leading(Tasks(u))|);
    } else {
      LaterControls(s.executed, u.executed, u.executed);
    }
  }

  lemma LaterControls(a: seq<Write>, b: seq<Write>, c: seq<Write>)
    requires |b| == |a| + 1 && a <= b <= c
    ensures ControlsOf(c[|a|..]) == [b[|a|].control] + ControlsOf(c[|b|..])
  {
    assert c[|a|..] == [c[|a|]] + c[|b|..];
  }

  lemma DropMore(tasks: seq<Task>, n: nat)
    requires n + 1 <= |tasks|
    ensures tasks[1..][n..] == tasks[n + 1..]
  {
  }

  // --- The queue is worked off ---

  /** `n` turns of the loop in a row. */
  function TurnsFrom(s: State, n: nat): State
    decreases n
  {
    if n == 0 then s else TurnsFrom(Step(Step(s, LoopTakes), LoopHandles), n - 1)
  }

  lemma TurnShortens(s: State)
    requires Tasks(s) != []
    ensures |Tasks(Step(Step(s, LoopTakes), LoopHandles))| < |Tasks(s)|
  {
    var t := Step(s, LoopTakes);
    if s.hand.None? {
      TasksOfNext(s);
    }
    assert t.hand.Some? && Tasks(t) == Tasks(s);
    if !t.quiescent && t.hand.value.Execute? {
      BatchInOrder(t);
      assert Leading(Tasks(t)) != [];
    }
  }

  /** As many turns as there are tasks leave nothing queued or in hand. */
  lemma {:induction false} TurnsEndIdle(s: State, n: nat)
    requires n >= |Tasks(s)|
    ensures TurnsFrom(s, n).queue == [] && TurnsFrom(s, n).hand.None?
    decreases n
  {
    if n > 0 {
      var t := Step(Step(s, LoopTakes), LoopHandles);
      if Tasks(s) != [] {
        TurnShortens(s);
      } else {
        assert t == s;
      }
      TurnsEndIdle(t, n - 1);
    }
  }
}
