/** Retained messages across broker outages (`MQTTDispatcher`). */
module RetainedMirror {
  import opened Prelude

  type Topic = nat
  type Payload = string

  /** A retained message as last published; no payload is a request to clear the topic. */
  datatype Message = Message(payload: Option<Payload>, qos: nat)

  datatype Entry = Entry(topic: Topic, message: Message)

  // --- The mirror: a dictionary in insertion order ---

  function Find(mirror: seq<Entry>, topic: Topic): Option<Message>
  {
    if mirror == [] then None
    else if mirror[0].topic == topic then Some(mirror[0].message)
    else Find(mirror[1..], topic)
  }

  function Without(mirror: seq<Entry>, topic: Topic): seq<Entry>
  {
    if mirror == [] then []
    else if mirror[0].topic == topic then Without(mirror[1..], topic)
    else [mirror[0]] + Without(mirror[1..], topic)
  }

  function Assign(mirror: seq<Entry>, e: Entry): seq<Entry>
  {
    if mirror == [] then [e]
    else if mirror[0].topic == e.topic then [e] + mirror[1..]
    else [mirror[0]] + Assign(mirror[1..], e)
  }

  predicate Alive(m: Option<Message>)
  {
    m.Some? && m.value.payload.Some?
  }

  /** A topic that appears, or appears again after a clear, goes to the end. */
  function Mirrored(mirror: seq<Entry>, e: Entry): seq<Entry>
  {
    if e.message.payload.Some? && !Alive(Find(mirror, e.topic)) then Without(mirror, e.topic) + [e]
    else Assign(mirror, e)
  }

  function Topics(mirror: seq<Entry>): (ts: seq<Topic>)
    ensures |ts| == |mirror| && forall i :: 0 <= i < |ts| ==> ts[i] == mirror[i].topic
  {
    seq(|mirror|, i requires 0 <= i < |mirror| => mirror[i].topic)
  }

  // --- The dispatcher, the broker, and the line between them ---

  /** `broker` is what the broker retains; `line` are the retained messages on their way, oldest
      first; `replay` are the topics a running replay has still to send. */
  datatype State = State(
    mirror: seq<Entry>, connected: bool, session: nat,
    replay: Option<seq<Topic>>, line: seq<Entry>, broker: map<Topic, Payload>)

  /** `sent` says whether the client accepted the message.  When the link is lost, `arrived` of the
      messages on the line have reached the broker and `broker` is what the next session meets. */
  datatype Event =
    | Publish(topic: Topic, message: Message, sent: bool)
    | BeginReplay
    | ReplayNext(sent: bool)
    | Deliver
    | Lost(broker: map<Topic, Payload>)
    | Restored

  /** The broker keeps no empty payload: it clears the topic. */
  function Retain(broker: map<Topic, Payload>, e: Entry): map<Topic, Payload>
  {
    if e.message.payload.Some? && e.message.payload.value != ""
    then broker[e.topic := e.message.payload.value]
    else broker - {e.topic}
  }

  function Step(s: State, e: Event): State
  {
    match e
    case Publish(topic, message, sent) =>
      s.(mirror := Mirrored(s.mirror, Entry(topic, message)),
         line := if s.connected && sent then s.line + [Entry(topic, message)] else s.line)
    case BeginReplay => s.(replay := Some(Topics(s.mirror)))
    case ReplayNext(sent) =>
      if s.replay.None? || s.replay.value == [] then s
      else if !s.connected then s.(replay := None)
      else
        var topic, rest := s.replay.value[0], s.replay.value[1..];
        var m := Find(s.mirror, topic);
        if m.None? then s.(replay := None)
        else if !sent then s.(replay := None)
        else s.(replay := Some(rest), line := s.line + [Entry(topic, m.value)])
    case Deliver => if s.line == [] then s else s.(line := s.line[1..], broker := Retain(s.broker, s.line[0]))
    case Lost(broker) => s.(connected := false, replay := None, line := [], broker := broker)
    case Restored => s.(connected := true, session := s.session + 1)
  }

  function Run(s: State, events: seq<Event>): State
  {
    if events == [] then s else Step(Run(s, events[..|events| - 1]), events[|events| - 1])
  }

  /** A dispatcher that has published nothing, and a broker with whatever it retains from before. */
  function Start(broker: map<Topic, Payload>): State
  {
    State([], true, 0, None, [], broker)
  }

  datatype PublishError = BrokerDisconnected | ClientRefused

  class MQTTDispatcher {
    var mirror: seq<Entry>
    var connected: bool
    var session: nat
    var replay: Option<seq<Topic>>
    ghost var line: seq<Entry>
    ghost var broker: map<Topic, Payload>

    ghost function Abs(): State
      reads this
    {
      State(mirror, connected, session, replay, line, broker)
    }

    constructor (ghost broker: map<Topic, Payload>)
      ensures Abs() == Start(broker)
    {
      mirror, connected, session, replay, line := [], true, 0, None, [];
      this.broker := broker;
    }

    /** A session begins once the subscriptions are renewed; if the broker refuses one, it does not. */
    method ConnectionRestored(subscribed: bool) returns (ok: bool)
      modifies this
      ensures ok == subscribed
      ensures Abs() == if subscribed then Step(old(Abs()), Restored) else old(Abs())
    {
      if !subscribed {
        return false;
      }
      session := session + 1;
      connected := true;
      return true;
    }

    method ConnectionLost(ghost next: map<Topic, Payload>)
      modifies this
      ensures Abs() == Step(old(Abs()), Lost(next))
    {
      replay := None;
      connected := false;
      line, broker := [], next;
    }

    /** A retained message is never refused: what does not go out now is left to the replay. */
    method PublishRetained(topic: Topic, message: Message, sent: bool)
      modifies this
      ensures Abs() == Step(old(Abs()), Publish(topic, message, sent))
    {
      MirrorRetained(topic, message);
      if !connected {
        return;
      }
      if sent {
        line := line + [Entry(topic, message)];
      }
    }

    method MirrorRetained(topic: Topic, message: Message)
      modifies this`mirror
      ensures mirror == Mirrored(old(mirror), Entry(topic, message))
    {
      var current := Find(mirror, topic);
      if message.payload.Some? && (current.None? || current.value.payload.None?) {
        WithoutIsGone(mirror, topic);
        mirror := Without(mirror, topic);
        AssignToEnd(mirror, Entry(topic, message));
      }
      mirror := Assign(mirror, Entry(topic, message));
    }

    /** A message that is not retained goes out now or fails. */
    method PublishLive(sent: bool) returns (r: Result<(), PublishError>)
      ensures r.Ok? <==> connected && sent
      ensures r.Err? ==> r.error == if connected then ClientRefused else BrokerDisconnected
    {
      if !connected {
        return Err(BrokerDisconnected);
      }
      return if sent then Ok(()) else Err(ClientRefused);
    }

    method StartReplay()
      modifies this`replay
      ensures Abs() == Step(old(Abs()), BeginReplay)
    {
      replay := Some(Topics(mirror));
    }

    /** One turn of the replay loop, up to the point where it waits for the client. */
    method ReplayOne(sent: bool)
      modifies this`replay, this`line
      ensures Abs() == Step(old(Abs()), ReplayNext(sent))
    {
      if replay.None? || replay.value == [] {
        return;
      }
      if !connected {
        replay := None;
        return;
      }
      var topic := replay.value[0];
      var message := Find(mirror, topic);
      if message.None? || !sent {
        replay := None;
        return;
      }
      line := line + [Entry(topic, message.value)];
      replay := Some(replay.value[1..]);
    }
  }

  lemma {:induction false} WithoutIsGone(mirror: seq<Entry>, topic: Topic)
    ensures Find(Without(mirror, topic), topic).None?
  {
    if mirror != [] {
      WithoutIsGone(mirror[1..], topic);
      if mirror[0].topic != topic {
        assert Without(mirror, topic)[1..] == Without(mirror[1..], topic);
      }
    }
  }

  lemma {:induction false} AssignToEnd(mirror: seq<Entry>, e: Entry)
    requires Find(mirror, e.topic).None?
    ensures Assign(mirror, e) == mirror + [e]
  {
    if mirror != [] {
      AssignToEnd(mirror[1..], e);
    }
  }

  // --- Convergence ---

  lemma {:induction false} FindAssigned(mirror: seq<Entry>, e: Entry, topic: Topic)
    ensures Find(Assign(mirror, e), topic) == if topic == e.topic then Some(e.message) else Find(mirror, topic)
  {
    if mirror != [] && mirror[0].topic != e.topic {
      FindAssigned(mirror[1..], e, topic);
      assert Assign(mirror, e)[1..] == Assign(mirror[1..], e);
    }
  }

  lemma {:induction false} FindWithout(mirror: seq<Entry>, gone: Topic, topic: Topic)
    ensures Find(Without(mirror, gone), topic) == if topic == gone then None else Find(mirror, topic)
  {
    if mirror != [] {
      FindWithout(mirror[1..], gone, topic);
      if mirror[0].topic != gone {
        assert Without(mirror, gone)[1..] == Without(mirror[1..], gone);
      }
    }
  }

  /** The mirror is a dictionary: it holds the last message of every topic. */
  lemma FindMirrored(mirror: seq<Entry>, e: Entry, topic: Topic)
    ensures Find(Mirrored(mirror, e), topic) == if topic == e.topic then Some(e.message) else Find(mirror, topic)
  {
    FindAssigned(mirror, e, topic);
    WithoutIsGone(mirror, e.topic);
    AssignToEnd(Without(mirror, e.topic), e);
    FindAssigned(Without(mirror, e.topic), e, topic);
    FindWithout(mirror, e.topic, topic);
  }

  lemma {:induction false} FindListed(mirror: seq<Entry>, topic: Topic)
    ensures Find(mirror, topic).Some? <==> topic in Topics(mirror)
  {
    if mirror != [] {
      FindListed(mirror[1..], topic);
      assert Topics(mirror) == [mirror[0].topic] + Topics(mirror[1..]);
    }
  }

  /** What the broker retains once everything on the line has arrived. */
  function Eventually(broker: map<Topic, Payload>, line: seq<Entry>): map<Topic, Payload>
  {
    if line == [] then broker else Retain(Eventually(broker, line[..|line| - 1]), line[|line| - 1])
  }

  lemma {:induction false} DeliveryChangesNothing(broker: map<Topic, Payload>, line: seq<Entry>)
    requires line != []
    ensures Eventually(Retain(broker, line[0]), line[1..]) == Eventually(broker, line)
    decreases |line|
  {
    if |line| > 1 {
      var front := line[..|line| - 1];
      DeliveryChangesNothing(broker, front);
      assert line[1..][..|line[1..]| - 1] == front[1..];
    }
  }

  /** The broker agrees with the last message published for `topic`. */
  predicate Agrees(broker: map<Topic, Payload>, topic: Topic, message: Message)
  {
    if message.payload.Some? && message.payload.value != ""
    then topic in broker && broker[topic] == message.payload.value
    else topic !in broker
  }

  /** Nothing happens to the link, and the client accepts every message. */
  predicate Calm(e: Event)
  {
    !e.Lost? && !e.Restored? && (e.Publish? ==> e.sent) && (e.ReplayNext? ==> e.sent)
  }

  /** The invariant of a calm session with a replay under way: a mirrored topic is still to be
      replayed, or the broker will agree with it. */
  ghost predicate Converging(s: State)
  {
    && s.connected && s.replay.Some?
    && (forall t :: t in s.replay.value ==> Find(s.mirror, t).Some?)
    && forall t: Topic :: Find(s.mirror, t).Some? ==>
         t in s.replay.value || Agrees(Eventually(s.broker, s.line), t, Find(s.mirror, t).value)
  }

  lemma EventuallyAppended(broker: map<Topic, Payload>, line: seq<Entry>, e: Entry)
    ensures Eventually(broker, line + [e]) == Retain(Eventually(broker, line), e)
  {
    assert (line + [e])[..|line|] == line;
  }

  lemma ConvergingKept(s: State, e: Event)
    requires Calm(e) && Converging(s)
    ensures Converging(Step(s, e))
  {
    var s' := Step(s, e);
    match e {
      case Publish(topic, message, _) =>
        EventuallyAppended(s.broker, s.line, Entry(topic, message));
        forall t: Topic
          ensures Find(s'.mirror, t) == if t == topic then Some(message) else Find(s.mirror, t)
        {
          FindMirrored(s.mirror, Entry(topic, message), t);
        }
      case BeginReplay =>
        forall t: Topic
          ensures Find(s.mirror, t).Some? <==> t in Topics(s.mirror)
        {
          FindListed(s.mirror, t);
        }
      case ReplayNext(_) =>
        if s.replay.value != [] {
          var topic := s.replay.value[0];
          EventuallyAppended(s.broker, s.line, Entry(topic, Find(s.mirror, topic).value));
        }
      case Deliver =>
        if s.line != [] {
          DeliveryChangesNothing(s.broker, s.line);
        }
    }
  }

  lemma ReplayBegins(s: State)
    requires s.connected
    ensures Converging(Step(s, BeginReplay))
  {
    forall t: Topic
      ensures Find(s.mirror, t).Some? <==> t in Topics(s.mirror)
    {
      FindListed(s.mirror, t);
    }
  }

  lemma {:induction false} CalmRun(s: State, events: seq<Event>)
    requires s.connected && s.replay.None? && forall e :: e in events ==> Calm(e)
    ensures var t := Run(s, events); t.connected && (t.replay.Some? ==> Converging(t))
  {
    if events != [] {
      var front, e := events[..|events| - 1], events[|events| - 1];
      assert e in events;
      CalmRun(s, front);
      var t := Run(s, front);
      if t.replay.Some? {
        ConvergingKept(t, e);
      } else if e.BeginReplay? {
        ReplayBegins(t);
      }
    }
  }

  /** A session that stays up through its replay brings the broker to what the mirror holds. */
  lemma MirrorConverges(before: State, events: seq<Event>)
    requires before.replay.None? && forall e :: e in events ==> Calm(e)
    requires Run(Step(before, Restored), events).replay == Some([])
    ensures var s := Run(Step(before, Restored), events);
            && (forall t: Topic :: Find(s.mirror, t).Some?
                 ==> Agrees(Eventually(s.broker, s.line), t, Find(s.mirror, t).value))
            && (s.line == [] ==> Eventually(s.broker, s.line) == s.broker)
  {
    CalmRun(Step(before, Restored), events);
  }

  // --- The mirror over a history of publishes ---

  function MirrorOf(h: seq<Entry>): seq<Entry>
  {
    if h == [] then [] else Mirrored(MirrorOf(h[..|h| - 1]), h[|h| - 1])
  }

  /** The last message published for `topic`. */
  function LastMessage(h: seq<Entry>, topic: Topic): Option<Message>
  {
    if h == [] then None
    else var e := h[|h| - 1]; if e.topic == topic then Some(e.message) else LastMessage(h[..|h| - 1], topic)
  }

  /** When `topic` last came to life: the last publish that gave it a payload while it had none. */
  function LastAppearance(h: seq<Entry>, topic: Topic): int
  {
    if h == [] then -1
    else
      var front, e := h[..|h| - 1], h[|h| - 1];
      if e.topic == topic && e.message.payload.Some? && !Alive(LastMessage(front, topic)) then |h| - 1
      else LastAppearance(front, topic)
  }

  lemma {:induction false} AppearedBefore(h: seq<Entry>, topic: Topic)
    ensures LastAppearance(h, topic) < |h|
  {
    if h != [] {
      AppearedBefore(h[..|h| - 1], topic);
    }
  }

  /** Whatever was published, cleared and published again, the mirror holds the last message of
      each topic. */
  lemma {:induction false} MirrorHoldsLast(h: seq<Entry>, topic: Topic)
    ensures Find(MirrorOf(h), topic) == LastMessage(h, topic)
  {
    if h != [] {
      MirrorHoldsLast(h[..|h| - 1], topic);
      FindMirrored(MirrorOf(h[..|h| - 1]), h[|h| - 1], topic);
    }
  }

  /** The live entries stand in the order in which their topics last appeared. */
  ghost predicate InOrder(h: seq<Entry>, m: seq<Entry>)
  {
    forall i, j :: 0 <= i < j < |m| && m[i].message.payload.Some? && m[j].message.payload.Some?
      ==> LastAppearance(h, m[i].topic) < LastAppearance(h, m[j].topic)
  }

  /** The same, entry by entry, of a list in which no topic occurs twice. */
  ghost predicate Chain(h: seq<Entry>, m: seq<Entry>)
  {
    m == [] ||
    (&& Find(m[1..], m[0].topic).None?
     && (m[0].message.payload.Some? ==> Below(h, m[0].topic, m[1..]))
     && Chain(h, m[1..]))
  }

  ghost predicate Below(h: seq<Entry>, topic: Topic, m: seq<Entry>)
  {
    forall x :: x in m && x.message.payload.Some? ==> LastAppearance(h, topic) < LastAppearance(h, x.topic)
  }

  lemma {:induction false} ChainInOrder(h: seq<Entry>, m: seq<Entry>)
    requires Chain(h, m)
    ensures InOrder(h, m)
  {
    if m != [] {
      ChainInOrder(h, m[1..]);
      forall i, j | 0 <= i < j < |m| && m[i].message.payload.Some? && m[j].message.payload.Some?
        ensures LastAppearance(h, m[i].topic) < LastAppearance(h, m[j].topic)
      {
        assert m[j] == m[1..][j - 1];
        assert i > 0 ==> m[i] == m[1..][i - 1];
      }
    }
  }

  lemma {:induction false} WithoutHolds(m: seq<Entry>, topic: Topic)
    ensures forall x :: x in Without(m, topic) ==> x in m && x.topic != topic
  {
    if m != [] {
      WithoutHolds(m[1..], topic);
    }
  }

  lemma {:induction false} ChainWithout(h: seq<Entry>, m: seq<Entry>, topic: Topic)
    requires Chain(h, m)
    ensures Chain(h, Without(m, topic))
  {
    if m != [] {
      ChainWithout(h, m[1..], topic);
      if m[0].topic != topic {
        WithoutHolds(m[1..], topic);
        FindWithout(m[1..], topic, m[0].topic);
        assert Without(m, topic)[1..] == Without(m[1..], topic);
      }
    }
  }

  lemma {:induction false} FindAppended(m: seq<Entry>, e: Entry, topic: Topic)
    ensures Find(m + [e], topic) ==
      if Find(m, topic).Some? then Find(m, topic) else if e.topic == topic then Some(e.message) else None
  {
    if m == [] {
      assert m + [e] == [e];
    } else {
      assert (m + [e])[1..] == m[1..] + [e];
      FindAppended(m[1..], e, topic);
    }
  }

  lemma {:induction false} ChainAppend(h: seq<Entry>, m: seq<Entry>, e: Entry)
    requires Chain(h, m) && Find(m, e.topic).None?
    requires e.message.payload.Some? ==>
      forall x :: x in m && x.message.payload.Some? ==> LastAppearance(h, x.topic) < LastAppearance(h, e.topic)
    ensures Chain(h, m + [e])
  {
    if m == [] {
      assert (m + [e])[1..] == [];
    } else {
      assert (m + [e])[1..] == m[1..] + [e];
      ChainAppend(h, m[1..], e);
      FindAppended(m[1..], e, m[0].topic);
    }
  }

  lemma {:induction false} FindIsIn(m: seq<Entry>, topic: Topic)
    ensures Find(m, topic).Some? ==> Entry(topic, Find(m, topic).value) in m
  {
    if m != [] && m[0].topic != topic {
      FindIsIn(m[1..], topic);
    }
  }

  lemma {:induction false} AssignHolds(m: seq<Entry>, e: Entry)
    ensures forall x :: x in Assign(m, e) ==> x in m || x == e
  {
    if m != [] && m[0].topic != e.topic {
      AssignHolds(m[1..], e);
    }
  }

  lemma {:induction false} ChainAssign(h: seq<Entry>, m: seq<Entry>, e: Entry)
    requires Chain(h, m) && (e.message.payload.Some? ==> Alive(Find(m, e.topic)))
    ensures Chain(h, Assign(m, e))
  {
    if m == [] {
      assert Assign(m, e)[1..] == [];
    } else if m[0].topic == e.topic {
      assert Assign(m, e)[1..] == m[1..];
    } else {
      ChainAssign(h, m[1..], e);
      assert Assign(m, e)[1..] == Assign(m[1..], e);
      FindAssigned(m[1..], e, m[0].topic);
      AssignHolds(m[1..], e);
      FindIsIn(m[1..], e.topic);
    }
  }

  /** A later publish that is not an appearance does not change when topics appeared. */
  lemma {:induction false} ChainLater(h: seq<Entry>, h': seq<Entry>, m: seq<Entry>)
    requires Chain(h, m)
    requires forall x :: x in m ==> LastAppearance(h', x.topic) == LastAppearance(h, x.topic)
    ensures Chain(h', m)
  {
    if m != [] {
      ChainLater(h, h', m[1..]);
    }
  }

  /** A topic that comes to life again leaves its place and goes to the end. */
  lemma Reappears(h: seq<Entry>, m: seq<Entry>, e: Entry)
    requires Chain(h, m) && e.message.payload.Some? && !Alive(LastMessage(h, e.topic))
    ensures Chain(h + [e], Without(m, e.topic) + [e])
  {
    var h', w := h + [e], Without(m, e.topic);
    assert h'[..|h|] == h;
    ChainWithout(h, m, e.topic);
    WithoutIsGone(m, e.topic);
    WithoutHolds(m, e.topic);
    forall x | x in w
      ensures LastAppearance(h', x.topic) == LastAppearance(h, x.topic) < |h|
    {
      AppearedBefore(h, x.topic);
    }
    ChainLater(h, h', w);
    ChainAppend(h', w, e);
  }

  /** Any other publish leaves every topic in its place. */
  lemma StaysInPlace(h: seq<Entry>, m: seq<Entry>, e: Entry)
    requires Chain(h, m) && Find(m, e.topic) == LastMessage(h, e.topic)
    requires e.message.payload.None? || Alive(Find(m, e.topic))
    ensures Chain(h + [e], Assign(m, e))
  {
    var h' := h + [e];
    assert h'[..|h|] == h;
    ChainLater(h, h', m);
    ChainAssign(h', m, e);
  }

  /** Over every history: a replay sends the topics that have a payload in the order in which they
      last appeared. */
  lemma {:induction false} ReplayOrder(h: seq<Entry>)
    ensures Chain(h, MirrorOf(h)) && InOrder(h, MirrorOf(h))
  {
    if h != [] {
      var front, e := h[..|h| - 1], h[|h| - 1];
      assert h == front + [e];
      ReplayOrder(front);
      MirrorHoldsLast(front, e.topic);
      if e.message.payload.Some? && !Alive(Find(MirrorOf(front), e.topic)) {
        Reappears(front, MirrorOf(front), e);
      } else {
        StaysInPlace(front, MirrorOf(front), e);
      }
      ChainInOrder(h, MirrorOf(h));
    }
  }

  // --- The runs of the dispatcher ---

  /** What a run publishes. */
  function Publishes(events: seq<Event>): seq<Entry>
  {
    if events == [] then []
    else
      var e := events[|events| - 1];
      Publishes(events[..|events| - 1]) + (if e.Publish? then [Entry(e.topic, e.message)] else [])
  }

  lemma {:induction false} RunConcat(s: State, a: seq<Event>, b: seq<Event>)
    ensures Run(s, a + b) == Run(Run(s, a), b)
    ensures Publishes(a + b) == Publishes(a) + Publishes(b)
    decreases |b|
  {
    if b == [] {
      assert a + b == a;
    } else {
      assert (a + b)[..|a + b| - 1] == a + b[..|b| - 1];
      RunConcat(s, a, b[..|b| - 1]);
    }
  }

  /** The mirror of a run is that of its publishes, whatever the link and the replays did. */
  lemma {:induction false} MirrorOfRun(broker: map<Topic, Payload>, events: seq<Event>)
    ensures Run(Start(broker), events).mirror == MirrorOf(Publishes(events))
  {
    if events != [] {
      var front, e := events[..|events| - 1], events[|events| - 1];
      MirrorOfRun(broker, front);
      var h := Publishes(front);
      if e.Publish? {
        assert (h + [Entry(e.topic, e.message)])[..|h|] == h;
      } else {
        assert h + [] == h;
      }
    }
  }

  lemma RunSession(s: State, history: seq<Event>, event: Event, events: seq<Event>)
    ensures Run(s, history + [event] + events) == Run(Step(Run(s, history), event), events)
    ensures Publishes(history + [event]) ==
            Publishes(history) + (if event.Publish? then [Entry(event.topic, event.message)] else [])
  {
    assert (history + [event])[..|history|] == history;
    RunConcat(s, history + [event], events);
  }

  /**
   Whatever happened before - outages, clears made during them, replays cut short, a broker that
   came back with anything - a session that stays up through its replay brings the broker to the
   last message published for every retained topic, before or during the session.
   */
  lemma BrokerHoldsLast(broker: map<Topic, Payload>, history: seq<Event>, events: seq<Event>)
    requires Run(Start(broker), history).replay.None? && forall e :: e in events ==> Calm(e)
    requires Run(Start(broker), history + [Restored] + events).replay == Some([])
    ensures var all := history + [Restored] + events;
            var s := Run(Start(broker), all);
            forall t: Topic :: LastMessage(Publishes(all), t).Some?
              ==> Agrees(Eventually(s.broker, s.line), t, LastMessage(Publishes(all), t).value)
  {
    var all := history + [Restored] + events;
    var s := Run(Start(broker), all);
    RunSession(Start(broker), history, Restored, events);
    MirrorConverges(Run(Start(broker), history), events);
    MirrorOfRun(broker, all);
    forall t: Topic
      ensures Find(s.mirror, t) == LastMessage(Publishes(all), t)
    {
      MirrorHoldsLast(Publishes(all), t);
    }
  }

  /** While the link is down nothing is on its way to the broker. */
  lemma {:induction false} NothingSentWhileDown(broker: map<Topic, Payload>, events: seq<Event>)
    ensures var s := Run(Start(broker), events); !s.connected ==> s.line == []
  {
    if events != [] {
      NothingSentWhileDown(broker, events[..|events| - 1]);
    }
  }

  /** What one event of a run sends for the replay. */
  function Sends(t: State, e: Event): seq<Entry>
  {
    if e.ReplayNext? && t.replay.Some? && t.replay.value != [] && t.connected && e.sent
       && Find(t.mirror, t.replay.value[0]).Some?
    then [Entry(t.replay.value[0], Find(t.mirror, t.replay.value[0]).value)]
    else []
  }

  /** What the replays of a run send, in order. */
  function Replayed(s: State, events: seq<Event>): seq<Entry>
  {
    if events == [] then []
    else
      var front := events[..|events| - 1];
      Replayed(s, front) + Sends(Run(s, front), events[|events| - 1])
  }

  lemma ReplayTakesNext(t: State, e: Event, sent: seq<Entry>, topics: seq<Topic>)
    requires !e.BeginReplay? && Topics(sent) <= topics
    requires t.replay.Some? ==> Topics(sent) + t.replay.value == topics
    ensures Topics(sent + Sends(t, e)) <= topics
    ensures Step(t, e).replay.Some? ==> Topics(sent + Sends(t, e)) + Step(t, e).replay.value == topics
  {
    if Sends(t, e) == [] {
      assert sent + Sends(t, e) == sent;
    } else {
      var topic, rest := t.replay.value[0], t.replay.value[1..];
      assert Topics(sent + Sends(t, e)) == Topics(sent) + [topic];
      assert t.replay.value == [topic] + rest;
      assert Topics(sent) + [topic] + rest == topics;
    }
  }

  /** A replay sends the topics of the mirror it began with, in their order, as far as it comes. */
  lemma {:induction false} ReplayTakesTopics(s: State, events: seq<Event>)
    requires forall e :: e in events ==> !e.BeginReplay?
    ensures var t := Step(s, BeginReplay);
            var sent := Topics(Replayed(t, events));
            && sent <= Topics(s.mirror)
            && (Run(t, events).replay.Some? ==> sent + Run(t, events).replay.value == Topics(s.mirror))
  {
    if events != [] {
      var front, e := events[..|events| - 1], events[|events| - 1];
      assert e in events;
      ReplayTakesTopics(s, front);
      var t := Step(s, BeginReplay);
      ReplayTakesNext(Run(t, front), e, Replayed(t, front), Topics(s.mirror));
    }
  }

  /** A replay does not outlive its session: after the link is lost none goes on, whether or not it is back,
      and nothing is sent for one until another begins. */
  lemma {:induction false} ReplayEndsWithSession(s: State, broker: map<Topic, Payload>, events: seq<Event>)
    requires forall e :: e in events ==> !e.BeginReplay?
    ensures var t := Step(s, Lost(broker)); Run(t, events).replay.None? && Replayed(t, events) == []
  {
    if events != [] {
      var last := events[|events| - 1];
      assert last in events;
      ReplayEndsWithSession(s, broker, events[..|events| - 1]);
    }
  }

  /** The event at `n` is the one with which a replay sends its entry number `k`. */
  ghost predicate SentAt(s: State, events: seq<Event>, k: nat, n: nat)
  {
    && n < |events| && events[n].ReplayNext?
    && |Replayed(s, events[..n])| == k && |Replayed(s, events[..n + 1])| == k + 1
  }

  lemma {:induction false} SendingEvent(s: State, events: seq<Event>, k: nat) returns (n: nat)
    requires k < |Replayed(s, events)|
    ensures SentAt(s, events, k, n)
    ensures Sends(Run(s, events[..n]), events[n]) == [Replayed(s, events)[k]]
  {
    var front, last := events[..|events| - 1], events[|events| - 1];
    if k < |Replayed(s, front)| {
      n := SendingEvent(s, front, k);
      assert front[..n] == events[..n] && front[..n + 1] == events[..n + 1];
    } else {
      n := |events| - 1;
      assert events[..n] == front && events[..n + 1] == events;
    }
  }

  /** What a replay sends is the last message published for the topic at the moment of sending. */
  lemma ReplaySendsLast(broker: map<Topic, Payload>, history: seq<Event>, events: seq<Event>, k: nat)
    requires k < |Replayed(Run(Start(broker), history), events)|
    ensures var s := Run(Start(broker), history);
            var x := Replayed(s, events)[k];
            exists n: nat :: SentAt(s, events, k, n)
                             && LastMessage(Publishes(history + events[..n]), x.topic) == Some(x.message)
  {
    var s := Run(Start(broker), history);
    var n := SendingEvent(s, events, k);
    RunConcat(Start(broker), history, events[..n]);
    MirrorOfRun(broker, history + events[..n]);
    MirrorHoldsLast(Publishes(history + events[..n]), Replayed(s, events)[k].topic);
  }

  /** In every run a replay sends each topic once at most, and those that had a payload when it began
      in the order in which they had last appeared; all of them if it comes to its end. */
  lemma ReplaySendsInOrder(broker: map<Topic, Payload>, history: seq<Event>, events: seq<Event>)
    requires forall e :: e in events ==> !e.BeginReplay?
    ensures var h := Publishes(history);
            var s := Step(Run(Start(broker), history), BeginReplay);
            var sent := Replayed(s, events);
            && (forall i, j :: 0 <= i < j < |sent| ==> sent[i].topic != sent[j].topic)
            && (forall i, j :: 0 <= i < j < |sent|
                 && Alive(LastMessage(h, sent[i].topic)) && Alive(LastMessage(h, sent[j].topic))
                 ==> LastAppearance(h, sent[i].topic) < LastAppearance(h, sent[j].topic))
            && (Run(s, events).replay == Some([]) ==>
                  forall t: Topic :: LastMessage(h, t).Some? ==> t in Topics(sent))
  {
    var h, before := Publishes(history), Run(Start(broker), history);
    var sent := Replayed(Step(before, BeginReplay), events);
    var m := MirrorOf(h);
    MirrorOfRun(broker, history);
    ReplayOrder(h);
    ReplayTakesTopics(before, events);
    forall i | 0 <= i < |sent|
      ensures sent[i].topic == m[i].topic && LastMessage(h, sent[i].topic) == Some(m[i].message)
    {
      assert Topics(sent)[i] == Topics(m)[i];
      MirrorHoldsLast(h, m[i].topic);
      ChainFinds(h, m, i);
    }
    forall i, j | 0 <= i < j < |sent|
      ensures sent[i].topic != sent[j].topic
    {
      ChainFinds(h, m, i);
      ChainOnce(h, m, i, j);
    }
    forall t: Topic
      ensures LastMessage(h, t).Some? <==> t in Topics(m)
    {
      MirrorHoldsLast(h, t);
      FindListed(m, t);
    }
  }

  lemma {:induction false} ChainFinds(h: seq<Entry>, m: seq<Entry>, i: nat)
    requires Chain(h, m) && i < |m|
    ensures Find(m, m[i].topic) == Some(m[i].message)
  {
    if i > 0 {
      ChainFinds(h, m[1..], i - 1);
    }
  }

  lemma {:induction false} ChainOnce(h: seq<Entry>, m: seq<Entry>, i: nat, j: nat)
    requires Chain(h, m) && i < j < |m|
    ensures m[i].topic != m[j].topic
  {
    if i > 0 {
      ChainOnce(h, m[1..], i - 1, j - 1);
    } else {
      ChainFinds(h, m[1..], j - 1);
    }
  }
}
