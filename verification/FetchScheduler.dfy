/** The background read of settings (`SettingsFetchScheduler`) and the scenes it reads in chunks
    (`ScenesParam`). */
module FetchScheduler {
  import opened Prelude

  /** A parameter of a device, with the number of chunks it still has to read. */
  datatype Entry = Entry(device: nat, param: nat, chunks: nat)

  predicate SameParam(a: Entry, b: Entry)
  {
    a.device == b.device && a.param == b.param
  }

  datatype State = State(entries: seq<Entry>, cursor: nat)

  /** The position that the next step fetches. */
  function Index(s: State): nat
    requires s.entries != []
  {
    s.cursor % |s.entries|
  }

  /** One step; a fetch that fails, or finds that the gear lacks the setting, leaves the set like one
      that completes. */
  function Step(s: State, fails: bool): State
  {
    if s.entries == [] then State([], 0)
    else
      var i := Index(s);
      var e := s.entries[i];
      if fails || e.chunks <= 1 then State(s.entries[..i] + s.entries[i + 1..], i)
      else State(s.entries[i := e.(chunks := e.chunks - 1)], i + 1)
  }

  /** What is left of a step once the fetch at position `i` is awaited, by which time the entries may be
      others; none if there is no such position any more. */
  function EndStep(entries: seq<Entry>, i: nat, done: bool): Option<State>
  {
    if !done then Some(State(entries, i + 1))
    else if i < |entries| then Some(State(entries[..i] + entries[i + 1..], i))
    else None
  }

  /** One step for each element of `fails`, which says whether that step's fetch fails. */
  function Run(s: State, fails: seq<bool>): State
    decreases |fails|
  {
    if fails == [] then s else Run(Step(s, fails[0]), fails[1..])
  }

  function WithoutDevice(entries: seq<Entry>, device: nat): seq<Entry>
  {
    if entries == [] then []
    else if entries[0].device == device then WithoutDevice(entries[1..], device)
    else [entries[0]] + WithoutDevice(entries[1..], device)
  }

  class SettingsFetchScheduler {
    var entries: seq<Entry>
    var cursor: nat

    function Abs(): State
      reads this
    {
      State(entries, cursor)
    }

    constructor ()
      ensures Abs() == State([], 0)
    {
      entries, cursor := [], 0;
    }

    method RemoveDevice(device: nat)
      modifies this`entries
      ensures entries == WithoutDevice(old(entries), device)
    {
      entries := WithoutDevice(entries, device);
    }

    method AddDevice(device: nat, params: seq<Entry>)
      requires forall e :: e in params ==> e.device == device
      modifies this`entries
      ensures entries == WithoutDevice(old(entries), device) + params
    {
      RemoveDevice(device);
      entries := entries + params;
    }

    /** At most one fetch; returns the entry it was for. */
    method FetchStep(fails: bool) returns (fetched: Option<Entry>)
      modifies this
      ensures Abs() == Step(old(Abs()), fails)
      ensures fetched == if old(entries) == [] then None else Some(old(entries[Index(Abs())]))
      ensures old(entries) == [] ==> cursor == 0
    {
      if entries == [] {
        cursor := 0;
        return None;
      }
      var i := cursor % |entries|;
      var entry := entries[i];
      var done := fails || entry.chunks <= 1;
      if !done {
        entries := entries[i := entry.(chunks := entry.chunks - 1)];
      }
      var ended := EndFetch(i, done);
      return Some(entry);
    }

    /** The part of a step that follows the fetch: an index error, or the entry there leaves the set if
        it is done. */
    method EndFetch(i: nat, done: bool) returns (ended: bool)
      modifies this
      ensures ended <==> EndStep(old(entries), i, done).Some?
      ensures Abs() == if ended then EndStep(old(entries), i, done).value else old(Abs())
    {
      if !done {
        cursor := i + 1;
        return true;
      }
      if i >= |entries| {
        return false;
      }
      entries := entries[..i] + entries[i + 1..];
      cursor := i;
      return true;
    }
  }

  // --- Fairness ---

  ghost predicate Distinct(entries: seq<Entry>)
  {
    forall i, j :: 0 <= i < j < |entries| ==> !SameParam(entries[i], entries[j])
  }

  /** How many steps from now position `j` is fetched. */
  function Distance(s: State, j: nat): (d: nat)
    requires j < |s.entries|
    ensures d < |s.entries|
  {
    if j >= Index(s) then j - Index(s) else j + |s.entries| - Index(s)
  }

  lemma IndexAfter(n: nat, i: nat)
    requires n > 0 && i <= n
    ensures i % n == if i == n then 0 else i
  {
  }

  /** Until its turn comes an entry moves one step closer at every step, whatever happens to the
      others. */
  lemma StepMovesCloser(s: State, j: nat, fails: bool) returns (k: nat)
    requires j < |s.entries| && Distance(s, j) > 0
    ensures k < |Step(s, fails).entries| && Step(s, fails).entries[k] == s.entries[j]
    ensures Distance(Step(s, fails), k) == Distance(s, j) - 1
  {
    var i, t := Index(s), Step(s, fails);
    if |t.entries| < |s.entries| {
      k := if j > i then j - 1 else j;
    } else {
      k := j;
    }
    IndexAfter(|t.entries|, t.cursor);
  }

  /** Without changes of membership every entry is fetched within one cycle length, after exactly
      its distance, whichever fetches of the others fail on the way. */
  lemma {:induction false} EveryEntryIsReached(s: State, j: nat, fails: seq<bool>) returns (k: nat)
    requires j < |s.entries| && |fails| == Distance(s, j)
    ensures var t := Run(s, fails);
            k < |t.entries| && t.entries[k] == s.entries[j] && Index(t) == k
    decreases |fails|
  {
    if fails == [] {
      k := j;
    } else {
      k := StepMovesCloser(s, j, fails[0]);
      k := EveryEntryIsReached(Step(s, fails[0]), k, fails[1..]);
    }
  }

  // --- Order and termination ---

  ghost predicate HasChunks(entries: seq<Entry>)
  {
    forall e :: e in entries ==> e.chunks > 0
  }

  function Sum(entries: seq<Entry>): nat
  {
    if entries == [] then 0 else Sum(entries[..|entries| - 1]) + entries[|entries| - 1].chunks
  }

  lemma {:induction false} SumConcat(a: seq<Entry>, b: seq<Entry>)
    ensures Sum(a + b) == Sum(a) + Sum(b)
    decreases |b|
  {
    if b == [] {
      assert a + b == a;
    } else {
      assert (a + b)[..|a + b| - 1] == a + b[..|b| - 1];
      SumConcat(a, b[..|b| - 1]);
    }
  }

  lemma SumAround(a: seq<Entry>, e: Entry, b: seq<Entry>)
    ensures Sum(a + [e] + b) == Sum(a) + e.chunks + Sum(b)
  {
    SumConcat(a + [e], b);
    assert (a + [e])[..|a|] == a;
  }

  lemma StepSumAt(entries: seq<Entry>, i: nat, e': Entry)
    requires i < |entries|
    ensures Sum(entries[i := e']) == Sum(entries) - entries[i].chunks + e'.chunks
    ensures Sum(entries[..i] + entries[i + 1..]) == Sum(entries) - entries[i].chunks
  {
    var a, e, b := entries[..i], entries[i], entries[i + 1..];
    assert entries == a + [e] + b && entries[i := e'] == a + [e'] + b;
    SumAround(a, e, b);
    SumAround(a, e', b);
    SumConcat(a, b);
  }

  /** A step reads one chunk, or gives up all that its entry still had. */
  lemma StepSum(s: State, fails: bool)
    requires s.entries != [] && HasChunks(s.entries)
    ensures HasChunks(Step(s, fails).entries)
    ensures Sum(Step(s, fails).entries) == Sum(s.entries) - if fails then s.entries[Index(s)].chunks else 1
  {
    var i := Index(s);
    var e := s.entries[i];
    assert e in s.entries;
    StepSumAt(s.entries, i, if e.chunks > 0 then e.(chunks := e.chunks - 1) else e);
  }

  /** The chunks that the failing steps of a run leave unread. */
  function Unread(s: State, fails: seq<bool>): nat
    decreases |fails|
  {
    if fails == [] || s.entries == [] then 0
    else
      (if fails[0] && s.entries[Index(s)].chunks > 0 then s.entries[Index(s)].chunks - 1 else 0)
      + Unread(Step(s, fails[0]), fails[1..])
  }

  lemma {:induction false} NoFailureReadsAll(s: State, fails: seq<bool>)
    requires forall i :: 0 <= i < |fails| ==> !fails[i]
    ensures Unread(s, fails) == 0
    decreases |fails|
  {
    if fails != [] {
      NoFailureReadsAll(Step(s, fails[0]), fails[1..]);
    }
  }

  /** The fetch is over after exactly as many steps as there are chunks, less those that failing
      fetches leave unread: never more, and as many if none fails. */
  lemma {:induction false} StepsAreChunks(s: State, fails: seq<bool>)
    requires HasChunks(s.entries)
    ensures Run(s, fails).entries == [] <==> |fails| + Unread(s, fails) >= Sum(s.entries)
    decreases |fails|
  {
    if s.entries == [] {
      EmptyStays(s, fails);
    } else {
      var last := s.entries[|s.entries| - 1];
      assert last in s.entries;
      if fails != [] {
        StepSum(s, fails[0]);
        assert s.entries[Index(s)] in s.entries;
        StepsAreChunks(Step(s, fails[0]), fails[1..]);
      }
    }
  }

  lemma {:induction false} EmptyStays(s: State, fails: seq<bool>)
    requires s.entries == []
    ensures Run(s, fails).entries == []
    decreases |fails|
  {
    if fails != [] {
      EmptyStays(Step(s, fails[0]), fails[1..]);
    }
  }

  /** The entries of `later` are those of `earlier` without some, in the same order. */
  predicate KeepsOrder(later: seq<Entry>, earlier: seq<Entry>)
  {
    if later == [] then true
    else if earlier == [] then false
    else if SameParam(later[0], earlier[0]) then KeepsOrder(later[1..], earlier[1..])
    else KeepsOrder(later, earlier[1..])
  }

  lemma {:induction false} OrderReflexive(a: seq<Entry>, b: seq<Entry>)
    requires |a| == |b| && forall i :: 0 <= i < |a| ==> SameParam(a[i], b[i])
    ensures KeepsOrder(a, b)
  {
    if a != [] {
      OrderReflexive(a[1..], b[1..]);
    }
  }

  lemma {:induction false} DeletionKeepsOrder(entries: seq<Entry>, i: nat)
    requires i < |entries| && Distinct(entries)
    ensures KeepsOrder(entries[..i] + entries[i + 1..], entries)
  {
    if i == 0 {
      assert entries[..0] + entries[1..] == entries[1..];
      OrderReflexive(entries[1..], entries[1..]);
      if |entries| > 1 {
        assert !SameParam(entries[0], entries[1]);
      }
    } else {
      var later := entries[..i] + entries[i + 1..];
      assert later[1..] == entries[1..][..i - 1] + entries[1..][i..];
      DeletionKeepsOrder(entries[1..], i - 1);
    }
  }

  /** A step keeps the entries in order, deletion included. */
  lemma StepKeepsOrder(s: State, fails: bool)
    requires Distinct(s.entries)
    ensures KeepsOrder(Step(s, fails).entries, s.entries) && Distinct(Step(s, fails).entries)
  {
    if s.entries != [] {
      DeletionKeepsOrder(s.entries, Index(s));
      if |Step(s, fails).entries| == |s.entries| {
        OrderReflexive(Step(s, fails).entries, s.entries);
      }
    }
  }

  lemma {:induction false} OrderComposes(a: seq<Entry>, b: seq<Entry>, c: seq<Entry>)
    requires KeepsOrder(a, b) && KeepsOrder(b, c)
    ensures KeepsOrder(a, c)
    decreases |b| + |c|
  {
    if a != [] && b != [] && c != [] {
      if SameParam(b[0], c[0]) {
        OrderComposes(if SameParam(a[0], b[0]) then a[1..] else a, b[1..], c[1..]);
        if SameParam(a[0], c[0]) && !SameParam(a[0], b[0]) {
          assert false;
        }
      } else {
        OrderComposes(a, b, c[1..]);
        if SameParam(a[0], c[0]) {
          OrderDropsHead(a, c[1..]);
        }
      }
    }
  }

  lemma {:induction false} OrderDropsHead(a: seq<Entry>, b: seq<Entry>)
    requires a != [] && KeepsOrder(a, b)
    ensures KeepsOrder(a[1..], b)
    decreases |b|
  {
    if b != [] {
      if SameParam(a[0], b[0]) {
        if a[1..] != [] {
          if SameParam(a[1], b[0]) {
            OrderDropsHead(a[1..], b[1..]);
          }
        }
      } else {
        OrderDropsHead(a, b[1..]);
        if a[1..] != [] && SameParam(a[1], b[0]) {
          OrderDropsHead(a[1..], b[1..]);
        }
      }
    }
  }

  /** Over a whole run, whichever fetches fail, the entries that are left stand in their order. */
  lemma {:induction false} RunKeepsOrder(s: State, fails: seq<bool>)
    requires Distinct(s.entries)
    ensures KeepsOrder(Run(s, fails).entries, s.entries) && Distinct(Run(s, fails).entries)
    decreases |fails|
  {
    if fails == [] {
      OrderReflexive(s.entries, s.entries);
    } else {
      StepKeepsOrder(s, fails[0]);
      RunKeepsOrder(Step(s, fails[0]), fails[1..]);
      OrderComposes(Run(s, fails).entries, Step(s, fails[0]).entries, s.entries);
    }
  }

  // --- Removal of a device ---

  lemma {:induction false} WithoutConcat(a: seq<Entry>, b: seq<Entry>, device: nat)
    ensures WithoutDevice(a + b, device) == WithoutDevice(a, device) + WithoutDevice(b, device)
    decreases |a|
  {
    if a == [] {
      assert a + b == b;
    } else {
      assert (a + b)[1..] == a[1..] + b;
      WithoutConcat(a[1..], b, device);
    }
  }

  lemma {:induction false} WithoutKeepsOrder(entries: seq<Entry>, device: nat)
    ensures forall e :: e in WithoutDevice(entries, device) <==> e in entries && e.device != device
    ensures |WithoutDevice(entries, device)| <= |entries|
    ensures KeepsOrder(WithoutDevice(entries, device), entries)
    ensures Distinct(entries) ==> Distinct(WithoutDevice(entries, device))
  {
    if entries != [] {
      var rest := WithoutDevice(entries[1..], device);
      WithoutKeepsOrder(entries[1..], device);
      assert forall e :: e in entries <==> e == entries[0] || e in entries[1..];
      if entries[0].device == device && rest != [] {
        assert rest[0] in rest && rest[0].device != device;
      }
      if Distinct(entries) && entries[0].device != device {
        forall i | 0 <= i < |rest|
          ensures !SameParam(entries[0], rest[i])
        {
          assert rest[i] in entries[1..];
        }
      }
    }
  }

  /** How many entries of `device` stand before position `i`. */
  function RemovedBefore(entries: seq<Entry>, device: nat, i: nat): int
    requires i <= |entries|
  {
    i - |WithoutDevice(entries[..i], device)|
  }

  /** An entry that is not removed stands in the shorter list where it stood, less those removed. */
  lemma RemovedFits(entries: seq<Entry>, device: nat, i: nat)
    requires i < |entries| && entries[i].device != device
    ensures 0 <= RemovedBefore(entries, device, i) <= i
    ensures i - RemovedBefore(entries, device, i) < |WithoutDevice(entries, device)|
    ensures WithoutDevice(entries, device)[i - RemovedBefore(entries, device, i)] == entries[i]
  {
    var a, e, b := entries[..i], entries[i], entries[i + 1..];
    assert entries == a + ([e] + b) && ([e] + b)[1..] == b;
    WithoutConcat(a, [e] + b, device);
    WithoutKeepsOrder(a, device);
  }

  /** Removing a device does not move the cursor.  The entry whose turn it was keeps its turn exactly
      when the old cursor, in the shorter list, still comes to where that entry now stands. */
  lemma RemovalKeepsTurnExactlyWhen(s: State, device: nat)
    requires s.entries != [] && Distinct(s.entries) && s.entries[Index(s)].device != device
    ensures var t := State(WithoutDevice(s.entries, device), s.cursor);
            && t.entries != []
            && (t.entries[Index(t)] == s.entries[Index(s)]
                <==> s.cursor % |t.entries| == Index(s) - RemovedBefore(s.entries, device, Index(s)))
  {
    var t := State(WithoutDevice(s.entries, device), s.cursor);
    var k := Index(s) - RemovedBefore(s.entries, device, Index(s));
    RemovedFits(s.entries, device, Index(s));
    WithoutKeepsOrder(s.entries, device);
    assert Index(t) < k ==> !SameParam(t.entries[Index(t)], t.entries[k]);
    assert Index(t) > k ==> !SameParam(t.entries[k], t.entries[Index(t)]);
  }

  /** So the turn can be lost: of A, B, C with C next, removing A puts B next and C behind it. */
  lemma RemovalDelaysTheNext(a: Entry, b: Entry, c: Entry)
    requires a.device != b.device && a.device != c.device
    ensures var s := State([a, b, c], 2);
            var t := State(WithoutDevice(s.entries, a.device), s.cursor);
            t.entries == [b, c] && s.entries[Index(s)] == c && t.entries[Index(t)] == b
  {
    assert [a, b, c][1..] == [b, c] && [b, c][1..] == [c] && [c][1..] == [];
    assert WithoutDevice([c], a.device) == [c];
    assert WithoutDevice([b, c], a.device) == [b, c];
  }

  // --- Removal of a device while a fetch is awaited ---

  /** Exactly the entry `e` was taken out. */
  ghost predicate TookOut(earlier: seq<Entry>, e: Entry, later: seq<Entry>)
  {
    forall x :: x in later <==> x in earlier && !SameParam(x, e)
  }

  /** When nothing happens meanwhile, the entry that leaves is the one fetched. */
  lemma UndisturbedTakesOutFetched(s: State)
    requires s.entries != [] && Distinct(s.entries)
    ensures TookOut(s.entries, s.entries[Index(s)], EndStep(s.entries, Index(s), true).value.entries)
  {
    DeletionTakesOut(s.entries, Index(s), s.entries[Index(s)]);
  }

  /** Deleting position `i` takes out `e` exactly if `e` stands there. */
  lemma DeletionTakesOut(entries: seq<Entry>, i: nat, e: Entry)
    requires Distinct(entries) && i < |entries|
    ensures TookOut(entries, e, entries[..i] + entries[i + 1..]) <==> SameParam(entries[i], e)
  {
    var later := entries[..i] + entries[i + 1..];
    forall x
      ensures x in later <==> x in entries && !SameParam(x, entries[i])
    {
      if x in entries {
        var j :| 0 <= j < |entries| && entries[j] == x;
        assert j < i ==> later[j] == x;
        assert j > i ==> later[j - 1] == x;
      }
    }
    assert entries[i] in entries && entries[i] !in later;
    if SameParam(entries[i], e) {
      assert forall x :: SameParam(x, e) <==> SameParam(x, entries[i]);
    }
  }

  /** If a device is removed while a fetch that completes is awaited, the step takes out the entry that
      was fetched exactly if that belongs to another device, none of whose predecessors was removed. */
  lemma TakesOutFetchedExactlyWhen(s: State, device: nat)
    requires s.entries != [] && Distinct(s.entries)
    ensures var i, now := Index(s), WithoutDevice(s.entries, device);
            var ended := EndStep(now, i, true);
            (ended.Some? && TookOut(now, s.entries[i], ended.value.entries))
            <==> s.entries[i].device != device && RemovedBefore(s.entries, device, i) == 0
  {
    var i, now := Index(s), WithoutDevice(s.entries, device);
    var e := s.entries[i];
    WithoutKeepsOrder(s.entries, device);
    if i < |now| {
      DeletionTakesOut(now, i, e);
      assert now[i] in now;
    }
    if e.device != device {
      RemovedFits(s.entries, device, i);
      var k := i - RemovedBefore(s.entries, device, i);
      assert k < i < |now| ==> !SameParam(now[k], now[i]);
    }
  }

  /** So a step can take out an entry that was never fetched: A is fetched and its device removed
      meanwhile, and B leaves the set; if there is no B, the step fails. */
  lemma RemovalTakesOutAnother(a: Entry, b: Entry)
    requires a.device != b.device
    ensures EndStep(WithoutDevice([a, b], a.device), 0, true) == Some(State([], 0))
    ensures EndStep(WithoutDevice([a], a.device), 0, true) == None
  {
    assert [a, b][1..] == [b] && [b][1..] == [] && [a][1..] == [];
    assert WithoutDevice([b], a.device) == [b] && [b][..0] + [b][1..] == [];
  }

  // --- Scenes ---

  const SCENES_TOTAL: nat := 16
  const SCENES_FETCH_CHUNK: nat := 8
  const MASK: nat := 0xFF

  /** How a query of several scenes ends: answered, unanswered, or garbled beyond the retries. */
  datatype Heard = Answered | NoAnswer | Spoiled

  datatype Outcome = Complete | Partial | Raised

  /** `gear` are the levels the gear holds. */
  class ScenesParam {
    const gear: seq<nat>
    var scenes: seq<nat>
    var fetchCursor: nat
    var isAbsent: bool
    var everAnswered: bool

    /** What lies below the cursor was read, and only gear that never answered lacks the setting. */
    ghost predicate Valid()
      reads this
    {
      && |gear| == |scenes| == 16 && fetchCursor <= 16
      && (forall i :: 0 <= i < fetchCursor ==> scenes[i] == gear[i])
      && !(isAbsent && everAnswered) && (fetchCursor > 0 ==> everAnswered)
    }

    constructor (gear: seq<nat>)
      requires |gear| == SCENES_TOTAL
      ensures Valid() && this.gear == gear && fetchCursor == 0 && !isAbsent && !everAnswered
    {
      this.gear := gear;
      scenes := seq(SCENES_TOTAL, i => MASK);
      fetchCursor, isAbsent, everAnswered := 0, false, false;
    }

    /** Whether silence means that the gear lacks the setting: not if it ever answered. */
    method NoteAbsent() returns (absent: bool)
      requires Valid()
      modifies this`isAbsent
      ensures Valid()
      ensures absent == !everAnswered && isAbsent == (absent || old(isAbsent))
    {
      if everAnswered {
        return false;
      }
      isAbsent := true;
      return true;
    }

    method NoteAnswered()
      requires Valid()
      modifies this`isAbsent, this`everAnswered
      ensures Valid() && !isAbsent && everAnswered
    {
      isAbsent, everAnswered := false, true;
    }

    /** Reads the scenes `from..to`; nothing is stored unless all of them were answered. */
    method ReadScenes(from: nat, to: nat, heard: Heard)
      requires Valid() && from <= to <= SCENES_TOTAL
      modifies this`scenes
      ensures Valid()
      ensures scenes ==
              if heard == Answered then old(scenes)[..from] + gear[from..to] + old(scenes)[to..] else old(scenes)
    {
      if heard != Answered {
        return;
      }
      for i := from to to
        invariant Valid()
        invariant scenes == old(scenes)[..from] + gear[from..i] + old(scenes)[i..]
      {
        scenes := scenes[i := gear[i]];
      }
    }

    /** One chunk.  Silence completes the fetch if the gear never answered, and is an error if it did. */
    method Fetch(heard: Heard) returns (r: Outcome)
      requires Valid()
      modifies this
      ensures Valid()
      ensures fetchCursor == if heard != Answered then old(fetchCursor)
                             else if old(fetchCursor) + 8 < 16 then old(fetchCursor) + 8 else 16
      ensures r == if old(fetchCursor) >= SCENES_TOTAL then Complete
                   else if heard == NoAnswer && !old(everAnswered) then Complete
                   else if heard != Answered then Raised
                   else if fetchCursor >= SCENES_TOTAL then Complete else Partial
      ensures old(fetchCursor) < SCENES_TOTAL && heard == NoAnswer && !old(everAnswered) ==> isAbsent
      ensures old(fetchCursor) < SCENES_TOTAL && heard == Answered ==> everAnswered
    {
      if fetchCursor >= SCENES_TOTAL {
        return Complete;
      }
      var end := fetchCursor + SCENES_FETCH_CHUNK;
      if end > SCENES_TOTAL {
        end := SCENES_TOTAL;
      }
      ReadScenes(fetchCursor, end, heard);
      if heard == NoAnswer {
        var absent := NoteAbsent();
        return if absent then Complete else Raised;
      }
      if heard == Spoiled {
        return Raised;
      }
      NoteAnswered();
      fetchCursor := end;
      return if fetchCursor >= SCENES_TOTAL then Complete else Partial;
    }

    /** All scenes; nothing to show if the gear lacks the setting. */
    method Read(heard: Heard) returns (r: Result<seq<nat>, Heard>)
      requires Valid()
      modifies this
      ensures Valid()
      ensures fetchCursor == if heard == Answered then SCENES_TOTAL else old(fetchCursor)
      ensures r == if heard == Answered then Ok(gear)
                   else if heard == NoAnswer && !old(everAnswered) then Ok([])
                   else Err(heard)
      ensures heard == NoAnswer && !old(everAnswered) ==> isAbsent
    {
      ReadScenes(0, SCENES_TOTAL, heard);
      if heard == NoAnswer {
        var absent := NoteAbsent();
        return if absent then Ok([]) else Err(heard);
      }
      if heard == Spoiled {
        return Err(heard);
      }
      NoteAnswered();
      fetchCursor := SCENES_TOTAL;
      assert scenes == gear;
      return Ok(scenes);
    }

    /** A level is only reported for a scene that was read, and it is the gear's. */
    function SceneLevel(index: int): (level: Option<nat>)
      requires Valid()
      reads this
      ensures level.Some? ==> 0 <= index < fetchCursor && level.value == gear[index] && level.value != MASK
      ensures 0 <= index < fetchCursor && gear[index] != MASK ==> level.Some?
    {
      if index < 0 || index >= fetchCursor then None
      else if scenes[index] == MASK then None
      else Some(scenes[index])
    }
  }
}
