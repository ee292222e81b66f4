/** Reading a memory bank with resumption after garbled answers (`read_memory_bank`). */
module MemoryRead {
  import opened Prelude

  type Byte = b: nat | b < 0x100

  const LAST_LOCATION: nat := 0xFF
  const READ_ATTEMPTS: nat := 3

  /** Control gear with a memory bank; a location that is not implemented is not answered.  Reading
      a location moves DTR0 on, whatever becomes of the answer. */
  class Gear {
    const memory: nat -> Option<Byte>
    var dtr0: nat

    constructor (memory: nat -> Option<Byte>)
      ensures this.memory == memory
    {
      this.memory := memory;
      dtr0 := 0;
    }

    method SetDtr0(address: nat)
      modifies this
      ensures dtr0 == address
    {
      dtr0 := address;
    }

    method ReadMemoryLocation() returns (answer: Option<Byte>)
      requires dtr0 <= LAST_LOCATION
      modifies this
      ensures answer == memory(old(dtr0))
      ensures dtr0 == if old(dtr0) < LAST_LOCATION then old(dtr0) + 1 else old(dtr0)
    {
      answer := memory(dtr0);
      if dtr0 < LAST_LOCATION {
        dtr0 := dtr0 + 1;
      }
    }

    /** One batch of reads. */
    method ReadBatch(count: nat) returns (answers: seq<Option<Byte>>)
      requires dtr0 + count <= LAST_LOCATION + 1 && dtr0 <= LAST_LOCATION
      modifies this
      ensures answers == Contents(memory, old(dtr0), count)
    {
      answers := [];
      for k := 0 to count
        invariant answers == Contents(memory, old(dtr0), k)
        invariant dtr0 == if old(dtr0) + k <= LAST_LOCATION then old(dtr0) + k else LAST_LOCATION
      {
        var a := ReadMemoryLocation();
        answers := answers + [a];
      }
    }
  }

  /** The `count` locations from `address` on. */
  function Contents(memory: nat -> Option<Byte>, address: nat, count: nat): (c: seq<Option<Byte>>)
    ensures |c| == count && forall k :: 0 <= k < count ==> c[k] == memory(address + k)
  {
    seq(count, (k: nat) => memory(address + k))
  }

  /** What spoils the reading: whether setting DTR0 fails at an attempt, and whether the answer to
      the k-th read of an attempt arrives garbled. */
  datatype Faults = Faults(dtr0Fails: nat -> bool, garbled: (nat, nat) -> bool)

  datatype ReadError = NoDtr0(attempt: nat) | Stopped(location: nat)

  function Start(bank: nat): nat
  {
    if bank == 0 then 2 else 3
  }

  function Count(bank: nat, last: nat): nat
  {
    if last + 1 >= Start(bank) then last + 1 - Start(bank) else 0
  }

  /** The first garbled answer of an attempt that reads `count` locations, or `count`. */
  function CleanRun(faults: Faults, attempt: nat, count: nat): (n: nat)
    ensures n <= count
  {
    if count == 0 then 0
    else
      var n := CleanRun(faults, attempt, count - 1);
      if n < count - 1 || faults.garbled(attempt, count - 1) then n else count
  }

  /** The attempts from `attempt` on get through when `read` of `count` locations have been read:
      each starts where the one before stopped. */
  predicate Completes(faults: Faults, attempt: nat, attempts: nat, read: nat, count: nat)
    requires read <= count
    decreases attempts - attempt
  {
    || read == count
    || (&& attempt < attempts && !faults.dtr0Fails(attempt)
        && Completes(faults, attempt + 1, attempts, read + CleanRun(faults, attempt, count - read), count))
  }

  /** Takes over the answers up to the first garbled one. */
  method TakeClean(faults: Faults, attempt: nat, answers: seq<Option<Byte>>)
    returns (clean: seq<Option<Byte>>, stoppedAt: Option<nat>)
    ensures clean == answers[..CleanRun(faults, attempt, |answers|)]
    ensures stoppedAt == if |clean| < |answers| then Some(|clean|) else None
  {
    clean := [];
    for k := 0 to |answers|
      invariant clean == answers[..k] && CleanRun(faults, attempt, k) == k
    {
      if faults.garbled(attempt, k) {
        CleanRunStops(faults, attempt, k, |answers|);
        return clean, Some(k);
      }
      clean := clean + [answers[k]];
    }
    return clean, None;
  }

  lemma {:induction false} CleanRunStops(faults: Faults, attempt: nat, k: nat, count: nat)
    requires k < count && CleanRun(faults, attempt, k) == k && faults.garbled(attempt, k)
    ensures CleanRun(faults, attempt, count) == k
  {
    if k + 1 < count {
      CleanRunStops(faults, attempt, k, count - 1);
    }
  }

  lemma ContentsConcat(memory: nat -> Option<Byte>, address: nat, n: nat, m: nat)
    ensures Contents(memory, address, n) + Contents(memory, address + n, m) == Contents(memory, address, n + m)
  {
  }

  /** One attempt: sets DTR0 to the first unread location and reads the rest in one batch. */
  method ReadRest(gear: Gear, attempt: nat, start: nat, firstUnread: nat, count: nat, faults: Faults)
    returns (clean: seq<Option<Byte>>, stoppedAt: Option<nat>)
    requires firstUnread < count && start + count <= LAST_LOCATION + 1
    modifies gear
    ensures clean == Contents(gear.memory, start + firstUnread, CleanRun(faults, attempt, count - firstUnread))
    ensures stoppedAt == if |clean| < count - firstUnread then Some(|clean|) else None
  {
    gear.SetDtr0(start + firstUnread);
    var answers := gear.ReadBatch(count - firstUnread);
    clean, stoppedAt := TakeClean(faults, attempt, answers);
  }

  /** The attempts: reads `count` locations from `start`, resuming after each garbled answer. */
  method ReadLocations(gear: Gear, start: nat, count: nat, attempts: nat, faults: Faults)
    returns (r: Result<seq<Option<Byte>>, ReadError>)
    requires start + count <= LAST_LOCATION + 1 && attempts > 0
    modifies gear
    ensures r.Ok? ==> r.value == Contents(gear.memory, start, count)
    ensures r.Ok? <==> Completes(faults, 0, attempts, 0, count)
    ensures r.Err? && r.error.Stopped? ==> start <= r.error.location < start + count
  {
    var raw: seq<Option<Byte>> := [];
    var firstUnread: nat := 0;
    for attempt := 0 to attempts
      invariant firstUnread <= count && raw == Contents(gear.memory, start, firstUnread)
      invariant attempt > 0 ==> firstUnread < count
      invariant Completes(faults, attempt, attempts, firstUnread, count) == Completes(faults, 0, attempts, 0, count)
    {
      if count - firstUnread <= 0 {
        return Ok(raw);
      }
      if faults.dtr0Fails(attempt) {
        return Err(NoDtr0(attempt));
      }
      var clean, stoppedAt := ReadRest(gear, attempt, start, firstUnread, count, faults);
      ContentsConcat(gear.memory, start, firstUnread, |clean|);
      raw := raw + clean;
      firstUnread := firstUnread + |clean|;
      if stoppedAt.None? {
        return Ok(raw);
      }
    }
    return Err(Stopped(start + firstUnread));
  }

  /**
   Whatever answers are garbled, the result is the gear's memory from the first location to the
   last, with no gap, shift or repetition, or an error after three attempts; and it is the memory
   exactly when three attempts, each resuming where the last one stopped, get through.  Locations
   below the first are filled in as absent.
   */
  method ReadMemoryBank(gear: Gear, bank: nat, last: nat, faults: Faults)
    returns (r: Result<seq<Option<Byte>>, ReadError>)
    requires last <= LAST_LOCATION
    modifies gear
    ensures r.Ok? ==>
      var first := if bank == 0 then 2 else 3;
      && |r.value| == (if last + 1 < first then first else last + 1)
      && (forall i :: 0 <= i < first ==> r.value[i] == None)
      && (forall i :: first <= i <= last ==> r.value[i] == gear.memory(i))
    ensures r.Ok? <==> Completes(faults, 0, 3, 0, Count(bank, last))
    ensures r.Err? && r.error.Stopped? ==> Start(bank) <= r.error.location <= last
  {
    hide Completes;
    var start := Start(bank);
    var count := Count(bank, last);
    r := ReadLocations(gear, start, count, READ_ATTEMPTS, faults);
    if r.Ok? {
      var read := r.value;
      var absent: seq<Option<Byte>> := seq(start, i => None);
      r := Ok(absent + read);
      forall i | start <= i <= last
        ensures (absent + read)[i] == gear.memory(i)
      {
        assert (absent + read)[i] == read[i - start];
      }
    }
  }

  lemma {:induction false} CleanRunIsFirst(faults: Faults, attempt: nat, count: nat)
    ensures var n := CleanRun(faults, attempt, count);
            (forall k :: 0 <= k < n ==> !faults.garbled(attempt, k)) && (n < count ==> faults.garbled(attempt, n))
  {
    if count > 0 {
      CleanRunIsFirst(faults, attempt, count - 1);
    }
  }

  /** One attempt without a garbled answer is enough, whichever it is. */
  lemma {:induction false} OneCleanAttempt(faults: Faults, attempt: nat, attempts: nat, read: nat, count: nat, a: nat)
    requires attempt <= a < attempts && read <= count
    requires forall k :: 0 <= k < count ==> !faults.garbled(a, k)
    requires forall b :: 0 <= b < attempts ==> !faults.dtr0Fails(b)
    ensures Completes(faults, attempt, attempts, read, count)
    decreases attempts - attempt
  {
    if attempt == a {
      CleanRunIsFirst(faults, a, count - read);
    } else {
      OneCleanAttempt(faults, attempt + 1, attempts, read + CleanRun(faults, attempt, count - read), count, a);
    }
  }
}
