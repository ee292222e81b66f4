/** Allocation safety after a complete poll: no gear ever holds a short address that is still free,
    so none that is handed out is in use. */
module Vacancy {
  import opened SearchBus
  import opened SearchAddress
  import opened Enumeration
  import opened Allocation

  /** Every short address on the bus is the one that the device had, or in `extra`. */
  ghost predicate ShortsFrom(ds: seq<Device>, ds': seq<Device>, extra: set<nat>)
  {
    |ds'| == |ds| && forall i :: 0 <= i < |ds| ==> ds'[i].short == ds[i].short || ds'[i].short in extra
  }

  ghost predicate NobodyAt(ds: seq<Device>, available: seq<nat>)
  {
    forall d :: d in ds ==> d.short !in available
  }

  /** Nobody holds a free address or was recorded at one, now or at any hand-out; so nobody held an
      address when it was handed out. */
  ghost predicate Guarded(ds: seq<Device>, available: seq<nat>, late: set<nat>, log: seq<Handout>)
  {
    && late == {} && NobodyAt(ds, available)
    && forall k :: 0 <= k < |log| ==> log[k].late == {} && log[k].short !in log[k].held
  }

  /** Whatever gear obeys, a frame gives it no short address but the one the frame programs. */
  lemma StepShorts(w: World, s: BusState, f: Frame)
    ensures ShortsFrom(s.devices, Step(w, s, f).devices, if f.ProgramShort? then {f.short} else {})
  {
  }

  lemma StillNobody(ds: seq<Device>, ds': seq<Device>, available: seq<nat>)
    requires NobodyAt(ds, available) && (ShortsFrom(ds, ds', {}) || (ShortsFrom(ds, ds', {MASK}) && MASK !in available))
    ensures NobodyAt(ds', available)
  {
    forall d | d in ds'
      ensures d.short !in available
    {
      var i :| 0 <= i < |ds'| && ds'[i] == d;
      assert ds[i] in ds;
    }
  }

  /** A hand-out leaves nobody at what is still free. */
  lemma NobodyAfterHandOut(ds: seq<Device>, ds': seq<Device>, available: seq<nat>, s: nat)
    requires Ascending(available) && s in available && NobodyAt(ds, available) && ShortsFrom(ds, ds', {s})
    ensures NobodyAt(ds', Without(available, s)) && s !in Shorts(ds)
  {
    WithoutRemoves(available, s);
    forall d | d in ds'
      ensures d.short !in Without(available, s)
    {
      var i :| 0 <= i < |ds'| && ds'[i] == d;
      assert ds[i] in ds;
    }
  }

  lemma GuardedHandOut(ds: seq<Device>, ds': seq<Device>, available: seq<nat>, late: set<nat>, log: seq<Handout>,
                       h: Handout)
    requires Guarded(ds, available, late, log) && Ascending(available) && ShortsFrom(ds, ds', {h.short})
    requires h.short in available && h.late == late && h.held == Shorts(ds)
    ensures Guarded(ds', Without(available, h.short), late, log + [h])
  {
    NobodyAfterHandOut(ds, ds', available, h.short);
  }

  /** After a complete poll what is free is what nobody holds. */
  lemma NobodyAfterPoll(ds: seq<Device>, ds': seq<Device>, present: set<nat>, available: seq<nat>)
    requires forall s: nat :: s in present <==> s <= MAX_SHORT && s in Shorts(ds)
    requires forall s: nat :: s in available <==> s <= MAX_SHORT && s !in present
    requires ShortsFrom(ds, ds', {})
    ensures NobodyAt(ds', available)
  {
    forall d | d in ds'
      ensures d.short !in available
    {
      var i :| 0 <= i < |ds'| && ds'[i] == d;
      assert ds[i].short in Shorts(ds);
    }
  }

  /** What gear reports is what it holds, so it is not free. */
  ghost predicate Taken(available: seq<nat>, resp: Reply)
  {
    resp.Value? ==> resp.v !in available
  }

  lemma ReportedIsTaken(ds: seq<Device>, search: nat, available: seq<nat>)
    requires NobodyAt(ds, available)
    ensures Taken(available, Truth(ds, search, QueryShort))
  {
    MergeHasSource(ds, (d: Device) => Selected(d, search), (d: Device) => d.short);
  }

  /** The frames of the batch for known random addresses. */
  predicate OnlySearches(frames: seq<Frame>)
  {
    forall f :: f in frames ==> f.SearchH? || f.SearchM? || f.SearchL? || f.QueryShort? || f.Withdraw?
  }

  /** A batch without PROGRAM SHORT ADDRESS hears only addresses that are taken. */
  lemma {:induction false} BatchHearsTaken(w: World, s: BusState, frames: seq<Frame>, available: seq<nat>)
    requires ClearQueries(w) && OnlySearches(frames) && NobodyAt(s.devices, available)
    ensures NobodyAt(Run(w, s, frames).devices, available)
    ensures forall k :: 0 <= k < |frames| ==> Taken(available, Answers(w, s, frames)[k])
    decreases |frames|
  {
    if frames != [] {
      var f := frames[0];
      assert f in frames;
      StepShorts(w, s, f);
      StillNobody(s.devices, Step(w, s, f).devices, available);
      ReportedIsTaken(s.devices, s.Search(), available);
      assert OnlySearches(frames[1..]);
      BatchHearsTaken(w, Step(w, s, f), frames[1..], available);
      var rest := Answers(w, Step(w, s, f), frames[1..]);
      forall k | 0 <= k < |frames|
        ensures Taken(available, Answers(w, s, frames)[k])
      {
        assert k > 0 ==> Taken(available, rest[k - 1]);
      }
    }
  }

  /** So nothing that was handed out was in use, by gear recorded by then or by any other. */
  lemma NothingCollides(ds: seq<Device>, present: set<nat>, available: seq<nat>, recorded: set<nat>, late: set<nat>,
                        log: seq<Handout>)
    requires Safe(present, available, recorded, late, log) && Guarded(ds, available, late, log)
    ensures forall k :: 0 <= k < |log| ==> log[k].short !in log[k].recorded && log[k].short !in log[k].held
  {
  }
}
