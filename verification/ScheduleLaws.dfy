/** What holds over every run of scheduling, firing and disabling. */
module ScheduleLaws {
  import opened Options
  import opened ScheduleSlots
  import opened ScheduleTime

  // ---------- firings of one check ----------

  /** Handler calls of a resolved check: each at or after the time it was armed for. */
  ghost predicate Firings(start: nat, periodMs: nat, calls: seq<nat>)
    requires periodMs > 0
  {
    && (forall i :: 0 <= i < |calls| ==> calls[i] >= start)
    && (forall i :: 0 < i < |calls| ==> calls[i] >= NextFire(start, periodMs, calls[i - 1]))
  }

  /** Over every run, each firing is on the grid of its first start, in order, one period ahead at most. */
  lemma FiringsOnGrid(start: nat, periodMs: nat, calls: seq<nat>, i: nat, j: nat)
    requires periodMs > 0 && Firings(start, periodMs, calls) && i < j < |calls|
    ensures NextFire(start, periodMs, calls[i]) <= calls[j] < NextFire(start, periodMs, calls[j])
    ensures NextFire(start, periodMs, calls[j]) <= calls[j] + periodMs * 1000
    decreases j - i
  {
    FireIsNextGridPoint(start, periodMs, calls[j]);
    if i + 1 < j {
      FiringsOnGrid(start, periodMs, calls, i + 1, j);
      FireIsNextGridPoint(start, periodMs, calls[i + 1]);
    }
  }

  /** Moving by whole minutes keeps the offset within the minute. */
  lemma GridKeepsOffset(t: int, k: int, periodMs: nat)
    requires WholeMinutes(periodMs) && t >= 0 && t + k * (periodMs * 1000) >= 0
    ensures OffsetMs(t + k * (periodMs * 1000)) == OffsetMs(t)
  {
    var m := periodMs / 60000;
    assert periodMs == m * 60000;
    Minutes(k, m);
    OffsetOfMinutes(t, k * m);
  }

  lemma Minutes(k: int, m: int)
    ensures k * (m * 60000 * 1000) == k * m * MINUTE
  {}

  /** A check of whole minutes fires, however late its handler runs, at the offset it was given. */
  lemma FiresAtOffset(aligned: nat, k: int, lc: int, periodMs: nat, now: nat, call: nat)
    requires periodMs > 0 && WholeMinutes(periodMs) && Settled(aligned, periodMs * 1000, now, lc, k)
    requires 0 <= lc <= call
    ensures OffsetMs(lc) == OffsetMs(aligned)
    ensures OffsetMs(NextFire(lc, periodMs, call)) == OffsetMs(aligned)
  {
    GridKeepsOffset(aligned, k, periodMs);
    FireIsNextGridPoint(lc, periodMs, call);
    GridKeepsOffset(lc, (call - lc) / 1000 / periodMs + 1, periodMs);
  }

  predicate InTime(ms: nat, timeoutMs: nat) { ms + timeoutMs < 60000 }

  /** Every start a prioritised check may be given leaves its timeout before the minute ends exactly
      when the timeout is at most fifty seconds. */
  lemma RoomForTimeoutIff(timeoutMs: nat)
    ensures (forall ms :: 0 <= ms < Allowed(timeoutMs) * 1000 ==> InTime(ms, timeoutMs)) <==> timeoutMs <= 50000
  {
    if timeoutMs > 50000 {
      assert Allowed(timeoutMs) == 10;
      assert !InTime(9999, timeoutMs);
    }
  }

  /** With priority scheduling, every firing of a whole-minute check with such a timeout leaves room
      for it before the minute ends. */
  lemma PrioritisedFinishesInMinute(a: Ask, aligned: nat, k: int, lc: int, now: nat, call: nat)
    requires Prioritised(a) && a.periodMs > 0 && a.timeoutMs <= 50000
    requires OffsetMs(aligned) < Around(a) * 1000 && Settled(aligned, a.periodMs * 1000, now, lc, k)
    requires 0 <= lc <= call
    ensures InTime(OffsetMs(NextFire(lc, a.periodMs, call)), a.timeoutMs)
  {
    FiresAtOffset(aligned, k, lc, a.periodMs, now, call);
    RoomForTimeoutIff(a.timeoutMs);
  }

  // ---------- the tables over every run ----------

  /** The places of some starts. */
  ghost function PlacesBy<T>(place: T -> nat, starts: seq<T>): multiset<nat>
  {
    if starts == [] then multiset{}
    else PlacesBy(place, starts[..|starts| - 1]) + multiset{place(starts[|starts| - 1])}
  }

  /** The slots of some starts. */
  ghost function Places(starts: seq<nat>): multiset<nat> { PlacesBy(SlotOf, starts) }

  lemma PlacesAppend<T>(place: T -> nat, starts: seq<T>, start: T)
    ensures PlacesBy(place, starts + [start]) == PlacesBy(place, starts) + multiset{place(start)}
  {
    assert (starts + [start])[..|starts|] == starts;
  }

  ghost function Without<T>(starts: seq<T>, i: nat): seq<T>
    requires i < |starts|
  {
    starts[..i] + starts[i + 1..]
  }

  lemma WithoutInit<T>(starts: seq<T>, i: nat)
    requires i < |starts|
    ensures var n := |starts| - 1;
            Without(starts, i) == if i == n then starts[..n] else Without(starts[..n], i) + [starts[n]]
  {}

  lemma {:induction false} PlacesWithout<T>(place: T -> nat, starts: seq<T>, i: nat)
    requires i < |starts|
    ensures PlacesBy(place, starts) == PlacesBy(place, Without(starts, i)) + multiset{place(starts[i])}
  {
    var n := |starts| - 1;
    var init, last, gone := starts[..n], starts[n], starts[i];
    WithoutInit(starts, i);
    if i < n {
      PlacesWithout(place, init, i);
      var kept := Without(init, i);
      PlacesAppend(place, kept, last);
      SwapAdded(PlacesBy(place, init), PlacesBy(place, kept), place(gone), place(last));
    }
  }

  lemma SwapAdded(all: multiset<nat>, kept: multiset<nat>, x: nat, y: nat)
    requires all == kept + multiset{x}
    ensures all + multiset{y} == kept + multiset{y} + multiset{x}
  {}

  /** A check comes with the aligned time its slot was counted at and the start it was given, or a
      live check is found disabled. */
  datatype Step =
    | Schedule(aligned: nat, k: int, periodMs: nat)
    | Disable(i: nat)

  datatype Tables = Tables(slots: seq<nat>, secs: seq<nat>, starts: seq<nat>)
  {
    predicate Sized() { |slots| == SLOTS && |secs| == 60 }
  }

  predicate Enabled(t: Tables, s: Step)
  {
    match s
    case Schedule(aligned, k, p) => p > 0 && WholeMinutes(p) && aligned + k * (p * 1000) >= 0
    case Disable(i) => i < |t.starts|
  }

  /** A check counted at its aligned time and given a start. */
  function Added(t: Tables, aligned: nat, start: nat): (t': Tables)
    requires t.Sized()
    ensures t'.Sized()
  {
    Tables(Changed(t.slots, SlotOf(aligned), 1), Changed(t.secs, OffsetMs(aligned) / 1000, 1), t.starts + [start])
  }

  function Do(t: Tables, s: Step): (t': Tables)
    requires t.Sized() && Enabled(t, s)
    ensures t'.Sized()
  {
    match s
    case Schedule(aligned, k, p) => Added(t, aligned, aligned + k * (p * 1000))
    case Disable(i) =>
      Tables(Changed(t.slots, SlotOf(t.starts[i]), -1), Changed(t.secs, OffsetMs(t.starts[i]) / 1000, -1),
             t.starts[..i] + t.starts[i + 1..])
  }

  predicate Runs(t: Tables, steps: seq<Step>)
    requires t.Sized()
    decreases |steps|
  {
    steps == [] || (Enabled(t, steps[0]) && Runs(Do(t, steps[0]), steps[1..]))
  }

  function Run(t: Tables, steps: seq<Step>): Tables
    requires t.Sized() && Runs(t, steps)
    decreases |steps|
  {
    if steps == [] then t else Run(Do(t, steps[0]), steps[1..])
  }

  ghost predicate Counted(t: Tables) { Counts(t.slots, t.secs, Places(t.starts)) }

  lemma MovedUp(live: multiset<nat>, j: nat)
    ensures Moved(live, live + multiset{j}, j, 1)
  {}

  lemma MovedDown(live: multiset<nat>, j: nat)
    ensures Moved(live + multiset{j}, live, j, -1)
  {}

  lemma SameOffsetSameSlot(t: nat, u: nat)
    requires OffsetMs(t) == OffsetMs(u)
    ensures SlotOf(t) == SlotOf(u)
  {}

  lemma ScheduleCounts(t: Tables, aligned: nat, k: int, p: nat)
    requires t.Sized() && Counted(t) && Enabled(t, Schedule(aligned, k, p))
    ensures Counted(Do(t, Schedule(aligned, k, p)))
  {
    var start := aligned + k * (p * 1000);
    GridKeepsOffset(aligned, k, p);
    SameOffsetSameSlot(aligned, start);
    AddCounts(t, aligned, start);
  }

  lemma AddCounts(t: Tables, aligned: nat, start: nat)
    requires t.Sized() && Counted(t) && SlotOf(aligned) == SlotOf(start)
    ensures Counted(Added(t, aligned, start))
  {
    PlacesAppend(SlotOf, t.starts, start);
    MovedUp(Places(t.starts), SlotOf(aligned));
    CountsChanged(t.slots, t.secs, Places(t.starts), Places(t.starts + [start]), aligned, 1);
  }

  lemma DisableCounts(t: Tables, i: nat)
    requires t.Sized() && Counted(t) && i < |t.starts|
    ensures Counted(Do(t, Disable(i)))
  {
    PlacesWithout(SlotOf, t.starts, i);
    MovedDown(Places(Without(t.starts, i)), SlotOf(t.starts[i]));
    CountsChanged(t.slots, t.secs, Places(t.starts), Places(Without(t.starts, i)), t.starts[i], -1);
  }

  lemma StepCounts(t: Tables, s: Step)
    requires t.Sized() && Enabled(t, s) && Counted(t)
    ensures Counted(Do(t, s))
  {
    match s
    case Schedule(aligned, k, p) => ScheduleCounts(t, aligned, k, p);
    case Disable(i) => DisableCounts(t, i);
  }

  /** Over every run of scheduling and disabling checks of whole minutes, each slot counts the live
      checks at its offset and each second the sum of its slots, in sixteen bits. */
  lemma {:induction false} RunCounts(t: Tables, steps: seq<Step>)
    requires t.Sized() && Runs(t, steps) && Counted(t)
    ensures Counted(Run(t, steps))
    decreases |steps|
  {
    if steps != [] {
      StepCounts(t, steps[0]);
      RunCounts(Do(t, steps[0]), steps[1..]);
    }
  }

  /** Below 65536 live checks the counts are exact: of each slot, and of each second as the sum of
      its slots. */
  lemma ExactBelowWrap(t: Tables, j: nat, s: nat)
    requires Counted(t) && j < SLOTS && s < 60 && |t.starts| < WRAP
    ensures t.slots[j] == Places(t.starts)[j]
    ensures t.secs[s] == Sum(OfSecond(t.slots, s))
  {
    SlotsExact(SlotOf, t.starts, t.slots);
    SecondSize(SlotOf, t.starts, t.slots, s);
  }

  lemma SlotsExact<T>(place: T -> nat, starts: seq<T>, slots: seq<nat>)
    requires SlotsCount(slots, PlacesBy(place, starts)) && |starts| < WRAP
    ensures forall i :: 0 <= i < |slots| ==> slots[i] == PlacesBy(place, starts)[i]
  {
    forall i | 0 <= i < |slots| ensures slots[i] == PlacesBy(place, starts)[i] {
      PlacesSize(place, starts, i);
      WrapSmall(PlacesBy(place, starts)[i]);
    }
  }

  lemma WrapSmall(n: nat)
    requires n < WRAP
    ensures Wrapped(n) == n
  {}

  /** The slots of a second hold no more than all the checks. */
  lemma {:induction false} SecondSize(place: nat -> nat, starts: seq<nat>, slots: seq<nat>, s: nat)
    requires |slots| == SLOTS && s < 60 && forall t :: place(t) < SLOTS
    requires forall i :: 0 <= i < SLOTS ==> slots[i] == PlacesBy(place, starts)[i]
    ensures Sum(OfSecond(slots, s)) <= |starts|
  {
    if starts == [] {
      SumOfZeros(OfSecond(slots, s));
    } else {
      var init, j := starts[..|starts| - 1], place(starts[|starts| - 1]);
      SecondSize(place, init, slots[j := slots[j] - 1], s);
      OneLess(slots, j, s);
    }
  }

  lemma OneLess(slots: seq<nat>, j: nat, s: nat)
    requires |slots| == SLOTS && s < 60 && j < SLOTS && slots[j] > 0
    ensures Sum(OfSecond(slots, s)) <= Sum(OfSecond(slots[j := slots[j] - 1], s)) + 1
  {
    var part := OfSecond(slots, s);
    var i := j - s * PER_SECOND;
    if 0 <= i < PER_SECOND {
      SumUpdate(part, i, slots[j] - 1);
      assert OfSecond(slots[j := slots[j] - 1], s) == part[i := slots[j] - 1];
    } else {
      assert OfSecond(slots[j := slots[j] - 1], s) == part;
    }
  }

  lemma {:induction false} PlacesSize<T>(place: T -> nat, starts: seq<T>, j: nat)
    ensures PlacesBy(place, starts)[j] <= |starts|
  {
    if starts != [] { PlacesSize(place, starts[..|starts| - 1], j); }
  }

  // ---------- the scheduler takes these steps ----------

  ghost function TablesOf(s: Scheduler, starts: seq<nat>): Tables
    reads s.slots, s.secs
  {
    Tables(s.slots[..], s.secs[..], starts)
  }

  /** A check of whole minutes is given its first start and armed: one Schedule step, and its slot is
      a least loaded one of a least loaded second that it may start in. */
  method Begin(s: Scheduler, c: Check, now: nat, turn: nat, jitter: nat, ghost starts: seq<nat>)
    returns (ms: int, ghost aligned: nat, ghost k: int, ghost second: nat)
    requires s.Valid() && turn < PER_SECOND && jitter < GRANULARITY && now >= c.ask.periodMs * 1000
    requires c.ask.periodMs > 0 && WholeMinutes(c.ask.periodMs) && !c.transient && !c.off
    modifies c, s.slots, s.secs
    ensures var step := Schedule(aligned, k, old(c.ask.periodMs));
            old(TablesOf(s, starts)).Sized() && Enabled(old(TablesOf(s, starts)), step)
            && TablesOf(s, starts + [c.start]) == Do(old(TablesOf(s, starts)), step)
    ensures OffsetMs(c.start) < Around(old(c.ask)) * 1000
    ensures Chosen(old(c.ask), old(s.slots[..]), old(s.secs[..]), now, turn, second, SlotOf(c.start))
    ensures c.start <= now && c.fire == Some(NextFire(c.start, old(c.ask.periodMs), now)) && c.ask == old(c.ask)
    ensures OffsetMs(c.fire.value) == OffsetMs(c.start)
  {
    var lc: int;
    lc, aligned, k, second := s.FakeLastCheck(c, now, turn, jitter);
    BeginStep(old(TablesOf(s, starts)), TablesOf(s, starts + [lc]), aligned, k, c.ask.periodMs, now, lc);
    ms := s.ScheduleNext(c, Some(lc), now);
  }

  lemma BeginStep(t: Tables, t': Tables, aligned: nat, k: int, p: nat, now: nat, lc: int)
    requires t.Sized() && p > 0 && WholeMinutes(p) && Settled(aligned, p * 1000, now, lc, k) && now >= p * 1000
    requires t'.slots == Changed(t.slots, SlotOf(aligned), 1) && t'.secs == Changed(t.secs, OffsetMs(aligned) / 1000, 1)
    requires lc >= 0 && t'.starts == t.starts + [lc]
    ensures Enabled(t, Schedule(aligned, k, p)) && t' == Do(t, Schedule(aligned, k, p))
    ensures OffsetMs(lc) == OffsetMs(aligned) == OffsetMs(NextFire(lc, p, now))
  {
    FiresAtOffset(aligned, k, lc, p, now, now);
  }

  /** A firing that finds the check disabled takes it out: one Disable step. */
  method End(s: Scheduler, c: Check, now: nat, ghost starts: seq<nat>, ghost i: nat) returns (ms: int)
    requires s.Valid() && c.ask.periodMs > 0 && !c.transient && c.off && i < |starts| && starts[i] == c.start
    modifies c, s.slots, s.secs
    ensures old(TablesOf(s, starts)).Sized()
    ensures ms == 0 && TablesOf(s, Without(starts, i)) == Do(old(TablesOf(s, starts)), Disable(i))
  {
    ms := s.ScheduleNext(c, None, now);
  }
}
