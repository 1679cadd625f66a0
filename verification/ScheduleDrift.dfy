/** Which periods keep the slot tables in step: a check is counted at the time it was aligned to and
    uncounted at the start it was given. */
module ScheduleDrift {
  import opened ScheduleSlots
  import opened ScheduleTime
  import opened ScheduleLaws

  /** The tables before any check was scheduled. */
  function Zeros(n: nat): (z: seq<nat>)
    ensures |z| == n && forall i :: 0 <= i < n ==> z[i] == 0
  {
    seq(n, _ => 0)
  }

  /** In empty tables a search takes the first place it looks at. */
  lemma ZerosLeast(n: nat, lo: nat, start: nat, around: nat, count: nat)
    requires Inside(n, lo, around)
    ensures Least(Zeros(n), lo, start, around, count, if count > 0 then Cyclic(lo, start, around, 0) else 0)
  {
    if count > 0 {
      assert Zeros(n)[Cyclic(lo, start, around, 0)] == 0;
      assert FoundAt(Zeros(n), lo, start, around, count, Cyclic(lo, start, around, 0), 0);
    }
  }

  /** Some milliseconds after the start of a minute. */
  function TimeAt(m: nat, ms: nat): nat { m * 60000000 + ms * 1000 }

  lemma TimeAtOffset(m: nat, ms: nat)
    ensures OffsetMs(TimeAt(m, ms)) == ms % 60000
  {
    var q, r := ms / 60000, ms % 60000;
    assert TimeAt(m, ms) == r * 1000 + (m + q) * MINUTE;
    OffsetAfterMinutes(r * 1000, m + q);
  }

  lemma TimeAtSecond(m: nat, ms: nat)
    ensures TimeAt(m, ms) / 1000000 == m * 60 + ms / 1000
  {
    assert ms * 1000 == ms / 1000 * 1000000 + ms % 1000 * 1000;
  }

  lemma TimeAtMinute(m: nat, ms: nat)
    requires ms < 60000
    ensures MinuteOf(TimeAt(m, ms)) == TimeAt(m, 0)
  {
    MinuteIsFromSeconds(TimeAt(m, ms));
    TimeAtSecond(m, ms);
    WholeMinute(m, ms / 1000);
  }

  lemma WholeMinute(m: nat, s: nat)
    requires s < 60
    ensures (m * 60 + s) / 60 == m
  {}

  /** In empty tables the first second after now is chosen, and the first slot of it; a period below
      a second leaves no second to choose from. */
  lemma ZerosChosen(a: Ask, m: nat, nowMs: nat)
    requires !WholeMinutes(a.periodMs)
    ensures var second := if a.periodMs < 1000 then 0 else (nowMs / 1000 + 1) % 60;
            Chosen(a, Zeros(SLOTS), Zeros(60), TimeAt(m, nowMs), 0, second, second * PER_SECOND)
  {
    TimeAtSecond(m, nowMs);
    var start := TimeAt(m, nowMs) / 1000000 + 1;
    ZerosLeast(60, 0, start, 60, Searched(a));
    SecondOf(m, nowMs / 1000 + 1);
    var second := if a.periodMs < 1000 then 0 else (nowMs / 1000 + 1) % 60;
    ZerosLeast(SLOTS, second * PER_SECOND, 0, PER_SECOND, PER_SECOND);
  }

  lemma SecondOf(m: int, s: int)
    ensures (m * 60 + s) % 60 == s % 60
  {}

  /** The slot that is counted and the slot that is uncounted. */
  ghost predicate Drifts(a: Ask, now: nat, jitter: nat, aligned: nat, lc: int)
  {
    FirstStart(a, Zeros(SLOTS), Zeros(60), now, 0, jitter, aligned, lc) && lc >= 0 && SlotOf(lc) != SlotOf(aligned)
  }

  lemma StartOf(m: nat, nowMs: nat, jitter: nat, second: nat, periodMs: nat, k: int, lcMs: nat)
    requires jitter < GRANULARITY && lcMs == second * 1000 + jitter + k * periodMs && lcMs <= nowMs < lcMs + periodMs
    ensures StartsAt(TimeAt(m, 0), second * PER_SECOND, jitter, periodMs * 1000, TimeAt(m, nowMs),
                     TimeAt(m, second * 1000 + jitter), TimeAt(m, lcMs), k)
  {
    Thousands(k, periodMs);
  }

  lemma SlotAt(m: nat, ms: nat)
    ensures SlotOf(TimeAt(m, ms)) == ms % 60000 / GRANULARITY
  {
    TimeAtOffset(m, ms);
  }

  lemma PeriodBefore(m: nat, nowMs: nat, periodMs: nat)
    requires periodMs <= nowMs < periodMs + 60000
    ensures TimeAt(m, nowMs) - periodMs * 1000 == TimeAt(m, nowMs - periodMs)
    ensures MinuteOf(TimeAt(m, nowMs - periodMs)) == TimeAt(m, 0)
  {
    TimeAtMinute(m, nowMs - periodMs);
  }

  /** A start k periods from the aligned time, all in milliseconds of one minute. */
  lemma DriftBy(a: Ask, m: nat, nowMs: nat, jitter: nat, second: nat, k: int, lcMs: nat)
    requires 0 < a.periodMs <= nowMs && !WholeMinutes(a.periodMs) && jitter < GRANULARITY
    requires nowMs - a.periodMs < 60000
    requires second == if a.periodMs < 1000 then 0 else (nowMs / 1000 + 1) % 60
    requires lcMs == second * 1000 + jitter + k * a.periodMs && lcMs <= nowMs < lcMs + a.periodMs
    requires lcMs % 60000 / GRANULARITY != second * PER_SECOND
    ensures Drifts(a, TimeAt(m, nowMs), jitter, TimeAt(m, second * 1000 + jitter), TimeAt(m, lcMs))
  {
    ZerosChosen(a, m, nowMs);
    PeriodBefore(m, nowMs, a.periodMs);
    StartOf(m, nowMs, jitter, second, a.periodMs, k, lcMs);
    GivesStart(a, Zeros(SLOTS), Zeros(60), TimeAt(m, nowMs), 0, jitter, TimeAt(m, 0), a.periodMs * 1000, second,
               second * PER_SECOND, TimeAt(m, second * 1000 + jitter), TimeAt(m, lcMs), k);
    SlotsDiffer(m, second, jitter, lcMs);
  }

  lemma SlotsDiffer(m: nat, second: nat, jitter: nat, lcMs: nat)
    requires second < 60 && jitter < GRANULARITY && lcMs % 60000 / GRANULARITY != second * PER_SECOND
    ensures SlotOf(TimeAt(m, lcMs)) != SlotOf(TimeAt(m, second * 1000 + jitter))
  {
    SlotAt(m, lcMs);
    SlotAt(m, second * 1000 + jitter);
    SecondSlot(second, jitter);
  }

  lemma SecondSlot(second: nat, jitter: nat)
    requires second < 60 && jitter < GRANULARITY
    ensures (second * 1000 + jitter) % 60000 / GRANULARITY == second * PER_SECOND
  {}

  lemma Thousands(k: int, p: int)
    ensures k * (p * 1000) == k * p * 1000
  {}

  lemma ShortDrift(a: Ask, m: nat)
    requires 0 < a.periodMs < 1000
    ensures Drifts(a, TimeAt(m, 19 + a.periodMs), 19, TimeAt(m, 19), TimeAt(m, 19 + a.periodMs))
  {
    DriftBy(a, m, 19 + a.periodMs, 19, 0, 1, 19 + a.periodMs);
  }

  lemma MiddleDrift(a: Ask, m: nat) returns (aligned: nat, lc: nat)
    requires 1000 <= a.periodMs < 59000
    ensures Drifts(a, TimeAt(m, a.periodMs), 0, aligned, lc)
  {
    var second := a.periodMs / 1000 + 1;
    DriftBy(a, m, a.periodMs, 0, second, -1, second * 1000 - a.periodMs);
    aligned, lc := TimeAt(m, second * 1000), TimeAt(m, second * 1000 - a.periodMs);
  }

  lemma NearMinuteDrift(a: Ask, m: nat)
    requires 59000 <= a.periodMs < 60000
    ensures Drifts(a, TimeAt(m, a.periodMs), 0, TimeAt(m, 0), TimeAt(m, a.periodMs))
  {
    DriftBy(a, m, a.periodMs, 0, 0, 1, a.periodMs);
  }

  lemma LongDrift(a: Ask, m: nat) returns (now: nat, jitter: nat, aligned: nat, lc: nat)
    requires a.periodMs > 60000 && !WholeMinutes(a.periodMs)
    ensures now >= TimeAt(m, 0) && Drifts(a, now, jitter, aligned, lc)
  {
    var second := ((59999 + a.periodMs) / 1000 + 1) % 60;
    jitter := if a.periodMs % 60000 <= 59980 then 19 else 0;
    LongPeriodMoves(second, jitter, a.periodMs);
    DriftBy(a, m, 59999 + a.periodMs, jitter, second, 1, second * 1000 + jitter + a.periodMs);
    now, aligned := TimeAt(m, 59999 + a.periodMs), TimeAt(m, second * 1000 + jitter);
    lc := TimeAt(m, second * 1000 + jitter + a.periodMs);
  }

  /** For every period that is not a whole number of minutes, in every minute, there is a clock at
      which a first check is uncounted in another slot than it was counted in. */
  lemma DriftExists(a: Ask, m: nat) returns (now: nat, jitter: nat, aligned: nat, lc: nat)
    requires a.periodMs > 0 && !WholeMinutes(a.periodMs)
    ensures now >= TimeAt(m, 0) && Drifts(a, now, jitter, aligned, lc)
  {
    var p := a.periodMs;
    if p < 1000 {
      ShortDrift(a, m);
      now, jitter, aligned, lc := TimeAt(m, 19 + p), 19, TimeAt(m, 19), TimeAt(m, 19 + p);
    } else if p < 59000 {
      now, jitter := TimeAt(m, p), 0;
      aligned, lc := MiddleDrift(a, m);
    } else if p < 60000 {
      NearMinuteDrift(a, m);
      now, jitter, aligned, lc := TimeAt(m, p), 0, TimeAt(m, 0), TimeAt(m, p);
    } else {
      now, jitter, aligned, lc := LongDrift(a, m);
    }
  }

  lemma RemainderIs(x: int, m: int, r: int)
    requires x == 60000 * m + r && 0 <= r < 60000
    ensures x % 60000 == r
  {}

  lemma LongPeriodMoves(second: nat, jitter: nat, p: nat)
    requires second < 60 && p % 60000 > 0 && jitter == if p % 60000 <= 59980 then 19 else 0
    ensures (second * 1000 + jitter + p) % 60000 / GRANULARITY != second * PER_SECOND
  {
    var r, x := p % 60000, second * 1000 + jitter;
    RemainderIs(x + p, p / 60000 + (if x + r < 60000 then 0 else 1), if x + r < 60000 then x + r else x + r - 60000);
  }

  /** Counting and uncounting leaves the slots as they were, whatever the tables, the clock and the
      random offsets. */
  ghost predicate UncountUndoes(a: Ask)
  {
    forall slots, secs, now, turn, jitter, aligned, lc: nat ::
      |slots| == SLOTS && |secs| == 60 && (forall j :: 0 <= j < SLOTS ==> slots[j] < WRAP)
      && FirstStart(a, slots, secs, now, turn, jitter, aligned, lc)
      ==> Changed(Changed(slots, SlotOf(aligned), 1), SlotOf(lc), -1) == slots
  }

  lemma DriftIsNotUndone(a: Ask, now: nat, jitter: nat, aligned: nat, lc: nat)
    requires Drifts(a, now, jitter, aligned, lc)
    ensures !UncountUndoes(a)
  {
    SameSlotIff(Zeros(SLOTS), aligned, lc);
  }

  lemma SameSlotIff(slots: seq<nat>, aligned: nat, start: nat)
    requires |slots| == SLOTS && forall j :: 0 <= j < SLOTS ==> slots[j] < WRAP
    ensures Changed(Changed(slots, SlotOf(aligned), 1), SlotOf(start), -1) == slots <==> SlotOf(aligned) == SlotOf(start)
  {
    UndoneIff(slots, SlotOf(aligned), SlotOf(start));
  }

  lemma UndoneIff(slots: seq<nat>, a: nat, b: nat)
    requires a < |slots| && b < |slots| && forall j :: 0 <= j < |slots| ==> slots[j] < WRAP
    ensures Changed(Changed(slots, a, 1), b, -1) == slots <==> a == b
  {
    var s := Changed(slots, a, 1);
    WrapAdd(slots[a] + 1, -1);
    if a != b { assert Changed(s, b, -1)[a] == Wrapped(slots[a] + 1) != slots[a]; }
  }

  /** ... exactly when the period is a whole number of minutes. */
  lemma UncountUndoesIff(a: Ask)
    requires a.periodMs > 0
    ensures UncountUndoes(a) <==> WholeMinutes(a.periodMs)
  {
    if !WholeMinutes(a.periodMs) {
      var now, jitter, aligned, lc := DriftExists(a, 0);
      DriftIsNotUndone(a, now, jitter, aligned, lc);
    } else {
      forall slots: seq<nat>, secs: seq<nat>, now: nat, turn: nat, jitter: nat, aligned: nat, lc: nat
        | |slots| == SLOTS && |secs| == 60 && (forall j :: 0 <= j < SLOTS ==> slots[j] < WRAP)
          && FirstStart(a, slots, secs, now, turn, jitter, aligned, lc)
        ensures Changed(Changed(slots, SlotOf(aligned), 1), SlotOf(lc), -1) == slots
      {
        var minute: nat, p: nat := MinuteOf(now - a.periodMs * 1000), a.periodMs * 1000;
        var second: nat, slot: nat, k: int :|
          Chosen(a, slots, secs, now, turn, second, slot) && StartsAt(minute, slot, jitter, p, now, aligned, lc, k);
        GridKeepsOffset(aligned, k, a.periodMs);
        SameSlotIff(slots, aligned, lc);
      }
    }
  }

  /** A first check with a period of seven seconds, ten seconds into a minute: it is counted in
      second 11 and uncounted in second 4. */
  lemma SevenSecondsDrift(timeoutMs: nat, priority: bool, m: nat)
    ensures Drifts(Ask(7000, timeoutMs, priority), TimeAt(m, 10000), 0, TimeAt(m, 11000), TimeAt(m, 4000))
  {
    DriftBy(Ask(7000, timeoutMs, priority), m, 10000, 0, 11, -1, 4000);
  }
}
