/** When a check fires: its first, balanced start and the grid of its period.  Times are in
    microseconds, periods and timeouts in milliseconds. */
module ScheduleTime {
  import opened Options
  import opened ScheduleSlots

  /** The first point of the grid through a start that lies after now. */
  function NextFire(start: nat, periodMs: nat, now: nat): nat
    requires periodMs > 0 && now >= start
  {
    var elapsed := (now - start) / 1000;
    start + (elapsed / periodMs + 1) * periodMs * 1000
  }

  method FireTime(start: nat, periodMs: nat, now: nat) returns (tgt: nat)
    requires periodMs > 0 && now >= start
    ensures tgt == NextFire(start, periodMs, now) > now
  {
    var elapsed := (now - start) / 1000;
    var offset := (elapsed / periodMs + 1) * periodMs;
    tgt := start + offset * 1000;
    FireIsNextGridPoint(start, periodMs, now);
  }

  lemma FireIsNextGridPoint(start: nat, periodMs: nat, now: nat)
    requires periodMs > 0 && now >= start
    ensures var fire := NextFire(start, periodMs, now);
            && now < fire <= now + periodMs * 1000
            && fire == start + ((now - start) / 1000 / periodMs + 1) * (periodMs * 1000)
            && forall k: nat :: start + k * (periodMs * 1000) < fire ==> start + k * (periodMs * 1000) <= now
  {
    var e, p := (now - start) / 1000, periodMs;
    var q := e / p;
    assert q * p <= e < q * p + p;
    assert (q + 1) * p == q * p + p;
    Reassociate(q + 1, p);
    forall k: nat | start + k * (p * 1000) < NextFire(start, p, now) ensures start + k * (p * 1000) <= now {
      Reassociate(k, p);
      BelowStep(k, q, p);
    }
  }

  lemma Reassociate(k: int, p: int)
    ensures k * (p * 1000) == k * p * 1000
  {}

  /** Below a multiple, a multiple is at most the one before it. */
  lemma BelowStep(k: int, q: int, p: int)
    requires p > 0
    ensures k * p < (q + 1) * p ==> k * p <= q * p
  {
    if k <= q { assert k * p <= q * p; } else { assert k * p >= (q + 1) * p; }
  }

  // ---------- the first start ----------

  /** The start of the minute a time is in. */
  function MinuteOf(t: nat): nat { if t < MINUTE then 0 else MINUTE + MinuteOf(t - MINUTE) }

  /** Found from the seconds of the time. */
  lemma {:induction false} MinuteIsFromSeconds(t: nat)
    ensures MinuteOf(t) == t / 1000000 / 60 * 60 * 1000000
  {
    if t >= MINUTE {
      MinuteIsFromSeconds(t - MINUTE);
      assert t / 1000000 == (t - MINUTE) / 1000000 + 60;
    }
  }

  lemma {:induction false} MinuteOffset(t: nat, ms: nat)
    requires ms < 60000
    ensures OffsetMs(MinuteOf(t) + ms * 1000) == ms
  {
    if t >= MINUTE {
      MinuteOffset(t - MINUTE, ms);
      assert MinuteOf(t) + ms * 1000 == MINUTE + (MinuteOf(t - MINUTE) + ms * 1000);
    }
  }

  lemma AlignedPlace(t: nat, second: nat, slot: nat, jitter: nat, around: nat)
    requires second < around <= 60 && jitter < GRANULARITY
    requires slot == 0 || second * PER_SECOND <= slot < second * PER_SECOND + PER_SECOND
    ensures var aligned := MinuteOf(t) + (slot * GRANULARITY + jitter) * 1000;
            SlotOf(aligned) == slot && OffsetMs(aligned) < around * 1000
  {
    MinuteOffset(t, slot * GRANULARITY + jitter);
  }

  /** A time moved by a whole number of periods so that now falls in the period after it. */
  ghost predicate Settled(from: int, p: nat, now: nat, lc: int, k: int)
  {
    lc == from + k * p && lc <= now < lc + p
  }

  /** The two loops: back while after now, or else forward while the next is not. */
  method Settle(from: int, p: nat, now: nat) returns (lc: int, ghost k: int)
    requires p > 0
    ensures lc <= now < lc + p
    ensures Settled(from, p, now, lc, k)
  {
    lc, k := from, 0;
    if now < lc {
      while now < lc
        invariant lc == from + k * p && now < lc + p
        decreases lc - now
      {
        StepBy(k, p);
        lc, k := lc - p, k - 1;
      }
    } else {
      while lc + p <= now
        invariant lc == from + k * p && lc <= now
        decreases now - lc
      {
        StepBy(k, p);
        lc, k := lc + p, k + 1;
      }
    }
  }

  lemma StepBy(k: int, p: int)
    ensures (k - 1) * p == k * p - p && (k + 1) * p == k * p + p
  {}

  // ---------- which first start a check gets ----------

  /** The second and the slot that the two searches find. */
  ghost predicate Chosen(a: Ask, slots: seq<nat>, secs: seq<nat>, now: nat, turn: nat, second: nat, slot: nat)
    requires |slots| == SLOTS && |secs| == 60
  {
    && second < Around(a) && Least(secs, 0, now / 1000000 + 1, Around(a), Searched(a), second)
    && Least(slots, second * PER_SECOND, turn, PER_SECOND, PER_SECOND, slot)
  }

  /** The time a check is counted at and the start it is given, for the tables, the clock and the
      two random offsets. */
  ghost predicate FirstStart(a: Ask, slots: seq<nat>, secs: seq<nat>, now: nat, turn: nat, jitter: nat,
                             aligned: nat, lc: int)
    requires |slots| == SLOTS && |secs| == 60
  {
    && turn < PER_SECOND && jitter < GRANULARITY && a.periodMs > 0 && now >= a.periodMs * 1000
    && Starts(a, slots, secs, now, turn, jitter, MinuteOf(now - a.periodMs * 1000), a.periodMs * 1000, aligned, lc)
  }

  ghost predicate Starts(a: Ask, slots: seq<nat>, secs: seq<nat>, now: nat, turn: nat, jitter: nat,
                         minute: nat, p: nat, aligned: nat, lc: int)
    requires |slots| == SLOTS && |secs| == 60
  {
    exists second: nat, slot: nat, k: int ::
      Chosen(a, slots, secs, now, turn, second, slot) && StartsAt(minute, slot, jitter, p, now, aligned, lc, k)
  }

  ghost predicate StartsAt(minute: nat, slot: nat, jitter: nat, p: nat, now: nat, aligned: nat, lc: int, k: int)
  {
    aligned == minute + (slot * GRANULARITY + jitter) * 1000 && Settled(aligned, p, now, lc, k)
  }

  lemma GivesStart(a: Ask, slots: seq<nat>, secs: seq<nat>, now: nat, turn: nat, jitter: nat,
                   minute: nat, p: nat, second: nat, slot: nat, aligned: nat, lc: int, k: int)
    requires |slots| == SLOTS && |secs| == 60
    requires Chosen(a, slots, secs, now, turn, second, slot) && StartsAt(minute, slot, jitter, p, now, aligned, lc, k)
    ensures Starts(a, slots, secs, now, turn, jitter, minute, p, aligned, lc)
  {}

  lemma LeastUnique(a: seq<nat>, lo: nat, start: nat, around: nat, count: nat, r: nat, r': nat)
    requires Inside(|a|, lo, around)
    requires Least(a, lo, start, around, count, r) && Least(a, lo, start, around, count, r')
    ensures r == r'
  {
    if exists k :: 0 <= k < count && a[Cyclic(lo, start, around, k)] < WRAP - 1 {
      var k: nat :| FoundAt(a, lo, start, around, count, r, k);
      var k': nat :| FoundAt(a, lo, start, around, count, r', k');
      assert a[r] <= a[Cyclic(lo, start, around, k')] && a[r'] <= a[Cyclic(lo, start, around, k)];
    }
  }

  lemma SettledUnique(from: int, p: nat, now: nat, lc: int, k: int, lc': int, k': int)
    requires p > 0 && Settled(from, p, now, lc, k) && Settled(from, p, now, lc', k')
    ensures lc == lc'
  {
    assert lc - lc' == (k - k') * p;
    Apart(k - k', p);
  }

  lemma ChosenUnique(a: Ask, slots: seq<nat>, secs: seq<nat>, now: nat, turn: nat,
                     second: nat, slot: nat, second': nat, slot': nat)
    requires |slots| == SLOTS && |secs| == 60
    requires Chosen(a, slots, secs, now, turn, second, slot) && Chosen(a, slots, secs, now, turn, second', slot')
    ensures slot == slot'
  {
    LeastUnique(secs, 0, now / 1000000 + 1, Around(a), Searched(a), second, second');
    LeastUnique(slots, second * PER_SECOND, turn, PER_SECOND, PER_SECOND, slot, slot');
  }

  lemma StartsAtUnique(minute: nat, slot: nat, jitter: nat, p: nat, now: nat,
                       aligned: nat, lc: int, k: int, aligned': nat, lc': int, k': int)
    requires p > 0
    requires StartsAt(minute, slot, jitter, p, now, aligned, lc, k) && StartsAt(minute, slot, jitter, p, now, aligned', lc', k')
    ensures aligned == aligned' && lc == lc'
  {
    SettledUnique(aligned, p, now, lc, k, lc', k');
  }

  /** There is one such start, so it is the one that is given. */
  lemma FirstStartUnique(a: Ask, slots: seq<nat>, secs: seq<nat>, now: nat, turn: nat, jitter: nat,
                         aligned: nat, lc: int, aligned': nat, lc': int)
    requires |slots| == SLOTS && |secs| == 60
    requires FirstStart(a, slots, secs, now, turn, jitter, aligned, lc)
    requires FirstStart(a, slots, secs, now, turn, jitter, aligned', lc')
    ensures aligned == aligned' && lc == lc'
  {
    var p := a.periodMs * 1000;
    var m: nat := MinuteOf(now - p);
    var second: nat, slot: nat, k: int :| Chosen(a, slots, secs, now, turn, second, slot)
      && StartsAt(m, slot, jitter, p, now, aligned, lc, k);
    var second': nat, slot': nat, k': int :| Chosen(a, slots, secs, now, turn, second', slot')
      && StartsAt(m, slot', jitter, p, now, aligned', lc', k');
    ChosenUnique(a, slots, secs, now, turn, second, slot, second', slot');
    StartsAtUnique(m, slot, jitter, p, now, aligned, lc, k, aligned', lc', k');
  }

  /** The second is among the next n after now and none of these has a smaller count, unless all have
      65535 or more. */
  ghost predicate LeastOfNext(secs: seq<nat>, now: nat, n: nat, second: nat)
    requires |secs| == 60
  {
    var next := now / 1000000 + 1;
    if forall p :: 0 <= p < 60 && (p - next) % 60 < n ==> secs[p] >= 65535 then second == 0
    else && second < 60 && (second - next) % 60 < n
         && forall p :: 0 <= p < 60 && (p - next) % 60 < n ==> secs[second] <= secs[p]
  }

  lemma ChosenIsLeast(a: Ask, slots: seq<nat>, secs: seq<nat>, now: nat, turn: nat, second: nat, slot: nat)
    requires |slots| == SLOTS && |secs| == 60 && Chosen(a, slots, secs, now, turn, second, slot)
    requires !a.priority || a.periodMs % 60000 != 0
    ensures LeastOfNext(secs, now, if a.periodMs < 60000 then a.periodMs / 1000 else 60, second)
  {
    WindowIs(a);
    var next := now / 1000000 + 1;
    LeastIs(secs, 0, next, 60, Searched(a), second);
    assert forall p :: Near(p, 0, next, 60, Searched(a)) <==> 0 <= p < 60 && (p - next) % 60 < Searched(a);
  }

  /** With priority, the first start of a check of whole minutes leaves a timeout of up to fifty seconds
      before the minute ends. */
  lemma PriorityLeavesRoom(a: Ask, offset: nat)
    requires a.priority && a.periodMs % 60000 == 0 && a.timeoutMs <= 50000 && offset < Around(a) * 1000
    ensures offset + a.timeoutMs < 60000
  {
    WindowIs(a);
  }

  /** What the choice of second and offset promises. */
  ghost predicate Promises(a: Ask, secs: seq<nat>, now: nat, second: nat, offset: nat)
    requires |secs| == 60
  {
    if a.priority && a.periodMs % 60000 == 0 then a.timeoutMs <= 50000 ==> offset + a.timeoutMs < 60000
    else LeastOfNext(secs, now, if a.periodMs < 60000 then a.periodMs / 1000 else 60, second)
  }

  lemma Promised(a: Ask, slots: seq<nat>, secs: seq<nat>, now: nat, turn: nat, second: nat, slot: nat, offset: nat)
    requires |slots| == SLOTS && |secs| == 60 && Chosen(a, slots, secs, now, turn, second, slot) && offset < Around(a) * 1000
    ensures Promises(a, secs, now, second, offset)
  {
    if !a.priority || a.periodMs % 60000 != 0 {
      ChosenIsLeast(a, slots, secs, now, turn, second, slot);
    } else if a.timeoutMs <= 50000 {
      PriorityLeavesRoom(a, offset);
    }
  }

  // ---------- checks and the scheduler ----------

  class Check {
    var ask: Ask
    var transient: bool
    var off: bool
    var unresolved: bool
    var start: nat
    var fire: Option<nat>

    constructor (a: Ask, isTransient: bool)
      ensures ask == a && transient == isTransient && !off && !unresolved && start == 0 && fire == None
    {
      ask, transient, off, unresolved, start, fire := a, isTransient, false, false, 0, None;
    }
  }

  class Scheduler {
    const slots: array<nat>
    const secs: array<nat>

    ghost predicate Valid()
    {
      slots.Length == SLOTS && secs.Length == 60 && slots != secs
    }

    constructor ()
      ensures Valid() && fresh(slots) && fresh(secs) && Counts(slots[..], secs[..], multiset{})
    {
      slots := new nat[SLOTS](_ => 0);
      secs := new nat[60](_ => 0);
      new;
      forall s | 0 <= s < 60 ensures Sum(OfSecond(slots[..], s)) == 0 {
        SumOfZeros(OfSecond(slots[..], s));
      }
    }

    /** The chosen slot, in the minute of a time. */
    method Align(a: Ask, t: nat, now: nat, turn: nat, jitter: nat) returns (aligned: nat, ghost second: nat)
      requires Valid() && turn < PER_SECOND && jitter < GRANULARITY
      ensures OffsetMs(aligned) < Around(a) * 1000
      ensures aligned == MinuteOf(t) + (SlotOf(aligned) * GRANULARITY + jitter) * 1000
      ensures Chosen(a, slots[..], secs[..], now, turn, second, SlotOf(aligned))
    {
      var balance: nat;
      ghost var slot: nat;
      balance, second, slot := FindSmallest(slots, secs, now / 1000000 + 1, a, turn, jitter);
      LeastInside(slots[..], second * PER_SECOND, turn, PER_SECOND, PER_SECOND, slot);
      MinuteIsFromSeconds(t);
      aligned := t / 1000000 / 60 * 60 * 1000000 + balance * 1000;
      AlignedPlace(t, second, slot, jitter, Around(a));
    }

    /** noit_check_fake_last_check: a start in the past whose next grid point spreads the load. */
    method FakeLastCheck(c: Check, now: nat, turn: nat, jitter: nat)
      returns (lc: int, ghost aligned: nat, ghost k: int, ghost second: nat)
      requires Valid() && turn < PER_SECOND && jitter < GRANULARITY && now >= c.ask.periodMs * 1000
      modifies slots, secs
      ensures c.transient ==> slots[..] == old(slots[..]) && secs[..] == old(secs[..])
      ensures !c.transient ==> slots[..] == Changed(old(slots[..]), SlotOf(aligned), 1)
                               && secs[..] == Changed(old(secs[..]), OffsetMs(aligned) / 1000, 1)
      ensures c.transient || c.ask.periodMs == 0 ==> lc == now - c.ask.periodMs * 1000 == aligned
      ensures !c.transient && c.ask.periodMs > 0 ==>
                && Settled(aligned, c.ask.periodMs * 1000, now, lc, k)
                && OffsetMs(aligned) < Around(c.ask) * 1000
                && Chosen(c.ask, old(slots[..]), old(secs[..]), now, turn, second, SlotOf(aligned))
                && FirstStart(c.ask, old(slots[..]), old(secs[..]), now, turn, jitter, aligned, lc)
      ensures !c.transient && c.ask.periodMs > 0 ==> Promises(c.ask, old(secs[..]), now, second, OffsetMs(aligned))
    {
      var p := c.ask.periodMs * 1000;
      lc, k, second := now - p, 0, 0;
      var copy: nat := lc;
      if !c.transient && c.ask.periodMs > 0 {
        copy, second := Align(c.ask, copy, now, turn, jitter);
        lc, k := Settle(copy, p, now);
        Promised(c.ask, slots[..], secs[..], now, turn, second, SlotOf(copy), OffsetMs(copy));
        GivesStart(c.ask, slots[..], secs[..], now, turn, jitter, MinuteOf(now - p), p, second, SlotOf(copy), copy, lc, k);
      }
      aligned := copy;
      if !c.transient { Adjust(slots, secs, copy, 1); }
    }

    /** noit_check_schedule_next; time going backwards is fatal there and excluded here. Except at first, a
        check that still has to be resolved comes back every second. */
    method ScheduleNext(c: Check, last: Option<nat>, now: nat) returns (ms: int)
      requires Valid()
      requires c.ask.periodMs == 0 || c.off || now >= (if last.Some? then last.value else c.start)
      modifies c, slots, secs
      ensures c.ask == old(c.ask) && c.transient == old(c.transient) && c.off == old(c.off)
      ensures c.unresolved == old(c.unresolved)
      ensures var start := if last.Some? then last.value else old(c.start);
              if old(c.ask.periodMs) == 0 then
                ms == 0 && c.start == old(c.start) && c.fire == old(c.fire)
                && slots[..] == old(slots[..]) && secs[..] == old(secs[..])
              else if old(c.off) then
                && ms == 0 && c.start == 0 && c.fire == old(c.fire)
                && slots[..] == (if old(c.transient) then old(slots[..]) else Changed(old(slots[..]), SlotOf(start), -1))
                && secs[..] == (if old(c.transient) then old(secs[..]) else Changed(old(secs[..]), OffsetMs(start) / 1000, -1))
              else
                var p := if last.None? && old(c.unresolved) && old(c.ask.periodMs) > 1000 then 1000 else old(c.ask.periodMs);
                && c.start == start && c.fire == Some(NextFire(start, p, now))
                && ms == (NextFire(start, p, now) - now) / 1000
                && slots[..] == old(slots[..]) && secs[..] == old(secs[..])
    {
      if c.ask.periodMs == 0 { return 0; }
      if last.Some? { c.start := last.value; }
      if c.off {
        if !c.transient { Adjust(slots, secs, c.start, -1); }
        c.start := 0;
        return 0;
      }
      var p := c.ask.periodMs;
      if last.None? && c.unresolved && p > 1000 { p := 1000; }
      var tgt := FireTime(c.start, p, now);
      c.fire := Some(tgt);
      ms := (tgt - now) / 1000;
    }
  }

  lemma {:induction false} SumOfZeros(a: seq<nat>)
    requires forall i :: 0 <= i < |a| ==> a[i] == 0
    ensures Sum(a) == 0
  {
    if a != [] { SumOfZeros(a[..|a| - 1]); }
  }
}
