/** The slot tables of the scheduler: 20 ms slots over a minute, and counts per second. */
module ScheduleSlots {

  const GRANULARITY := 20
  const PER_SECOND := 50
  const SLOTS := 3000
  const WRAP := 65536
  const DEAD_ZONE := 3

  /** The position of the k-th step of a cyclic search. */
  function Cyclic(lo: nat, start: nat, around: nat, k: nat): nat
    requires around > 0
  {
    lo + (k + start) % around
  }

  /** Every place that a cyclic search may look at. */
  predicate Inside(n: nat, lo: nat, around: nat) { around > 0 && lo + around <= n }

  lemma CyclicInside(n: nat, lo: nat, start: nat, around: nat, k: nat)
    requires Inside(n, lo, around)
    ensures lo <= Cyclic(lo, start, around, k) < lo + around <= n
  {}

  /** The first place, in search order, of the least count below 65535; place 0 when there is none. */
  ghost predicate Least(a: seq<nat>, lo: nat, start: nat, around: nat, count: nat, r: nat)
    requires Inside(|a|, lo, around)
  {
    if exists k :: 0 <= k < count && a[Cyclic(lo, start, around, k)] < WRAP - 1 then
      exists k :: FoundAt(a, lo, start, around, count, r, k)
    else r == 0
  }

  ghost predicate FoundAt(a: seq<nat>, lo: nat, start: nat, around: nat, count: nat, r: nat, k: nat)
    requires Inside(|a|, lo, around)
  {
    && k < count && r == Cyclic(lo, start, around, k) && a[r] < WRAP - 1
    && (forall j :: 0 <= j < k ==> a[r] < a[Cyclic(lo, start, around, j)])
    && (forall j :: 0 <= j < count ==> a[r] <= a[Cyclic(lo, start, around, j)])
  }

  /** Both search loops: least so far from 65535 on, and only something smaller replaces it. */
  method FindLeast(a: array<nat>, lo: nat, start: nat, around: nat, count: nat) returns (r: nat)
    requires Inside(a.Length, lo, around)
    ensures Least(a[..], lo, start, around, count, r)
  {
    r := 0;
    var least := WRAP - 1;
    ghost var at: nat := 0;
    var i := 0;
    while i < count
      invariant 0 <= i <= count && least <= WRAP - 1
      invariant forall j :: 0 <= j < i ==> least <= a[..][Cyclic(lo, start, around, j)]
      invariant if least == WRAP - 1 then r == 0
                else at < i && r == Cyclic(lo, start, around, at) && a[..][r] == least
                     && forall j :: 0 <= j < at ==> least < a[..][Cyclic(lo, start, around, j)]
    {
      var p := Cyclic(lo, start, around, i);
      assert a[..][p] == a[p];
      if a[p] < least {
        least, r, at := a[p], p, i;
      }
      i := i + 1;
    }
    if least < WRAP - 1 {
      assert FoundAt(a[..], lo, start, around, count, r, at);
      assert a[..][Cyclic(lo, start, around, at)] < WRAP - 1;
    }
  }

  // ---------- choosing a slot ----------

  /** A period of a positive whole number of minutes, or of zero. */
  predicate WholeMinutes(periodMs: nat) { periodMs % 60000 == 0 }

  /** Seconds a prioritised check may start in: its timeout, but no less than ten seconds, is kept
      free at the end of the minute, and a dead zone always is. */
  function Allowed(timeoutMs: nat): (n: nat)
    ensures 10 <= n <= 57
  {
    var room := 60 - timeoutMs / 1000 - 1;
    var atLeast := if room > 10 then room else 10;
    if 60 - DEAD_ZONE < atLeast then 60 - DEAD_ZONE else atLeast
  }

  /** What a check asks for: period and timeout in milliseconds. */
  datatype Ask = Ask(periodMs: nat, timeoutMs: nat, priority: bool)

  predicate Prioritised(a: Ask) { a.priority && WholeMinutes(a.periodMs) }

  /** How many seconds are searched, and around how many. */
  function Around(a: Ask): (n: nat)
    ensures 10 <= n <= 60
  {
    if Prioritised(a) then Allowed(a.timeoutMs) else 60
  }

  function Searched(a: Ask): (n: nat)
    ensures n <= Around(a)
  {
    if Prioritised(a) then Allowed(a.timeoutMs) else if a.periodMs / 1000 > 60 then 60 else a.periodMs / 1000
  }

  /** With priority, a check of whole minutes may start in the seconds that leave its timeout and one
      second more, though at least in ten and at most in 57; any other check in all of the next seconds
      that its period has, up to a minute. */
  lemma WindowIs(a: Ask)
    ensures a.priority && a.periodMs % 60000 == 0 ==>
              var left := 59 - a.timeoutMs / 1000;
              Around(a) == Searched(a) == if left > 57 then 57 else if left < 10 then 10 else left
    ensures !a.priority || a.periodMs % 60000 != 0 ==>
              Around(a) == 60 && Searched(a) == if a.periodMs < 60000 then a.periodMs / 1000 else 60
  {}

  lemma Apart(d: int, p: int)
    requires p > 0
    ensures d >= 1 ==> d * p >= p
    ensures d <= -1 ==> d * p <= -p
  {}

  lemma RemainderIs(x: int, m: int, q: int, r: int)
    requires m > 0 && x == q * m + r && 0 <= r < m
    ensures x % m == r
  {
    var d := x / m - q;
    assert d * m == r - x % m;
    Apart(d, m);
  }

  /** A place of a cyclic search is reached at the step that its distance from the start says. */
  lemma ReachedAt(lo: nat, start: nat, around: nat, k: nat)
    requires k < around
    ensures (Cyclic(lo, start, around, k) - lo - start) % around == k
  {
    var x := k + start;
    assert x == x / around * around + x % around;
    RemainderIs(x % around - start, around, -(x / around), k);
  }

  lemma Reaches(lo: nat, start: nat, around: nat, p: nat)
    requires lo <= p < lo + around
    ensures Cyclic(lo, start, around, (p - lo - start) % around) == p
  {
    var x := p - lo - start;
    var k := x % around;
    assert x == x / around * around + k;
    RemainderIs(k + start, around, -(x / around), p - lo);
  }

  /** A place is one of the count places from start on, around. */
  predicate Near(p: int, lo: nat, start: nat, around: nat, count: nat)
    requires around > 0
  {
    lo <= p < lo + around && (p - lo - start) % around < count
  }

  /** The place found is one of those looked at, and none of them has a smaller count; only when all are
      at 65535 or more is it place 0. */
  lemma LeastIs(a: seq<nat>, lo: nat, start: nat, around: nat, count: nat, r: nat)
    requires around > 0 && lo + around <= |a| && count <= around && Least(a, lo, start, around, count, r)
    ensures (forall p :: Near(p, lo, start, around, count) ==> a[p] >= 65535) ==> r == 0
    ensures (exists p :: Near(p, lo, start, around, count) && a[p] < 65535) ==>
              Near(r, lo, start, around, count) && forall p :: Near(p, lo, start, around, count) ==> a[r] <= a[p]
  {
    if k: nat :| k < count && a[Cyclic(lo, start, around, k)] < WRAP - 1 {
      var j: nat :| FoundAt(a, lo, start, around, count, r, j);
      ReachedAt(lo, start, around, j);
      CyclicInside(|a|, lo, start, around, j);
      forall p | Near(p, lo, start, around, count) ensures a[r] <= a[p] { Reaches(lo, start, around, p); }
    } else {
      forall p | Near(p, lo, start, around, count) ensures a[p] >= 65535 { Reaches(lo, start, around, p); }
    }
  }

  /** check_slots_find_smallest, with its two random offsets given. */
  method FindSmallest(slots: array<nat>, secs: array<nat>, sec: nat, a: Ask, turn: nat, jitter: nat)
    returns (balance: nat, ghost second: nat, ghost slot: nat)
    requires slots.Length == SLOTS && secs.Length == 60 && turn < PER_SECOND && jitter < GRANULARITY
    ensures second < Around(a) && Least(secs[..], 0, sec, Around(a), Searched(a), second)
    ensures slot < SLOTS && Least(slots[..], second * PER_SECOND, turn, PER_SECOND, PER_SECOND, slot)
    ensures balance == slot * GRANULARITY + jitter && balance < 60000
  {
    var i := FindLeast(secs, 0, sec, Around(a), Searched(a));
    LeastInside(secs[..], 0, sec, Around(a), Searched(a), i);
    var j := FindLeast(slots, i * PER_SECOND, turn, PER_SECOND, PER_SECOND);
    LeastInside(slots[..], i * PER_SECOND, turn, PER_SECOND, PER_SECOND, j);
    second, slot := i, j;
    balance := j * GRANULARITY + jitter;
  }

  lemma LeastInside(a: seq<nat>, lo: nat, start: nat, around: nat, count: nat, r: nat)
    requires Inside(|a|, lo, around) && Least(a, lo, start, around, count, r)
    ensures r == 0 || lo <= r < lo + around
  {
    if exists k :: 0 <= k < count && a[Cyclic(lo, start, around, k)] < WRAP - 1 {
      var k :| FoundAt(a, lo, start, around, count, r, k);
      CyclicInside(|a|, lo, start, around, k);
    }
  }

  // ---------- counting ----------

  const MINUTE := 60000000

  /** The offset of a time within its minute, in milliseconds. */
  function OffsetMs(t: nat): (ms: nat)
    ensures ms < 60000
  {
    if t < MINUTE then t / 1000 else OffsetMs(t - MINUTE)
  }

  function SlotOf(t: nat): (j: nat)
    ensures j < SLOTS
  {
    OffsetMs(t) / GRANULARITY
  }

  lemma {:induction false} OffsetAfterMinutes(t: nat, k: nat)
    ensures OffsetMs(t + k * MINUTE) == OffsetMs(t)
  {
    if k > 0 {
      OffsetAfterMinutes(t, k - 1);
      assert t + k * MINUTE - MINUTE == t + (k - 1) * MINUTE;
    }
  }

  lemma OffsetOfMinutes(t: nat, k: int)
    requires t + k * MINUTE >= 0
    ensures OffsetMs(t + k * MINUTE) == OffsetMs(t)
  {
    if k >= 0 {
      OffsetAfterMinutes(t, k);
    } else {
      OffsetAfterMinutes(t + k * MINUTE, -k);
      assert t + k * MINUTE + -k * MINUTE == t;
    }
  }

  /** The source adds up the second of the minute and the milliseconds of the second. */
  function FromSeconds(sec: nat, usec: nat): nat { sec % 60 * 1000 + usec / 1000 }

  lemma OffsetIsFromSeconds(t: nat)
    ensures OffsetMs(t) == FromSeconds(t / 1000000, t % 1000000)
  {
    var sec, usec := t / 1000000, t % 1000000;
    var m, s := sec / 60, sec % 60;
    var u := s * 1000000 + usec;
    assert t == u + m * MINUTE;
    OffsetAfterMinutes(u, m);
    ThousandIs(u, s * 1000 + usec / 1000, usec % 1000);
  }

  lemma ThousandIs(x: int, q: int, r: int)
    requires x == 1000 * q + r && 0 <= r < 1000
    ensures x / 1000 == q
  {}

  /** Sixteen-bit addition. */
  function Wrapped(n: int): (w: nat)
    ensures w < WRAP
  {
    n % WRAP
  }

  function Sum(a: seq<nat>): nat { if a == [] then 0 else Sum(a[..|a| - 1]) + a[|a| - 1] }

  lemma {:induction false} SumUpdate(a: seq<nat>, i: nat, v: nat)
    requires i < |a|
    ensures Sum(a[i := v]) == Sum(a) - a[i] + v
  {
    var init := a[..|a| - 1];
    if i < |a| - 1 {
      SumUpdate(init, i, v);
      assert a[i := v][..|a| - 1] == init[i := v];
    } else {
      assert a[i := v][..|a| - 1] == init;
    }
  }

  ghost function OfSecond(slots: seq<nat>, s: nat): seq<nat>
    requires |slots| == SLOTS && s < 60
  {
    slots[s * PER_SECOND..(s + 1) * PER_SECOND]
  }

  /** Each slot counts the checks at its offset, and each second its fifty slots, in sixteen bits. */
  ghost predicate Counts(slots: seq<nat>, secs: seq<nat>, live: multiset<nat>)
  {
    |slots| == SLOTS && |secs| == 60 && SlotsCount(slots, live) && SecondsCount(slots, secs)
  }

  ghost predicate SlotsCount(slots: seq<nat>, live: multiset<nat>)
  {
    forall j :: 0 <= j < |slots| ==> slots[j] == Wrapped(live[j])
  }

  ghost predicate SecondsCount(slots: seq<nat>, secs: seq<nat>)
    requires |slots| == SLOTS && |secs| == 60
  {
    forall s :: 0 <= s < 60 ==> secs[s] == Wrapped(Sum(OfSecond(slots, s)))
  }

  /** A count changed in place. */
  function Changed(a: seq<nat>, i: nat, by': int): seq<nat>
    requires i < |a|
  {
    a[i := Wrapped(a[i] + by')]
  }

  /** The offset from seconds and microseconds. */
  method OffsetOf(sec: nat, usec: nat, ghost t: nat) returns (ms: nat)
    requires sec == t / 1000000 && usec == t % 1000000
    ensures ms == OffsetMs(t)
  {
    ms := sec % 60 * 1000 + usec / 1000;
    OffsetIsFromSeconds(t);
  }

  /** check_slots_adjust_tv. */
  method Adjust(slots: array<nat>, secs: array<nat>, t: nat, by': int)
    requires slots.Length == SLOTS && secs.Length == 60 && slots != secs
    modifies slots, secs
    ensures slots[..] == Changed(old(slots[..]), SlotOf(t), by')
    ensures secs[..] == Changed(old(secs[..]), OffsetMs(t) / 1000, by')
  {
    var ms := OffsetOf(t / 1000000, t % 1000000, t);
    slots[ms / GRANULARITY] := Wrapped(slots[ms / GRANULARITY] + by');
    secs[ms / 1000] := Wrapped(secs[ms / 1000] + by');
  }

  /** Changing a slot and its second by the same amount keeps the seconds in step. */
  lemma ChangeKeepsSums(slots: seq<nat>, secs: seq<nat>, j: nat, by': int, s: nat)
    requires |slots| == SLOTS && |secs| == 60 && j < SLOTS && s < 60
    requires secs[s] == Wrapped(Sum(OfSecond(slots, s)))
    ensures Changed(secs, j / PER_SECOND, by')[s] == Wrapped(Sum(OfSecond(Changed(slots, j, by'), s)))
  {
    var v := Wrapped(slots[j] + by');
    var part := OfSecond(slots, s);
    if s == j / PER_SECOND {
      var i := j - s * PER_SECOND;
      assert OfSecond(slots[j := v], s) == part[i := v];
      SumUpdate(part, i, v);
      assert part[i] == slots[j];
      WrapStep(Sum(part), slots[j], by');
    } else {
      assert OfSecond(slots[j := v], s) == part;
    }
  }

  lemma WrapStep(sum: int, slot: int, by': int)
    ensures Wrapped(Wrapped(sum) + by') == Wrapped(sum - slot + Wrapped(slot + by'))
  {}

  lemma WrapAdd(n: int, by': int)
    ensures Wrapped(Wrapped(n) + by') == Wrapped(n + by')
  {}

  ghost predicate Moved(live: multiset<nat>, live': multiset<nat>, j: nat, by': int)
  {
    forall i :: live'[i] == if i == j then live[i] + by' else live[i]
  }

  lemma SlotsChanged(slots: seq<nat>, live: multiset<nat>, live': multiset<nat>, j: nat, by': int)
    requires SlotsCount(slots, live) && j < |slots| && Moved(live, live', j, by')
    ensures SlotsCount(Changed(slots, j, by'), live')
  {
    WrapAdd(live[j], by');
  }

  lemma SecondsChanged(slots: seq<nat>, secs: seq<nat>, j: nat, by': int)
    requires |slots| == SLOTS && |secs| == 60 && j < SLOTS && SecondsCount(slots, secs)
    ensures SecondsCount(Changed(slots, j, by'), Changed(secs, j / PER_SECOND, by'))
  {
    forall s | 0 <= s < 60
      ensures Changed(secs, j / PER_SECOND, by')[s] == Wrapped(Sum(OfSecond(Changed(slots, j, by'), s)))
    {
      ChangeKeepsSums(slots, secs, j, by', s);
    }
  }

  /** A change at a time keeps the tables counting what is live. */
  lemma CountsChanged(slots: seq<nat>, secs: seq<nat>, live: multiset<nat>, live': multiset<nat>, t: nat, by': int)
    requires Counts(slots, secs, live) && Moved(live, live', SlotOf(t), by')
    ensures Counts(Changed(slots, SlotOf(t), by'), Changed(secs, OffsetMs(t) / 1000, by'), live')
  {
    SlotsChanged(slots, live, live', SlotOf(t), by');
    SecondsChanged(slots, secs, SlotOf(t), by');
    assert OffsetMs(t) / 1000 == SlotOf(t) / PER_SECOND;
  }
}
