/** One table of a rule shared by threads: the test for room and the insertion are separate steps, and
    nothing holds the rule between them. */
module FilterThreads {
  import opened Options
  import opened Bytes
  import opened FilterRule
  import opened FilterLaws

  /** The part with its table, and the threads that have passed the test with the value each will add. */
  datatype Shared = Shared(part: Part, adding: map<int, bytes>)

  datatype Step =
    | Test(thread: int, value: bytes)
    | Insert(thread: int)
    | GiveUp(thread: int)
    | Empty

  predicate Enabled(s: Shared, threads: set<int>, st: Step)
  {
    match st
    case Test(t, _) => t in threads && t !in s.adding && Room(s.part)
    case Insert(t) => t in s.adding
    case GiveUp(t) => t in s.adding
    case Empty => true
  }

  /** A thread gives up when another part of the rule has no room; any thread may flush. */
  function Do(s: Shared, threads: set<int>, st: Step): Shared
    requires Enabled(s, threads, st)
  {
    match st
    case Test(t, v) => s.(adding := s.adding[t := v])
    case Insert(t) => Shared(AddPart(s.part, s.adding[t]), s.adding - {t})
    case GiveUp(t) => s.(adding := s.adding - {t})
    case Empty => s.(part := FlushPart(s.part))
  }

  predicate IsRun(s: Shared, threads: set<int>, steps: seq<Step>)
    decreases |steps|, 0
  {
    steps == [] || (IsRun(s, threads, steps[..|steps| - 1])
                    && Enabled(After(s, threads, steps[..|steps| - 1]), threads, steps[|steps| - 1]))
  }

  function After(s: Shared, threads: set<int>, steps: seq<Step>): Shared
    requires IsRun(s, threads, steps)
    decreases |steps|, 1
  {
    if steps == [] then s else Do(After(s, threads, steps[..|steps| - 1]), threads, steps[|steps| - 1])
  }

  /** A flush may come at any time, and leaves the threads that are about to add as they are. */
  lemma FlushAnytime(s: Shared, threads: set<int>)
    ensures Enabled(s, threads, Empty)
    ensures var s' := Do(s, threads, Empty);
            s'.adding == s.adding && (s.part.table.Some? && s.part.auto != 0 ==> s'.part.table == Some({}))
  {}

  // ---------- the bound ----------

  /** The first size, or the limit and one more for every thread but one. */
  function Bound(first: Part, threads: set<int>): int
  {
    if Size(first) >= first.auto + |threads| - 1 then Size(first) else first.auto + |threads| - 1
  }

  ghost predicate Inv(s: Shared, first: Part, threads: set<int>)
  {
    s.part.auto == first.auto && s.adding.Keys <= threads && Size(s.part) + |s.adding.Keys| <= Bound(first, threads)
  }

  lemma TestKeeps(s: Shared, first: Part, threads: set<int>, t: int, v: bytes)
    requires Inv(s, first, threads) && Enabled(s, threads, Test(t, v))
    ensures Inv(Do(s, threads, Test(t, v)), first, threads)
  {
    var keys := s.adding.Keys + {t};
    assert s.adding[t := v].Keys == keys;
    SubsetSize(keys, threads);
  }

  lemma InsertKeeps(s: Shared, first: Part, threads: set<int>, t: int)
    requires Inv(s, first, threads) && t in s.adding
    ensures Inv(Do(s, threads, Insert(t)), first, threads) && Inv(Do(s, threads, GiveUp(t)), first, threads)
  {
    assert (s.adding - {t}).Keys == s.adding.Keys - {t};
    if s.part.table.Some? {
      var table, v := s.part.table.value, s.adding[t];
      if v in table { assert table + {v} == table; }
      assert |table + {v}| <= |table| + 1;
    }
  }

  lemma StepKeeps(s: Shared, first: Part, threads: set<int>, st: Step)
    requires Inv(s, first, threads) && Enabled(s, threads, st)
    ensures Inv(Do(s, threads, st), first, threads)
  {
    match st
    case Test(t, v) => TestKeeps(s, first, threads, t, v);
    case Insert(t) => InsertKeeps(s, first, threads, t);
    case GiveUp(t) => InsertKeeps(s, first, threads, t);
    case Empty =>
  }

  lemma {:induction false} RunKeeps(first: Part, threads: set<int>, steps: seq<Step>)
    requires threads != {} && IsRun(Shared(first, map[]), threads, steps)
    ensures Inv(After(Shared(first, map[]), threads, steps), first, threads)
  {
    if steps != [] {
      RunKeeps(first, threads, steps[..|steps| - 1]);
      StepKeeps(After(Shared(first, map[]), threads, steps[..|steps| - 1]), first, threads, steps[|steps| - 1]);
    }
  }

  /** Over every interleaving of some threads, the table stays within the larger of its first size and
      the limit plus the number of threads less one. */
  lemma SharedBounded(first: Part, threads: set<int>, steps: seq<Step>)
    requires threads != {} && IsRun(Shared(first, map[]), threads, steps)
    ensures Size(After(Shared(first, map[]), threads, steps).part) <= Bound(first, threads)
  {
    RunKeeps(first, threads, steps);
  }

  // ---------- and it is reached ----------

  /** Distinct values, told apart by their length. */
  function Value(i: nat): (v: bytes)
    ensures |v| == i
  {
    seq(i, _ => 0)
  }

  /** A table of so many values, all of them shorter than that. */
  ghost predicate Stocked(p: Part, auto: int, size: nat)
  {
    p.auto == auto && p.table.Some? && |p.table.value| == size && forall v :: v in p.table.value ==> |v| < size
  }

  /** ... and threads from j to n about to add the next values, in turn. */
  ghost predicate Stage(s: Shared, auto: int, m: nat, j: nat, n: nat)
  {
    && Stocked(s.part, auto, m + j) && (forall t :: t in s.adding <==> j <= t < n)
    && forall t :: t in s.adding ==> t >= 0 && |s.adding[t]| == m + t
  }

  lemma StockedAdds(p: Part, auto: int, size: nat, v: bytes)
    requires Stocked(p, auto, size) && |v| == size
    ensures Stocked(AddPart(p, v), auto, size + 1) && (Room(p) <==> size < auto)
  {
    var table := p.table.value;
    assert v !in table;
    assert |table + {v}| == size + 1;
  }

  ghost predicate Reaches(start: Shared, threads: set<int>, steps: seq<Step>, auto: int, m: nat, j: nat, n: nat)
  {
    IsRun(start, threads, steps) && Stage(After(start, threads, steps), auto, m, j, n)
  }

  lemma RunNext(start: Shared, threads: set<int>, steps: seq<Step>, st: Step)
    requires IsRun(start, threads, steps) && Enabled(After(start, threads, steps), threads, st)
    ensures IsRun(start, threads, steps + [st])
    ensures After(start, threads, steps + [st]) == Do(After(start, threads, steps), threads, st)
  {
    assert (steps + [st])[..|steps|] == steps;
  }

  lemma TestStage(s: Shared, threads: set<int>, auto: int, m: nat, n: nat)
    requires Stage(s, auto, m, 0, n) && n in threads && m < auto
    ensures Enabled(s, threads, Test(n, Value(m + n)))
    ensures Stage(Do(s, threads, Test(n, Value(m + n))), auto, m, 0, n + 1)
  {}

  lemma InsertStage(s: Shared, threads: set<int>, auto: int, m: nat, j: nat, n: nat)
    requires Stage(s, auto, m, j, n) && j < n
    ensures Enabled(s, threads, Insert(j)) && Stage(Do(s, threads, Insert(j)), auto, m, j + 1, n)
  {
    StockedAdds(s.part, auto, m + j, s.adding[j]);
  }

  lemma FillStage(s: Shared, threads: set<int>, auto: int, m: nat)
    requires Stage(s, auto, m, 0, 0) && m < auto && 0 in threads
    ensures Enabled(s, threads, Test(0, Value(m)))
    ensures var s' := Do(s, threads, Test(0, Value(m)));
            Enabled(s', threads, Insert(0)) && Stage(Do(s', threads, Insert(0)), auto, m + 1, 0, 0)
  {
    StockedAdds(s.part, auto, m, Value(m));
  }

  lemma {:induction false} Iterate<S(!new)>(ok: (S, nat) -> bool, next: (S, nat) -> S, s: S, n: nat) returns (r: S)
    requires ok(s, 0) && forall x, j: nat :: j < n && ok(x, j) ==> ok(next(x, j), j + 1)
    ensures ok(r, n)
  {
    if n == 0 {
      r := s;
    } else {
      var before := Iterate(ok, next, s, n - 1);
      r := next(before, n - 1);
    }
  }

  /** One thread alone fills the table. */
  lemma FillTable(start: Shared, threads: set<int>, auto: int, m: nat) returns (steps: seq<Step>)
    requires Stage(start, auto, 0, 0, 0) && 0 in threads && m <= auto
    ensures Reaches(start, threads, steps, auto, m, 0, 0)
  {
    var ok := (x: seq<Step>, i: nat) => Reaches(start, threads, x, auto, i, 0, 0);
    var next := (x: seq<Step>, i: nat) => x + [Test(0, Value(i))] + [Insert(0)];
    forall x, i: nat | i < m && ok(x, i) ensures ok(next(x, i), i + 1) {
      FillStage(After(start, threads, x), threads, auto, i);
      RunNext(start, threads, x, Test(0, Value(i)));
      RunNext(start, threads, x + [Test(0, Value(i))], Insert(0));
    }
    steps := Iterate(ok, next, [], m);
  }

  /** Every thread passes the test while there is room for one. */
  lemma AllTest(start: Shared, threads: set<int>, auto: int, m: nat, n: nat) returns (steps: seq<Step>)
    requires Stage(start, auto, 0, 0, 0) && 0 in threads && m < auto && forall t :: 0 <= t < n ==> t in threads
    ensures Reaches(start, threads, steps, auto, m, 0, n)
  {
    var ok := (x: seq<Step>, i: nat) => Reaches(start, threads, x, auto, m, 0, i);
    var next := (x: seq<Step>, i: nat) => x + [Test(i, Value(m + i))];
    forall x, i: nat | i < n && ok(x, i) ensures ok(next(x, i), i + 1) {
      TestStage(After(start, threads, x), threads, auto, m, i);
      RunNext(start, threads, x, Test(i, Value(m + i)));
    }
    var filled := FillTable(start, threads, auto, m);
    steps := Iterate(ok, next, filled, n);
  }

  /** Then each adds its value. */
  lemma AllInsert(start: Shared, threads: set<int>, auto: int, m: nat, n: nat) returns (steps: seq<Step>)
    requires Stage(start, auto, 0, 0, 0) && 0 in threads && m < auto && forall t :: 0 <= t < n ==> t in threads
    ensures Reaches(start, threads, steps, auto, m, n, n)
  {
    var ok := (x: seq<Step>, i: nat) => Reaches(start, threads, x, auto, m, i, n);
    var next := (x: seq<Step>, i: nat) => x + [Insert(i)];
    forall x, i: nat | i < n && ok(x, i) ensures ok(next(x, i), i + 1) {
      InsertStage(After(start, threads, x), threads, auto, m, i, n);
      RunNext(start, threads, x, Insert(i));
    }
    var tested := AllTest(start, threads, auto, m, n);
    steps := Iterate(ok, next, tested, n);
  }

  function Range(a: int, b: int): (r: set<int>)
    requires a <= b
    ensures |r| == b - a && forall t :: t in r <==> a <= t < b
    decreases b - a
  {
    if a == b then {} else Range(a, b - 1) + {b - 1}
  }

  /** For every positive limit and number of threads, threads that test before any of them adds bring
      an empty table to exactly that bound; with one thread it is the limit. */
  lemma SharedBoundReached(auto: int, n: nat) returns (steps: seq<Step>)
    requires auto > 0 && n > 0
    ensures var start := Shared(Part(Some({}), auto, None), map[]);
            && IsRun(start, Range(0, n), steps)
            && Size(After(start, Range(0, n), steps).part) == auto + n - 1 == Bound(start.part, Range(0, n))
  {
    steps := AllInsert(Shared(Part(Some({}), auto, None), map[]), Range(0, n), auto, auto - 1, n);
  }
}
