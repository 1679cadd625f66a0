/** Threads that find the map full, remember the generation they saw under the read lock, and then
    grow the map under the write lock, in any order. */
module LmdbResize {
  /** waiting has the generation each waiting thread saw, and grown, for each growth, the
      generation its thread had seen. */
  datatype State = State(size: nat, generation: nat, waiting: map<int, nat>, grown: seq<nat>)

  datatype Step =
    | Fill(thread: int)
    | Resize(thread: int)

  /** NOIT_LMDB_RESIZE_FACTOR times the size, plus the remainder by the page size. */
  function Grow(size: nat, page: nat): nat
    requires page > 0
  {
    2 * size + 2 * size % page
  }

  predicate Enabled(s: State, step: Step)
  {
    match step
    case Fill(t) => t !in s.waiting
    case Resize(t) => t in s.waiting
  }

  /** noit_lmdb_resize_instance does nothing when the generation has moved on. */
  function Do(s: State, step: Step, page: nat): State
    requires page > 0 && Enabled(s, step)
  {
    match step
    case Fill(t) => s.(waiting := s.waiting[t := s.generation])
    case Resize(t) =>
      var left := s.waiting - {t};
      if s.waiting[t] != s.generation then s.(waiting := left)
      else State(Grow(s.size, page), s.generation + 1, left, s.grown + [s.waiting[t]])
  }

  predicate Runs(s: State, steps: seq<Step>, page: nat)
    requires page > 0
    decreases |steps|
  {
    steps == [] || (Enabled(s, steps[0]) && Runs(Do(s, steps[0], page), steps[1..], page))
  }

  function Run(s: State, steps: seq<Step>, page: nat): State
    requires page > 0 && Runs(s, steps, page)
    decreases |steps|
  {
    if steps == [] then s else Run(Do(s, steps[0], page), steps[1..], page)
  }

  function Start(size: nat): State { State(size, 0, map[], []) }

  function Sizes(size: nat, n: nat, page: nat): nat
    requires page > 0
  {
    if n == 0 then size else Grow(Sizes(size, n - 1, page), page)
  }

  /** Every generation before the present one was seen by the thread of exactly one growth. */
  ghost predicate Inv(s: State, size: nat, page: nat)
    requires page > 0
  {
    && s.size == Sizes(size, s.generation, page)
    && |s.grown| == s.generation && (forall i :: 0 <= i < |s.grown| ==> s.grown[i] == i)
    && forall t :: t in s.waiting ==> s.waiting[t] <= s.generation
  }

  lemma {:induction false} RunKeeps(s: State, steps: seq<Step>, size: nat, page: nat)
    requires page > 0 && Runs(s, steps, page) && Inv(s, size, page)
    ensures Inv(Run(s, steps, page), size, page) && s.generation <= Run(s, steps, page).generation
    decreases |steps|
  {
    if steps != [] { RunKeeps(Do(s, steps[0], page), steps[1..], size, page); }
  }

  /** However many threads find the same map full, and in whatever order they resize, no two
      growths are due to threads that saw the same generation, and the size is that of growing once
      per generation. */
  lemma GrownOncePerGeneration(size: nat, steps: seq<Step>, page: nat)
    requires page > 0 && Runs(Start(size), steps, page)
    ensures var s := Run(Start(size), steps, page);
            && (forall i, j :: 0 <= i < j < |s.grown| ==> s.grown[i] != s.grown[j])
            && (forall g :: 0 <= g < s.generation <==> g in s.grown)
            && s.size == Sizes(size, |s.grown|, page)
  {
    RunKeeps(Start(size), steps, size, page);
    var s := Run(Start(size), steps, page);
    forall g ensures 0 <= g < s.generation <==> g in s.grown {
      if 0 <= g < s.generation { assert s.grown[g] == g; }
    }
  }

  /** Threads that found the map full at one generation cause exactly one growth between them: the
      first to resize grows it, and from then on each of the others leaves it as it is. */
  lemma OneGrowthForAll(s: State, t: int, u: int, steps: seq<Step>, size: nat, page: nat)
    requires page > 0 && Inv(s, size, page) && t in s.waiting && u in s.waiting && t != u
    requires s.waiting[t] == s.waiting[u] && Resize(u) !in steps
    requires Runs(Do(s, Resize(t), page), steps, page)
    ensures var s' := Run(Do(s, Resize(t), page), steps, page);
            && u in s'.waiting && s.waiting[t] in s'.grown
            && Do(s', Resize(u), page) == s'.(waiting := s'.waiting - {u})
  {
    var s1 := Do(s, Resize(t), page);
    RunKeeps(s, [Resize(t)], size, page);
    assert Run(s, [Resize(t)], page) == s1;
    RunKeeps(s1, steps, size, page);
    WaitingKept(s1, u, steps, page);
    var s' := Run(s1, steps, page);
    assert s'.grown[s.waiting[t]] == s.waiting[t];
  }

  /** A thread that found the map full goes on with a later generation, whoever grew it. */
  lemma GrownForThread(s: State, t: int, steps: seq<Step>, size: nat, page: nat)
    requires page > 0 && Inv(s, size, page) && t !in s.waiting
    requires Runs(Do(s, Fill(t), page), steps, page) && Resize(t) !in steps
    ensures var s' := Run(Do(s, Fill(t), page), steps, page);
            t in s'.waiting && s.generation in Do(s', Resize(t), page).grown
  {
    var full := Do(s, Fill(t), page);
    RunKeeps(full, steps, size, page);
    WaitingKept(full, t, steps, page);
    var s' := Run(full, steps, page);
    var grown := Do(s', Resize(t), page).grown;
    assert grown[s.generation] == s.generation;
  }

  lemma {:induction false} WaitingKept(s: State, t: int, steps: seq<Step>, page: nat)
    requires page > 0 && Runs(s, steps, page) && t in s.waiting && Resize(t) !in steps
    ensures t in Run(s, steps, page).waiting && Run(s, steps, page).waiting[t] == s.waiting[t]
    decreases |steps|
  {
    if steps != [] { WaitingKept(Do(s, steps[0], page), t, steps[1..], page); }
  }

  /** Adding the remainder is not rounding up: the new size is a whole number of pages exactly when
      four times the old one is. */
  lemma GrowIsWholePagesIff(size: nat, page: nat)
    requires page > 0
    ensures Grow(size, page) % page == 0 <==> 4 * size % page == 0
  {
    var x := 2 * size;
    var q, r := x / page, x % page;
    assert x == q * page + r;
    SameRemainder(x + r, page, q);
    SameRemainder(x + x, page, 2 * q);
    assert x + r - q * page == 2 * r;
    assert x + x - 2 * q * page == 2 * r;
  }

  lemma SameRemainder(x: int, page: int, q: int)
    requires page > 0
    ensures x % page == (x - q * page) % page
  {
    var a, b := x / page, (x - q * page) / page;
    var r, r' := x % page, (x - q * page) % page;
    assert (a - q - b) * page == r' - r;
    MultipleIsFar(a - q - b, page);
  }

  lemma MultipleIsFar(k: int, page: int)
    requires page > 0
    ensures k >= 1 ==> k * page >= page
    ensures k <= -1 ==> k * page <= -page
  {}

  function Power(n: nat): nat { if n == 0 then 1 else 2 * Power(n - 1) }

  /** A map that starts with whole pages only doubles, so no remainder is ever added. */
  lemma {:induction false} SizesDouble(size: nat, n: nat, page: nat)
    requires page > 0 && size % page == 0
    ensures Sizes(size, n, page) == size * Power(n) && Sizes(size, n, page) % page == 0
  {
    if n > 0 {
      SizesDouble(size, n - 1, page);
      DoubleIsWhole(Sizes(size, n - 1, page), page);
      DoubleProduct(size, Power(n - 1));
    }
  }

  lemma DoubleIsWhole(m: nat, page: nat)
    requires page > 0 && m % page == 0
    ensures 2 * m % page == 0
  {
    var q := m / page;
    assert m == q * page;
    assert 2 * m - 2 * q * page == 0;
    SameRemainder(2 * m, page, 2 * q);
  }

  lemma DoubleProduct(a: nat, b: nat)
    ensures a * (2 * b) == 2 * (a * b)
  {}

  /** Over every run, a map that was opened at 64 MiB has a whole number of pages. */
  lemma MapIsWholePages(steps: seq<Step>, page: nat)
    requires page > 0 && 67108864 % page == 0 && Runs(Start(67108864), steps, page)
    ensures var s := Run(Start(67108864), steps, page);
            s.size == 67108864 * Power(|s.grown|) && s.size % page == 0
  {
    RunKeeps(Start(67108864), steps, 67108864, page);
    SizesDouble(67108864, Run(Start(67108864), steps, page).generation, page);
  }
}
