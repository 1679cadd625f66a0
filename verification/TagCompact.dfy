/** Compacting a tag array in place: drop what the validator refuses, squash the repeats of
    a sorted array, and size the canonical text that is printed afterwards. A tag is any
    type T with a decoded form and a canonical size. */
module TagCompact {
  import opened Bytes

  function Filter<T>(valid: T -> bool, s: seq<T>): (r: seq<T>)
    ensures |r| <= |s|
  {
    if s == [] then []
    else
      var r := Filter(valid, s[..|s| - 1]);
      if valid(s[|s| - 1]) then r + [s[|s| - 1]] else r
  }

  /** The first tag of every run of tags with the same decoded form. */
  function DedupBy<T>(dec: T -> bytes, s: seq<T>): (r: seq<T>)
    ensures |r| <= |s| && (s != [] ==> r != [])
  {
    if |s| <= 1 then s
    else
      var r := DedupBy(dec, s[..|s| - 1]);
      if dec(s[|s| - 1]) == dec(s[|s| - 2]) then r else r + [s[|s| - 1]]
  }

  function TotalSize<T>(size: T -> nat, s: seq<T>): nat
  {
    if s == [] then 0 else TotalSize(size, s[..|s| - 1]) + size(s[|s| - 1])
  }

  lemma DedupSnoc<T>(dec: T -> bytes, s: seq<T>, p: nat)
    requires 0 < p < |s|
    ensures DedupBy(dec, s[..p + 1])
         == if dec(s[p]) == dec(s[p - 1]) then DedupBy(dec, s[..p]) else DedupBy(dec, s[..p]) + [s[p]]
  {
    assert s[..p + 1][..p] == s[..p];
  }

  lemma TotalSnoc<T>(size: T -> nat, s: seq<T>, i: nat)
    requires i < |s|
    ensures TotalSize(size, s[..i + 1]) == TotalSize(size, s[..i]) + size(s[i])
  {
    assert s[..i + 1][..i] == s[..i];
  }

  lemma {:induction false} DedupRun<T>(dec: T -> bytes, s: seq<T>, p: nat, q: nat)
    requires 0 < p <= q <= |s|
    requires forall i :: p <= i < q ==> dec(s[i]) == dec(s[p - 1])
    ensures DedupBy(dec, s[..q]) == DedupBy(dec, s[..p])
    ensures dec(s[q - 1]) == dec(s[p - 1])
    decreases q
  {
    if p < q {
      DedupRun(dec, s, p, q - 1);
      DedupSnoc(dec, s, q - 1);
    }
  }

  function Without<T>(s: seq<T>, i: nat): (r: seq<T>)
    requires i < |s|
    ensures |r| == |s| - 1
  {
    s[..i] + s[i + 1..]
  }

  /** memmove of the elements after at down by one. */
  method RemoveAt<T>(tags: array<T>, at: nat, n: nat)
    requires at < n <= tags.Length
    modifies tags
    ensures tags[..n - 1] == Without(old(tags[..n]), at)
  {
    forall i | at <= i < n - 1 { tags[i] := tags[i + 1]; }
  }

  lemma {:induction false} FilterCons<T>(valid: T -> bool, x: T, s: seq<T>)
    ensures Filter(valid, [x] + s) == (if valid(x) then [x] else []) + Filter(valid, s)
  {
    if s == [] {
      assert ([x] + s)[..0] == [];
    } else {
      FilterCons(valid, x, s[..|s| - 1]);
      assert ([x] + s)[..|s|] == [x] + s[..|s| - 1];
    }
  }

  /** What the array becomes when the tags before counter are kept and the others are filtered. */
  ghost function Pending<T>(valid: T -> bool, now: seq<T>, counter: nat): seq<T>
    requires counter <= |now|
  {
    now[..counter] + Filter(valid, now[counter..])
  }

  lemma Around<T>(now: seq<T>, counter: nat)
    requires counter < |now|
    ensures now[counter..] == [now[counter]] + now[counter + 1..]
    ensures now[..counter + 1] == now[..counter] + [now[counter]]
    ensures Without(now, counter)[..counter] == now[..counter]
    ensures Without(now, counter)[counter..] == now[counter + 1..]
  {}

  lemma FilterStep<T>(valid: T -> bool, now: seq<T>, counter: nat)
    requires counter < |now|
    ensures Pending(valid, now, counter)
         == if valid(now[counter]) then Pending(valid, now, counter + 1)
            else Pending(valid, Without(now, counter), counter)
  {
    var front, x, rest := now[..counter], now[counter], now[counter + 1..];
    Around(now, counter);
    FilterCons(valid, x, rest);
    assert front + ([x] + Filter(valid, rest)) == now[..counter + 1] + Filter(valid, rest);
  }

  lemma FilterEnds<T>(valid: T -> bool, now: seq<T>)
    ensures Pending(valid, now, 0) == Filter(valid, now)
    ensures Pending(valid, now, |now|) == now
  {
    assert now[0..] == now && now[|now|..] == [];
  }

  /** One round: closes the gap over a refused tag, or moves on. */
  method FilterRound<T>(tags: array<T>, k: nat, counter: nat, valid: T -> bool)
    returns (k': nat, counter': nat)
    requires counter < k <= tags.Length
    modifies tags
    ensures counter' <= k' <= k && k' - counter' == k - counter - 1
    ensures Pending(valid, tags[..k'], counter') == Pending(valid, old(tags[..k]), counter)
  {
    FilterStep(valid, tags[..k], counter);
    if !valid(tags[counter]) {
      RemoveAt(tags, counter, k);
      return k - 1, counter;
    }
    return k, counter + 1;
  }

  /** Squeezes the refused tags out, moving the rest of the array down each time. */
  method FilterInPlace<T>(tags: array<T>, n: nat, valid: T -> bool) returns (k: nat)
    requires n <= tags.Length
    modifies tags
    ensures k <= n && tags[..k] == Filter(valid, old(tags[..n]))
  {
    k := n;
    var counter: nat := 0;
    FilterEnds(valid, tags[..n]);
    while counter < k
      invariant counter <= k <= n
      invariant Pending(valid, tags[..k], counter) == Filter(valid, old(tags[..n]))
    {
      k, counter := FilterRound(tags, k, counter, valid);
    }
    FilterEnds(valid, tags[..k]);
  }

  /** Moves right past every tag whose decoded form is the one at left. */
  method SkipEqual<T>(tags: array<T>, n: nat, dec: T -> bytes, left: nat, start: nat) returns (right: nat)
    requires left < start < n <= tags.Length
    ensures start <= right <= n
    ensures forall i :: start <= i < right ==> dec(tags[i]) == dec(tags[left])
    ensures right < n ==> dec(tags[right]) != dec(tags[left])
  {
    right := start;
    while right < n
      invariant start <= right <= n
      invariant forall i :: start <= i < right ==> dec(tags[i]) == dec(tags[left])
    {
      CompareIsOrder(dec(tags[left]), dec(tags[right]));
      if Compare(dec(tags[left]), dec(tags[right])) != 0 { return; }
      right := right + 1;
    }
  }

  /** What the squash loop keeps: the first left + 1 slots are the squashed first p tags,
      and from right on the array is untouched. */
  ghost predicate Squashed<T>(now: seq<T>, was: seq<T>, dec: T -> bytes, left: nat, right: nat, p: nat)
  {
    && |now| == |was| && left < right <= |was| && 0 < p <= |was| && right <= p <= right + 1
    && now[..left + 1] == DedupBy(dec, was[..p])
    && now[left] == was[p - 1]
    && now[right..] == was[right..]
  }

  /** The tags from right to right' have the decoded form of the last tag squashed. */
  lemma SquashRun<T>(now: seq<T>, was: seq<T>, dec: T -> bytes, left: nat, right: nat, p: nat, right': nat)
    requires Squashed(now, was, dec, left, right, p)
    requires right <= right' <= |was|
    requires forall i :: right <= i < right' ==> dec(now[i]) == dec(now[left])
    requires right' < |was| ==> dec(now[right']) != dec(now[left])
    ensures forall i :: right <= i < |was| ==> now[i] == was[i]
    ensures p <= right' && now[..left + 1] == DedupBy(dec, was[..right'])
    ensures dec(was[right' - 1]) == dec(now[left])
  {
    forall i | right <= i < |was| ensures now[i] == was[i] {
      assert now[right..][i - right] == was[right..][i - right];
    }
    DedupRun(dec, was, p, right');
  }

  lemma SquashEnd<T>(now: seq<T>, was: seq<T>, dec: T -> bytes, left: nat, right: nat, p: nat)
    requires Squashed(now, was, dec, left, right, p)
    requires forall i :: right <= i < |was| ==> dec(now[i]) == dec(now[left])
    ensures now[..left + 1] == DedupBy(dec, was)
  {
    SquashRun(now, was, dec, left, right, p, |was|);
    assert was[..|was|] == was;
  }

  lemma SquashStep<T>(now: seq<T>, was: seq<T>, dec: T -> bytes, left: nat, right: nat, p: nat, right': nat)
    requires Squashed(now, was, dec, left, right, p)
    requires right <= right' < |was|
    requires forall i :: right <= i < right' ==> dec(now[i]) == dec(now[left])
    requires dec(now[right']) != dec(now[left])
    ensures now[right'] == was[right'] && p <= right'
    ensures Squashed(now[left + 1 := was[right']], was, dec, left + 1,
                     if left + 1 == right' then right' + 1 else right', right' + 1)
  {
    SquashRun(now, was, dec, left, right, p, right');
    DedupSnoc(dec, was, right');
    var next := now[left + 1 := was[right']];
    assert next[..left + 2] == now[..left + 1] + [was[right']];
  }

  lemma KeepsFront<T>(s: seq<T>, i: nat, x: T)
    requires i < |s|
    ensures s[i := x][..i] == s[..i]
  {}

  /** Copies the tag at right down to left, or moves right on when it is there already. */
  method CopyDown<T>(tags: array<T>, n: nat, left: nat, right: nat) returns (right': nat)
    requires left <= right < n <= tags.Length
    modifies tags
    ensures tags[..n] == old(tags[..n])[left := old(tags[..n])[right]]
    ensures right' == if left == right then right + 1 else right
  {
    right' := right;
    if left != right {
      tags[left] := tags[right];
    } else {
      right' := right + 1;
    }
  }

  /** One round of the squash loop: skips what equals the tag at left, and then ends or copies down.
      After a copy the right index still points at the tag just copied, and the next round skips it. */
  method SquashRound<T>(tags: array<T>, n: nat, dec: T -> bytes, left: nat, right: nat,
                        ghost now: seq<T>, ghost was: seq<T>, ghost p: nat)
    returns (over: bool, right': nat, ghost p': nat)
    requires right < n <= tags.Length && now == tags[..n] && Squashed(now, was, dec, left, right, p)
    modifies tags
    ensures left < n && (over ==> tags[..n] == now && now[..left + 1] == DedupBy(dec, was))
    ensures !over ==> left + 1 < n && tags[..n][..left + 1] == now[..left + 1]
    ensures !over ==> Squashed(tags[..n], was, dec, left + 1, right', p') && p < p' <= n
  {
    right' := SkipEqual(tags, n, dec, left, right);
    p' := p;
    if right' >= n {
      SquashEnd(now, was, dec, left, right, p);
      return true, right', p';
    }
    SquashStep(now, was, dec, left, right, p, right');
    p' := right' + 1;
    KeepsFront(now, left + 1, was[right']);
    right' := CopyDown(tags, n, left + 1, right');
    over := false;
  }

  lemma FrontOf<T>(s: seq<T>, n: nat, k: nat)
    requires k <= n <= |s|
    ensures s[..n][..k] == s[..k]
  {}

  /** The squash loop, with its two moving indexes and its running size. */
  method Squash<T>(tags: array<T>, n: nat, dec: T -> bytes, size: T -> nat) returns (k: nat, total: nat)
    requires 0 < n <= tags.Length
    modifies tags
    ensures 0 < k <= n && tags[..k] == DedupBy(dec, old(tags[..n]))
    ensures total == TotalSize(size, tags[..k]) + k - 1
  {
    ghost var was, now, p: nat := tags[..n], tags[..n], 1;
    var left: nat, right: nat, sum, over := 0, 1, 0, false;
    while right < n
      invariant left < n && now == tags[..n] && Squashed(now, was, dec, left, right, p) && p <= n
      invariant sum == TotalSize(size, now[..left])
      decreases n - p
    {
      TotalSnoc(size, now, left);
      sum := sum + size(tags[left]);
      over, right, p := SquashRound(tags, n, dec, left, right, now, was, p);
      if over {
        FrontOf(tags[..], n, left + 1);
        return left + 1, sum + left;
      }
      now := tags[..n];
      left := left + 1;
    }
    SquashEnd(now, was, dec, left, right, p);
    TotalSnoc(size, now, left);
    FrontOf(tags[..], n, left + 1);
    return left + 1, sum + size(tags[left]) + left;
  }

  ghost predicate SortedBy<T>(dec: T -> bytes, s: seq<T>)
  {
    forall i, j :: 0 <= i < j < |s| ==> Le(dec(s[i]), dec(s[j]))
  }

  ghost predicate StrictlySortedBy<T>(dec: T -> bytes, s: seq<T>)
  {
    forall i, j :: 0 <= i < j < |s| ==> Lt(dec(s[i]), dec(s[j]))
  }

  function Compacted<T>(valid: T -> bool, dec: T -> bytes, sorted: seq<T>): seq<T>
  {
    DedupBy(dec, Filter(valid, sorted))
  }

  /** noit_metric_tags_compact_with_context, given what qsort made of the tags. */
  method Compact<T>(tags: array<T>, sorted: seq<T>, valid: T -> bool, dec: T -> bytes, size: T -> nat)
      returns (k: nat, total: nat)
    requires |sorted| == tags.Length && multiset(sorted) == multiset(tags[..])
    modifies tags
    ensures k <= tags.Length && tags[..k] == Compacted(valid, dec, sorted)
    ensures total == TotalSize(size, tags[..k]) + if k == 0 then 0 else k - 1
  {
    if tags.Length == 0 { return 0, 0; }
    if tags.Length == 1 {
      OnlyOne(tags[..], sorted);
      assert sorted[..0] == [] && tags[..0] == [];
      if !valid(tags[0]) { return 0, 0; }
      assert tags[..1] == sorted;
      return 1, size(tags[0]);
    }
    forall i | 0 <= i < tags.Length { tags[i] := sorted[i]; }
    assert tags[..tags.Length] == sorted;
    var n := FilterInPlace(tags, tags.Length, valid);
    if n == 0 { return 0, 0; }
    k, total := Squash(tags, n, dec, size);
  }

  lemma OnlyOne<T>(s: seq<T>, t: seq<T>)
    requires |s| == |t| == 1 && multiset(s) == multiset(t)
    ensures s == t
  {
    assert s == [s[0]] && t == [t[0]];
    assert s[0] in multiset(t);
  }

  lemma SnocMembers<T>(s: seq<T>, x: T)
    requires s != []
    ensures x in s <==> x in s[..|s| - 1] || x == s[|s| - 1]
  {
    assert s == s[..|s| - 1] + [s[|s| - 1]];
  }

  lemma AppendSorted<T>(dec: T -> bytes, r: seq<T>, last: T)
    requires SortedBy(dec, r) && forall i :: 0 <= i < |r| ==> Le(dec(r[i]), dec(last))
    ensures SortedBy(dec, r + [last])
  {}

  lemma {:induction false} FilterMembers<T>(valid: T -> bool, s: seq<T>, x: T)
    ensures x in Filter(valid, s) <==> x in s && valid(x)
  {
    if s != [] {
      FilterMembers(valid, s[..|s| - 1], x);
      SnocMembers(s, x);
    }
  }

  lemma {:induction false} FilterSorted<T>(valid: T -> bool, s: seq<T>, dec: T -> bytes)
    requires SortedBy(dec, s)
    ensures SortedBy(dec, Filter(valid, s))
  {
    if s != [] {
      var init, last := s[..|s| - 1], s[|s| - 1];
      FilterSorted(valid, init, dec);
      var r := Filter(valid, init);
      forall i | 0 <= i < |r| ensures Le(dec(r[i]), dec(last)) {
        FilterMembers(valid, init, r[i]);
      }
      AppendSorted(dec, r, last);
    }
  }

  /** The last tag kept has the decoded form of the last tag. */
  lemma {:induction false} DedupLast<T>(dec: T -> bytes, s: seq<T>)
    requires s != []
    ensures var r := DedupBy(dec, s); dec(r[|r| - 1]) == dec(s[|s| - 1])
  {
    if |s| > 1 { DedupLast(dec, s[..|s| - 1]); }
  }

  lemma AppendStrict<T>(dec: T -> bytes, r: seq<T>, last: T)
    requires StrictlySortedBy(dec, r) && (r != [] ==> Lt(dec(r[|r| - 1]), dec(last)))
    ensures StrictlySortedBy(dec, r + [last])
  {
    forall i | 0 <= i < |r| - 1 ensures Lt(dec(r[i]), dec(last)) {
      LtTransitive(dec(r[i]), dec(r[|r| - 1]), dec(last));
    }
  }

  lemma {:induction false} DedupStrict<T>(dec: T -> bytes, s: seq<T>)
    requires SortedBy(dec, s)
    ensures StrictlySortedBy(dec, DedupBy(dec, s))
  {
    if |s| > 1 {
      var init := s[..|s| - 1];
      DedupStrict(dec, init);
      DedupLast(dec, init);
      if dec(s[|s| - 1]) != dec(s[|s| - 2]) { AppendStrict(dec, DedupBy(dec, init), s[|s| - 1]); }
    }
  }

  lemma {:induction false} DedupMembers<T>(dec: T -> bytes, s: seq<T>, x: T)
    ensures x in DedupBy(dec, s) ==> x in s
    ensures x in s ==> exists y :: y in DedupBy(dec, s) && dec(y) == dec(x)
  {
    if |s| > 1 {
      var init := s[..|s| - 1];
      SnocMembers(s, x);
      DedupMembers(dec, init, x);
      DedupLast(dec, s);
      var r := DedupBy(dec, s);
      assert r[|r| - 1] in r;
      if x in init {
        var y :| y in DedupBy(dec, init) && dec(y) == dec(x);
        assert y in r;
      }
    }
  }

  lemma InitLast<T>(s: seq<T>)
    requires s != []
    ensures s[..|s| - 1] + [s[|s| - 1]] == s
  {}

  lemma StrictDiffers<T>(dec: T -> bytes, s: seq<T>)
    requires StrictlySortedBy(dec, s)
    ensures forall i :: 0 < i < |s| ==> dec(s[i]) != dec(s[i - 1])
  {
    forall i | 0 < i < |s| ensures dec(s[i]) != dec(s[i - 1]) {
      Trichotomy(dec(s[i - 1]), dec(s[i]));
    }
  }

  lemma {:induction false} DedupFixed<T>(dec: T -> bytes, s: seq<T>)
    requires forall i :: 0 < i < |s| ==> dec(s[i]) != dec(s[i - 1])
    ensures DedupBy(dec, s) == s
  {
    if |s| > 1 {
      DedupFixed(dec, s[..|s| - 1]);
      InitLast(s);
    }
  }

  lemma {:induction false} FilterAll<T>(s: seq<T>)
    ensures Filter(_ => true, s) == s
  {
    if s != [] {
      FilterAll(s[..|s| - 1]);
      InitLast(s);
    }
  }

  /** A strictly sorted array has nothing to compact. */
  lemma CompactedFixed<T>(dec: T -> bytes, s: seq<T>)
    requires StrictlySortedBy(dec, s)
    ensures Compacted(_ => true, dec, s) == s
  {
    FilterAll(s);
    StrictDiffers(dec, s);
    DedupFixed(dec, s);
  }

  lemma SameKeysSorted<T>(dec: T -> bytes, s: seq<T>, t: seq<T>)
    requires |s| == |t| && forall i :: 0 <= i < |s| ==> dec(t[i]) == dec(s[i])
    requires StrictlySortedBy(dec, s)
    ensures StrictlySortedBy(dec, t)
  {}

  /** Compaction keeps exactly the tags the validator admits, one of each decoded form, in
      strictly increasing order, whatever sorted order qsort chose. */
  lemma CompactedIs<T>(tags: seq<T>, sorted: seq<T>, valid: T -> bool, dec: T -> bytes, x: T)
    requires SortedBy(dec, sorted) && multiset(sorted) == multiset(tags)
    ensures StrictlySortedBy(dec, Compacted(valid, dec, sorted))
    ensures x in Compacted(valid, dec, sorted) ==> x in tags && valid(x)
    ensures x in tags && valid(x) ==> exists y :: y in Compacted(valid, dec, sorted) && dec(y) == dec(x)
  {
    assert x in sorted <==> x in multiset(sorted);
    assert x in tags <==> x in multiset(tags);
    FilterMembers(valid, sorted, x);
    FilterSorted(valid, sorted, dec);
    DedupStrict(dec, Filter(valid, sorted));
    DedupMembers(dec, Filter(valid, sorted), x);
  }
}
