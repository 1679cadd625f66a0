/** Sorting decoded tags and dropping repeats. */
module TagOrder {
  import opened Bytes

  /** Puts x into a strictly sorted list, or leaves the list alone if x is there. */
  function Insert(x: bytes, s: seq<bytes>): seq<bytes>
  {
    if s == [] || Lt(x, s[0]) then [x] + s
    else if x == s[0] then s
    else [s[0]] + Insert(x, s[1..])
  }

  /** The tags without repeats, in order. */
  function SortDedup(s: seq<bytes>): seq<bytes>
  {
    if s == [] then [] else Insert(s[0], SortDedup(s[1..]))
  }

  lemma ConsSorted(x: bytes, s: seq<bytes>)
    requires StrictlySorted(s) && forall y :: y in s ==> Lt(x, y)
    ensures StrictlySorted([x] + s)
  {}

  lemma InsertFirst(x: bytes, s: seq<bytes>)
    requires StrictlySorted(s) && s != [] && Lt(x, s[0])
    ensures StrictlySorted([x] + s)
  {
    forall y | y in s ensures Lt(x, y) {
      if y != s[0] { LtTransitive(x, s[0], y); }
    }
    ConsSorted(x, s);
  }

  lemma InsertLater(x: bytes, s: seq<bytes>, r: seq<bytes>)
    requires StrictlySorted(s) && s != [] && Lt(s[0], x)
    requires StrictlySorted(r) && Elements(r) == Elements(s[1..]) + {x}
    ensures StrictlySorted([s[0]] + r) && Elements([s[0]] + r) == Elements(s) + {x}
  {
    forall y | y in r ensures Lt(s[0], y) {
      assert y in Elements(r);
    }
    ConsSorted(s[0], r);
    ElementsCons(s[0], r);
    ElementsCons(s[0], s[1..]);
    assert s == [s[0]] + s[1..];
  }

  lemma {:induction false} InsertSorted(x: bytes, s: seq<bytes>)
    requires StrictlySorted(s)
    ensures StrictlySorted(Insert(x, s))
    ensures Elements(Insert(x, s)) == Elements(s) + {x}
    ensures |Insert(x, s)| <= |s| + 1
  {
    if s != [] && Lt(x, s[0]) {
      InsertFirst(x, s);
    } else if s != [] && x != s[0] {
      Trichotomy(x, s[0]);
      InsertSorted(x, s[1..]);
      InsertLater(x, s, Insert(x, s[1..]));
    } else if s != [] {
      assert s[0] in Elements(s);
    }
  }

  lemma {:induction false} SortDedupSorts(s: seq<bytes>)
    ensures StrictlySorted(SortDedup(s))
    ensures Elements(SortDedup(s)) == Elements(s)
    ensures |SortDedup(s)| <= |s|
  {
    if s != [] {
      SortDedupSorts(s[1..]);
      InsertSorted(s[0], SortDedup(s[1..]));
      assert s == [s[0]] + s[1..];
    }
  }

  /** The result depends only on the set of tags. */
  lemma SortDedupOfSet(s: seq<bytes>, t: seq<bytes>)
    requires Elements(s) == Elements(t)
    ensures SortDedup(s) == SortDedup(t)
  {
    SortDedupSorts(s);
    SortDedupSorts(t);
    StrictlySortedUnique(SortDedup(s), SortDedup(t));
  }

  lemma SortDedupStable(s: seq<bytes>)
    requires StrictlySorted(s)
    ensures SortDedup(s) == s
  {
    SortDedupSorts(s);
    StrictlySortedUnique(SortDedup(s), s);
  }

  lemma RemoveRepeat(s: seq<bytes>, i: nat)
    requires i + 1 < |s| && s[i] == s[i + 1] && Sorted(s)
    ensures Sorted(s[..i] + s[i + 1..])
    ensures Elements(s[..i] + s[i + 1..]) == Elements(s)
  {
    var t := s[..i] + s[i + 1..];
    forall x | x in s ensures x in t {
      var j :| 0 <= j < |s| && s[j] == x;
      assert x == if j < i then t[j] else if j == i then t[i] else t[j - 1];
    }
  }

  lemma AdjacentStrict(s: seq<bytes>)
    requires Sorted(s) && forall k :: 0 <= k < |s| - 1 ==> s[k] != s[k + 1]
    ensures StrictlySorted(s)
  {
    forall i, j | 0 <= i < j < |s| ensures Lt(s[i], s[j]) {
      assert Le(s[i], s[i + 1]);
      assert s[i] != s[i + 1];
      if i + 1 < j {
        assert Le(s[i + 1], s[j]);
        if s[i + 1] != s[j] { LtTransitive(s[i], s[i + 1], s[j]); }
      }
    }
  }

  /** tags_sort_dedup after qsort has put the tags in some sorted order: walks the tags,
      closing the gap over every one that equals its successor. */
  method DedupSorted(tags: seq<bytes>, sorted: seq<bytes>) returns (out: seq<bytes>)
    requires Sorted(sorted) && Elements(sorted) == Elements(tags)
    ensures out == SortDedup(tags)
  {
    out := sorted;
    var i := 0;
    while i + 1 < |out|
      invariant 0 <= i && Sorted(out) && Elements(out) == Elements(tags)
      invariant i <= |out| && forall k :: 0 <= k < i && k + 1 < |out| ==> out[k] != out[k + 1]
      decreases |out| - i
    {
      CompareIsOrder(out[i], out[i + 1]);
      if Compare(out[i], out[i + 1]) == 0 {
        RemoveRepeat(out, i);
        out := out[..i] + out[i + 1..];
      } else {
        i := i + 1;
      }
    }
    AdjacentStrict(out);
    SortDedupSorts(tags);
    StrictlySortedUnique(out, SortDedup(tags));
  }
}
