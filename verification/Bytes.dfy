/** Byte strings, the order that memcmp followed by a length comparison gives them,
    and the one strictly sorted sequence that a finite set of byte strings has.
    The tag sorter and the LMDB key order both rest on this module. */
module Bytes {

  type byte = x: int | 0 <= x < 256

  type bytes = seq<byte>

  /** The position of the first difference of two strings, or the shorter length. */
  function FirstDifference(l: bytes, r: bytes): (k: nat)
    ensures k <= |l| && k <= |r|
    ensures l[..k] == r[..k]
    ensures k < |l| && k < |r| ==> l[k] != r[k]
  {
    if l == [] || r == [] || l[0] != r[0] then 0
    else
      var k := FirstDifference(l[1..], r[1..]);
      assert l[..k + 1] == [l[0]] + l[1..][..k];
      assert r[..k + 1] == [r[0]] + r[1..][..k];
      k + 1
  }

  /** memcmp over the common length, then the lengths. */
  function Compare(l: bytes, r: bytes): (c: int)
  {
    var k := FirstDifference(l, r);
    if k < |l| && k < |r| then (if l[k] < r[k] then -1 else 1)
    else if |l| < |r| then -1
    else if |l| > |r| then 1
    else 0
  }

  /** Lexicographic order, by recursion on the strings. */
  predicate Lt(l: bytes, r: bytes)
  {
    r != [] && (l == [] || l[0] < r[0] || (l[0] == r[0] && Lt(l[1..], r[1..])))
  }

  predicate Le(l: bytes, r: bytes) { l == r || Lt(l, r) }

  lemma {:induction false} CompareIsOrder(l: bytes, r: bytes)
    ensures Compare(l, r) < 0 <==> Lt(l, r)
    ensures Compare(l, r) == 0 <==> l == r
    ensures Compare(l, r) > 0 <==> Lt(r, l)
  {
    if l != [] && r != [] && l[0] == r[0] {
      CompareIsOrder(l[1..], r[1..]);
      assert l == [l[0]] + l[1..] && r == [r[0]] + r[1..];
    }
  }

  lemma {:induction false} Trichotomy(l: bytes, r: bytes)
    ensures l == r || Lt(l, r) || Lt(r, l)
    ensures !(l == r && Lt(l, r)) && !(Lt(l, r) && Lt(r, l))
  {
    CompareIsOrder(l, r);
  }

  lemma {:induction false} LtTransitive(a: bytes, b: bytes, c: bytes)
    requires Lt(a, b) && Lt(b, c)
    ensures Lt(a, c)
  {
    if a != [] && a[0] == b[0] && b[0] == c[0] { LtTransitive(a[1..], b[1..], c[1..]); }
  }

  ghost predicate StrictlySorted(s: seq<bytes>)
  {
    forall i, j :: 0 <= i < j < |s| ==> Lt(s[i], s[j])
  }

  ghost predicate Sorted(s: seq<bytes>)
  {
    forall i, j :: 0 <= i < j < |s| ==> Le(s[i], s[j])
  }

  ghost function Elements(s: seq<bytes>): set<bytes> { set x | x in s }

  lemma ElementsCons(x: bytes, s: seq<bytes>)
    ensures Elements([x] + s) == {x} + Elements(s)
  {
    assert forall y :: y in [x] + s <==> y == x || y in s;
  }

  lemma NoElements(s: seq<bytes>)
    ensures Elements(s) == {} <==> s == []
  {
    if s != [] { assert s[0] in Elements(s); }
  }

  lemma LastIsGreatest(s: seq<bytes>, x: bytes)
    requires StrictlySorted(s) && x in s
    ensures Le(x, s[|s| - 1])
  {}

  lemma DropLastElements(s: seq<bytes>)
    requires StrictlySorted(s) && s != []
    ensures Elements(s[..|s| - 1]) == Elements(s) - {s[|s| - 1]}
  {
    var n := |s| - 1;
    forall x | x in s[..n] ensures x in s && x != s[n] {
      var i :| 0 <= i < n && s[i] == x;
      Trichotomy(s[i], s[n]);
    }
    forall x | x in s && x != s[n] ensures x in s[..n] {
      var i :| 0 <= i < |s| && s[i] == x;
      assert s[..n][i] == x;
    }
  }

  /** A set of byte strings has one strictly sorted listing. */
  lemma {:induction false} StrictlySortedUnique(s: seq<bytes>, t: seq<bytes>)
    requires StrictlySorted(s) && StrictlySorted(t)
    requires Elements(s) == Elements(t)
    ensures s == t
  {
    NoElements(s);
    NoElements(t);
    if s != [] {
      var x, y := s[|s| - 1], t[|t| - 1];
      assert x in Elements(s) && y in Elements(t);
      LastIsGreatest(s, y);
      LastIsGreatest(t, x);
      Trichotomy(x, y);
      DropLastElements(s);
      DropLastElements(t);
      StrictlySortedUnique(s[..|s| - 1], t[..|t| - 1]);
      assert s == s[..|s| - 1] + [x] && t == t[..|t| - 1] + [y];
    }
  }

  lemma AppendAssoc<T>(a: seq<T>, b: seq<T>, c: seq<T>)
    ensures (a + b) + c == a + (b + c)
  {}

  lemma AppendNothing<T>(a: seq<T>)
    ensures a + [] == a && [] + a == a
  {}

  lemma Singleton<T>(s: seq<T>)
    requires |s| == 1
    ensures s == [s[0]]
  {}

  lemma AppendHead<T>(a: seq<T>, s: seq<T>)
    requires s != []
    ensures a + [s[0]] + s[1..] == a + s
  {}

  /** The position of the first occurrence of c, or the length. */
  function IndexOf(s: bytes, c: byte): (k: nat)
    ensures k <= |s|
    ensures c !in s[..k]
    ensures k < |s| ==> s[k] == c
  {
    if s == [] || s[0] == c then 0
    else
      var k := IndexOf(s[1..], c);
      assert s[..k + 1] == [s[0]] + s[1..][..k];
      k + 1
  }

  lemma {:induction false} IndexOfBeyond(s: bytes, c: byte, k: nat)
    requires k <= |s| && c !in s[..k]
    ensures IndexOf(s, c) >= k
  {
    if k > 0 {
      assert s[..k] == [s[0]] + s[1..][..k - 1];
      IndexOfBeyond(s[1..], c, k - 1);
    }
  }

  lemma {:induction false} IndexOfIs(s: bytes, c: byte, k: nat)
    requires k <= |s| && c !in s[..k] && (k < |s| ==> s[k] == c)
    ensures IndexOf(s, c) == k
  {
    if k > 0 {
      assert s[..k] == [s[0]] + s[1..][..k - 1];
      IndexOfIs(s[1..], c, k - 1);
    }
  }
}
