/** The base part of a metric name: leading junk goes, inner junk turns into spaces and
    trailing spaces go. */
module NameClean {
  import opened Bytes

  const SPACE: byte := 32

  /** Not printable, or white space. */
  predicate Junk(c: byte) { !(33 <= c <= 126) }

  function Soften(m: bytes): (s: bytes)
    ensures |s| == |m|
    ensures forall i :: 0 <= i < |m| ==> s[i] == if Junk(m[i]) then SPACE else m[i]
  {
    if m == [] then [] else [if Junk(m[0]) then SPACE else m[0]] + Soften(m[1..])
  }

  function TrimRight(s: bytes): (r: bytes)
    ensures |r| <= |s| && forall i :: 0 <= i < |r| ==> r[i] == s[i]
  {
    if |s| > 1 && s[|s| - 1] == SPACE then TrimRight(s[..|s| - 1]) else s
  }

  function CleanName(m: bytes): bytes
  {
    if m == [] then [] else if Junk(m[0]) then CleanName(m[1..]) else TrimRight(Soften(m))
  }

  /** noit_metric_name_is_clean. */
  predicate NameIsClean(m: bytes)
  {
    m == [] || (!Junk(m[0]) && !Junk(m[|m| - 1]) && forall i :: 0 < i < |m| - 1 ==> m[i] == SPACE || !Junk(m[i]))
  }

  lemma {:induction false} TrimRightEnds(s: bytes)
    requires s != [] && s[0] != SPACE
    ensures TrimRight(s) != [] && TrimRight(s)[|TrimRight(s)| - 1] != SPACE
    ensures s[|s| - 1] != SPACE ==> TrimRight(s) == s
  {
    if |s| > 1 && s[|s| - 1] == SPACE { TrimRightEnds(s[..|s| - 1]); }
  }

  lemma TrimmedIsClean(m: bytes)
    requires m != [] && !Junk(m[0])
    ensures NameIsClean(TrimRight(Soften(m)))
  {
    var s := Soften(m);
    var r := TrimRight(s);
    TrimRightEnds(s);
  }

  lemma {:induction false} CleanNameCleans(m: bytes)
    ensures NameIsClean(CleanName(m))
    ensures |CleanName(m)| <= |m|
  {
    if m != [] && Junk(m[0]) {
      CleanNameCleans(m[1..]);
    } else if m != [] {
      TrimmedIsClean(m);
    }
  }

  /** The names that cleaning leaves alone are exactly the clean ones. */
  lemma CleanNameFixed(m: bytes)
    ensures CleanName(m) == m <==> NameIsClean(m)
  {
    CleanNameCleans(m);
    if NameIsClean(m) && m != [] {
      assert Soften(m) == m;
      TrimRightEnds(m);
    }
  }

  lemma {:induction false} TrimRightIs(s: bytes, last: nat)
    requires last < |s| && s[last] != 32 && forall i :: last < i < |s| ==> s[i] == 32
    ensures TrimRight(s) == s[..last + 1]
  {
    if last + 1 < |s| {
      TrimRightIs(s[..|s| - 1], last);
      assert s[..|s| - 1][..last + 1] == s[..last + 1];
    } else {
      assert s[..last + 1] == s;
    }
  }

  lemma {:induction false} LastVisible(m: bytes) returns (last: nat)
    requires exists i :: 0 <= i < |m| && 33 <= m[i] <= 126
    ensures last < |m| && 33 <= m[last] <= 126 && forall i :: last < i < |m| ==> !(33 <= m[i] <= 126)
  {
    var n := |m| - 1;
    if 33 <= m[n] <= 126 {
      last := n;
    } else {
      assert forall i :: 0 <= i < n ==> m[..n][i] == m[i];
      last := LastVisible(m[..n]);
    }
  }

  lemma SoftTrimmed(m: bytes, last: nat)
    requires last < |m| && 33 <= m[last] <= 126 && forall i :: last < i < |m| ==> !(33 <= m[i] <= 126)
    ensures |TrimRight(Soften(m))| == last + 1
    ensures forall i :: 0 <= i <= last ==> TrimRight(Soften(m))[i] == if 33 <= m[i] <= 126 then m[i] else 32
  {
    TrimRightIs(Soften(m), last);
  }

  /** From the first to the last byte of 33 to 126, those bytes stay and all others become spaces; what
      is before and after goes. */
  ghost predicate CleanedFrom(m: bytes, c: bytes, first: nat, last: nat)
  {
    && first <= last < |m| && 33 <= m[first] <= 126 && 33 <= m[last] <= 126
    && (forall i :: 0 <= i < first || last < i < |m| ==> !(33 <= m[i] <= 126))
    && |c| == last + 1 - first
    && forall i :: 0 <= i < |c| ==> c[i] == if 33 <= m[first + i] <= 126 then m[first + i] else 32
  }

  lemma CleanedLater(m: bytes, c: bytes, first: nat, last: nat)
    requires m != [] && !(33 <= m[0] <= 126) && CleanedFrom(m[1..], c, first, last)
    ensures CleanedFrom(m, c, first + 1, last + 1)
  {
    assert forall i :: 0 < i < |m| ==> m[1..][i - 1] == m[i];
  }

  lemma CleanedHere(m: bytes, last: nat)
    requires m != [] && 33 <= m[0] <= 126 && last < |m| && 33 <= m[last] <= 126
    requires forall i :: last < i < |m| ==> !(33 <= m[i] <= 126)
    ensures CleanedFrom(m, CleanName(m), 0, last)
  {
    SoftTrimmed(m, last);
  }

  lemma SkipFirst(m: bytes)
    requires m != [] && !(33 <= m[0] <= 126)
    ensures CleanName(m) == CleanName(m[1..])
  {}

  lemma {:induction false} CleanedAt(m: bytes, first: nat, last: nat)
    requires first <= last < |m| && 33 <= m[first] <= 126 && 33 <= m[last] <= 126
    requires forall i :: 0 <= i < first || last < i < |m| ==> !(33 <= m[i] <= 126)
    ensures CleanedFrom(m, CleanName(m), first, last)
    decreases first
  {
    if first == 0 {
      CleanedHere(m, last);
    } else {
      var t := m[1..];
      assert forall i :: 0 <= i < |t| ==> t[i] == m[i + 1];
      CleanedAt(t, first - 1, last - 1);
      SkipFirst(m);
      CleanedLater(m, CleanName(t), first - 1, last - 1);
    }
  }

  lemma {:induction false} FirstVisible(m: bytes, k: nat) returns (first: nat)
    requires k < |m| && 33 <= m[k] <= 126
    ensures first <= k && 33 <= m[first] <= 126 && forall i :: 0 <= i < first ==> !(33 <= m[i] <= 126)
  {
    if i: nat :| i < k && 33 <= m[i] <= 126 { first := FirstVisible(m, i); } else { first := k; }
  }

  /** What cleaning does, byte by byte. */
  lemma CleanNameIs(m: bytes) returns (first: nat, last: nat)
    requires exists i :: 0 <= i < |m| && 33 <= m[i] <= 126
    ensures CleanedFrom(m, CleanName(m), first, last)
  {
    last := LastVisible(m);
    first := FirstVisible(m, last);
    CleanedAt(m, first, last);
  }

  /** A name without any such byte is cleaned away. */
  lemma {:induction false} NothingVisible(m: bytes)
    requires forall i :: 0 <= i < |m| ==> !(33 <= m[i] <= 126)
    ensures CleanName(m) == []
  {
    if m != [] { NothingVisible(m[1..]); }
  }

  /** Where the clean name sits in the name: each of its bytes is the byte there or a space. */
  lemma {:induction false} CleanNameOffset(m: bytes) returns (off: nat)
    ensures off + |CleanName(m)| <= |m|
    ensures forall i :: 0 <= i < |CleanName(m)| ==> CleanName(m)[i] == m[off + i] || CleanName(m)[i] == SPACE
  {
    off := 0;
    if m != [] && Junk(m[0]) {
      off := CleanNameOffset(m[1..]);
      off := off + 1;
    } else if m != [] {
      var r := CleanName(m);
      assert forall i :: 0 <= i < |r| ==> r[i] == Soften(m)[i];
    }
  }

  method SkipJunk(m: array<byte>, len: nat) returns (ip: nat)
    requires len <= m.Length
    ensures ip <= len && CleanName(m[..len]) == TrimRight(Soften(m[ip..len]))
  {
    ip := 0;
    while ip < len && Junk(m[ip])
      invariant ip <= len && CleanName(m[..len]) == CleanName(m[ip..len])
    {
      assert m[ip..len][1..] == m[ip + 1..len];
      ip := ip + 1;
    }
  }

  method TrimEnd(m: array<byte>, len: nat) returns (op: nat)
    requires len <= m.Length
    ensures op <= len && m[..op] == TrimRight(m[..len])
  {
    op := len;
    while op > 1 && m[op - 1] == SPACE
      invariant op <= len && TrimRight(m[..op]) == TrimRight(m[..len])
    {
      assert m[..op][..op - 1] == m[..op - 1];
      op := op - 1;
    }
  }

  /** Writes what it reads further on, changed, to the front of the same array. */
  method CopyFront<T>(m: array<T>, start: nat, len: nat, f: T -> T)
    requires start <= len <= m.Length
    modifies m
    ensures forall i :: 0 <= i < len - start ==> m[i] == f(old(m[start + i]))
    ensures forall i :: len <= i < m.Length ==> m[i] == old(m[i])
  {
    var op, ip := 0, start;
    while ip < len
      invariant ip <= len && op == ip - start
      invariant forall i :: 0 <= i < op ==> m[i] == f(old(m[start + i]))
      invariant forall i :: ip <= i < m.Length ==> m[i] == old(m[i])
    {
      m[op] := f(m[ip]);
      op := op + 1;
      ip := ip + 1;
    }
  }

  method SoftenDown(m: array<byte>, start: nat, len: nat)
    requires start <= len <= m.Length
    modifies m
    ensures m[..len - start] == Soften(old(m[start..len]))
    ensures m[len..] == old(m[len..])
  {
    CopyFront(m, start, len, (c: byte) => if Junk(c) then SPACE else c);
  }

  /** noit_metric_clean_name: reads with one cursor, writes with another in the same buffer. */
  method CleanNameInPlace(m: array<byte>, len: nat) returns (n: nat)
    requires len <= m.Length
    modifies m
    ensures n <= len && m[..n] == CleanName(old(m[..len]))
    ensures m[len..] == old(m[len..])
  {
    var start := SkipJunk(m, len);
    SoftenDown(m, start, len);
    n := TrimEnd(m, len - start);
  }
}
