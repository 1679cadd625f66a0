/** Canonical names of ordinary metric names, byte by byte. */
module MetricPlain {
  import opened Options
  import opened Bytes
  import opened TagCodec
  import opened TagReplace
  import opened TagParse
  import opened TagOrder
  import opened TagPrint
  import opened NameClean
  import opened MetricName
  import opened MetricBlocks
  import opened MetricLaws

  lemma {:induction false} CommasCounted(s: bytes)
    ensures CountCommas(s) == multiset(s)[44]
  {
    if s != [] {
      CommasCounted(s[1..]);
      assert s == [s[0]] + s[1..];
    }
  }

  /** Visible bytes and no bar. */
  ghost predicate PlainName(s: bytes) { s != [] && forall c :: c in s ==> 33 <= c <= 126 && c != 124 }

  lemma PlainHasNoMarker(s: bytes)
    requires PlainName(s)
    ensures !HasMarker(s)
  {
    forall i, f | 0 <= i < |s| ensures !MarkerAt(s, f, i) {
      assert s[i] in s;
      MarkerStarts(s, f, i);
    }
  }

  lemma PlainIsClean(s: bytes)
    requires PlainName(s)
    ensures NameIsClean(s) && CleanName(s) == s
  {
    assert s[0] in s && s[|s| - 1] in s && 33 <= s[0] <= 126;
    var first, last := CleanNameIs(s);
    assert forall i :: 0 <= i < |s| ==> s[i] in s;
    assert CleanName(s) == s;
    CleanNameFixed(s);
  }

  /** A name of visible bytes without a bar is its own canonical name, or else breaks a limit: the
      buffer, 256 commas, or 4095 bytes. */
  lemma PlainNameKept(sha: Sha1, name: bytes, outLen: nat, want: (bool, bool))
    requires PlainName(name)
    ensures Canonicalize(sha, name, outLen, want)
         == if |name| > outLen then Failed(-1) else if multiset(name)[44] > 256 then Failed(-3)
            else if |name| >= 4096 then Failed(-8) else Name(name)
  {
    CommasCounted(name);
    if |name| <= outLen && multiset(name)[44] <= 256 { PlainNamePrinted(sha, name, outLen, want); }
  }

  lemma PlainNamePrinted(sha: Sha1, name: bytes, outLen: nat, want: (bool, bool))
    requires PlainName(name) && multiset(name)[44] <= 256 && |name| <= outLen
    ensures Canonicalize(sha, name, outLen, want) == if |name| >= 4096 then Failed(-8) else Name(name)
  {
    PlainHasNoMarker(name);
    PlainIsClean(name);
    CommasCounted(name);
    EatFresh(Some(StandIn(sha)), name, [], BOTH);
    CanonicalizeSplit(sha, name, outLen, want, name, [], []);
    SortDedupStable([]);
  }

  /** Parsing such a name finds no tags, up to 4096 bytes. */
  lemma PlainNameParsed(name: bytes, maxS: nat, maxM: nat)
    requires PlainName(name)
    ensures ParseTags(name, maxS, maxM) == if |name| > 4096 then None else Some((name, [], []))
  {
    PlainHasNoMarker(name);
    EatFresh(None, name, [], (maxS, maxM));
  }

  /** Letters and digits. */
  ghost predicate Word(p: bytes) { forall c :: c in p ==> 48 <= c <= 57 || 65 <= c <= 90 || 97 <= c <= 122 }

  lemma WordEncodes(k: bytes, v: bytes)
    requires Word(k) && Word(v) && k != [] && |k| + |v| < 256
    ensures Enc(Pair(k, v)) == Encoded(k + [58] + v) && SafeTag(Pair(k, v))
  {
    assert 31 !in k;
    EncodePair(MAX_PAIR_LEN, k, v);
    PairIndex(k, v);
    assert |k| >= 2 ==> k[1] in k;
    assert |v| >= 2 ==> v[1] in v;
  }

  /** A name with one plain stream tag and one plain measurement tag. */
  function Written(base: bytes, k: bytes, v: bytes, k': bytes, v': bytes): bytes
  {
    base + ([124, 83, 84, 91] + (k + [58] + v) + [93]) + ([124, 77, 84, 123] + (k' + [58] + v') + [125])
  }

  lemma OneText(k: bytes, v: bytes)
    requires Word(k) && Word(v) && k != [] && |k| + |v| < 256
    ensures AllEncodable(Enc, [Pair(k, v)]) && Join(Texts(Enc, [Pair(k, v)])) == k + [58] + v
    ensures AllSafe([Pair(k, v)])
  {
    WordEncodes(k, v);
    assert Texts(Enc, [Pair(k, v)]) == [k + [58] + v];
  }

  lemma PrintedOne(f: Family, k: bytes, v: bytes, outLen: nat, used: nat)
    requires Word(k) && Word(v) && k != [] && |k| + |v| < 256 && used + |k| + |v| + 6 <= outLen
    ensures PrintBlock(Enc, f, true, [Pair(k, v)], outLen, used)
         == Some(if f == Stream then [124, 83, 84, 91] + (k + [58] + v) + [93] else [124, 77, 84, 123] + (k + [58] + v) + [125])
  {
    OneText(k, v);
  }

  lemma WrittenIsPrinted(base: bytes, k: bytes, v: bytes, k': bytes, v': bytes, outLen: nat)
    requires base != [] && Word(k) && Word(v) && k != [] && |k| + |v| < 256
    requires Word(k') && Word(v') && k' != [] && |k'| + |v'| < 256
    requires |Written(base, k, v, k', v')| <= outLen && |Written(base, k, v, k', v')| < 4096
    ensures PrintName(Enc, base, [Pair(k, v)], [Pair(k', v')], outLen, (true, true)) == Name(Written(base, k, v, k', v'))
  {
    PrintedOne(Stream, k, v, outLen, |base|);
    PrintedOne(Measurement, k', v', outLen, |base| + |k| + |v| + 6);
  }

  lemma WrittenCommas(base: bytes, k: bytes, v: bytes, k': bytes, v': bytes)
    requires Word(k) && Word(v) && Word(k') && Word(v')
    ensures multiset(Written(base, k, v, k', v'))[44] == multiset(base)[44]
  {
    assert 44 !in k && 44 !in v && 44 !in k' && 44 !in v';
  }

  /** ... is its own canonical name. */
  lemma PlainTagsKept(sha: Sha1, base: bytes, k: bytes, v: bytes, k': bytes, v': bytes, outLen: nat)
    requires PlainName(base) && multiset(base)[44] <= 256
    requires Word(k) && Word(v) && k != [] && |k| + |v| < 256
    requires Word(k') && Word(v') && k' != [] && |k'| + |v'| < 256
    requires |Written(base, k, v, k', v')| <= outLen && |Written(base, k, v, k', v')| < 4096
    ensures Canonicalize(sha, Written(base, k, v, k', v'), outLen, (true, true)) == Name(Written(base, k, v, k', v'))
  {
    PlainHasNoMarker(base);
    PlainIsClean(base);
    WrittenIsPrinted(base, k, v, k', v', outLen);
    WrittenCommas(base, k, v, k', v');
    CommasCounted(Written(base, k, v, k', v'));
    OneText(k, v);
    OneText(k', v');
    PrintedIsFixed(sha, base, [Pair(k, v)], [Pair(k', v')], outLen, (true, true), outLen);
  }
}
