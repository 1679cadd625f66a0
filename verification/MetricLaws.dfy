/** The laws of canonical metric names: the canonical name depends only on the clean base
    and the sets of decoded tags, it parses back to them, and it is its own canonical name. */
module MetricLaws {
  import opened Options
  import opened Bytes
  import opened TagCodec
  import opened TagReplace
  import opened TagParse
  import opened TagOrder
  import opened TagPrint
  import opened NameClean
  import opened MetricName
  import opened MetricBlocks

  const BOTH := (MAX_TAGS, MAX_TAGS)

  /** A decoded tag neither of whose parts reads as base 64 when printed plain. In
      particular any decoded tag neither of whose parts starts with b". */
  predicate SafeTag(d: bytes)
  {
    var s := IndexOf(d, SEPARATOR);
    s < |d| && !Ambiguous(Key, d[..s]) && !Ambiguous(Value, d[s + 1..])
  }

  /** The text of a safe tag is one good tag and decodes to the tag. */
  lemma SafeText(d: bytes)
    requires SafeTag(d) && Enc(d).Encoded?
    ensures GoodTag(Enc(d).text) && DecodeStored(Enc(d).text) == d
    ensures DecodeTag(MAX_PAIR_LEN, Enc(d).text) == d
  {
    var s := IndexOf(d, SEPARATOR);
    var key, value := d[..s], d[s + 1..];
    assert d == Pair(key, value);
    EncodePair(MAX_PAIR_LEN, key, value);
    var k, v := EncodePart(Key, key), EncodePart(Value, value);
    KeyTextHasNoColon(key);
    TextSplits(k, v);
    PartText(Key, key);
    PartText(Value, value);
    var e := Enc(d).text;
    TagRoundTrip(MAX_PAIR_LEN, |e|, key, value);
    TagRoundTrip(MAX_PAIR_LEN, |e| + 1, key, value);
    TagRoundTrip(MAX_PAIR_LEN, MAX_PAIR_LEN, key, value);
  }

  ghost predicate AllSafe(ds: seq<bytes>) { forall d :: d in ds ==> SafeTag(d) }

  lemma SafeTexts(ds: seq<bytes>)
    requires AllSafe(ds) && AllEncodable(Enc, ds)
    ensures AllGood(Texts(Enc, ds)) && DecodeAll(Texts(Enc, ds)) == ds
  {
    var es := Texts(Enc, ds);
    forall i | 0 <= i < |ds| ensures GoodTag(es[i]) && DecodeStored(es[i]) == ds[i] {
      assert ds[i] in ds;
      SafeText(ds[i]);
    }
    forall e | e in es ensures GoodTag(e) {
      var i :| 0 <= i < |es| && es[i] == e;
    }
  }

  /** The block of one family in a canonical name: none when unwanted or without tags. */
  ghost function BlockOf(enc: Encoder, f: Family, wanted: bool, ds: seq<bytes>): seq<Block>
    requires wanted ==> AllEncodable(enc, ds)
  {
    if wanted && ds != [] then [Block(f, Texts(enc, ds))] else []
  }

  ghost predicate Printable(enc: Encoder, ss: seq<bytes>, ms: seq<bytes>, want: (bool, bool))
  {
    (want.0 ==> AllEncodable(enc, ss)) && (want.1 ==> AllEncodable(enc, ms))
  }

  ghost function CanonicalBlocks(enc: Encoder, ss: seq<bytes>, ms: seq<bytes>, want: (bool, bool)): seq<Block>
    requires Printable(enc, ss, ms, want)
  {
    BlockOf(enc, Stream, want.0, ss) + BlockOf(enc, Measurement, want.1, ms)
  }

  lemma BlockPrinted(enc: Encoder, f: Family, wanted: bool, ds: seq<bytes>, outLen: nat, used: nat)
    requires PrintBlock(enc, f, wanted, ds, outLen, used).Some?
    ensures wanted ==> AllEncodable(enc, ds)
    ensures PrintBlock(enc, f, wanted, ds, outLen, used) == Some(RenderOptional(BlockOf(enc, f, wanted, ds)))
  {}

  lemma BlockFits(enc: Encoder, f: Family, wanted: bool, ds: seq<bytes>, outLen: nat, used: nat)
    requires wanted ==> AllEncodable(enc, ds)
    requires used + |RenderOptional(BlockOf(enc, f, wanted, ds))| <= outLen
    ensures PrintBlock(enc, f, wanted, ds, outLen, used) == Some(RenderOptional(BlockOf(enc, f, wanted, ds)))
  {}

  /** A printed name is its base and its canonical blocks, and it is shorter than the limit. */
  lemma PrintedParts(enc: Encoder, base: bytes, ss: seq<bytes>, ms: seq<bytes>, outLen: nat, want: (bool, bool))
    requires PrintName(enc, base, ss, ms, outLen, want).Name?
    ensures Printable(enc, ss, ms, want) && base != []
    ensures PrintName(enc, base, ss, ms, outLen, want).text
         == base + RenderOptional(BlockOf(enc, Stream, want.0, ss))
                 + RenderOptional(BlockOf(enc, Measurement, want.1, ms))
    ensures |PrintName(enc, base, ss, ms, outLen, want).text| < MAX_METRIC_TAGGED_NAME
  {
    BlockPrinted(enc, Stream, want.0, ss, outLen, |base|);
    var s := RenderOptional(BlockOf(enc, Stream, want.0, ss));
    BlockPrinted(enc, Measurement, want.1, ms, outLen, |base| + |s|);
  }

  /** A printed name is printed again by any buffer that holds it. */
  lemma PartsPrinted(enc: Encoder, base: bytes, ss: seq<bytes>, ms: seq<bytes>, outLen: nat, want: (bool, bool), outLen2: nat)
    requires PrintName(enc, base, ss, ms, outLen, want).Name?
    requires |PrintName(enc, base, ss, ms, outLen, want).text| <= outLen2
    ensures PrintName(enc, base, ss, ms, outLen2, want) == PrintName(enc, base, ss, ms, outLen, want)
  {
    PrintedParts(enc, base, ss, ms, outLen, want);
    var s := RenderOptional(BlockOf(enc, Stream, want.0, ss));
    BlockFits(enc, Stream, want.0, ss, outLen2, |base|);
    BlockFits(enc, Measurement, want.1, ms, outLen2, |base| + |s|);
  }

  lemma PrintedIsRendered(enc: Encoder, base: bytes, ss: seq<bytes>, ms: seq<bytes>, outLen: nat, want: (bool, bool))
    requires PrintName(enc, base, ss, ms, outLen, want).Name?
    ensures Printable(enc, ss, ms, want)
    ensures PrintName(enc, base, ss, ms, outLen, want).text == Render(base, CanonicalBlocks(enc, ss, ms, want))
  {
    PrintedParts(enc, base, ss, ms, outLen, want);
    RenderTwo(base, BlockOf(enc, Stream, want.0, ss), BlockOf(enc, Measurement, want.1, ms));
  }

  ghost function Wanted(wanted: bool, ds: seq<bytes>): seq<bytes> { if wanted then ds else [] }

  lemma CanonicalGathered(ss: seq<bytes>, ms: seq<bytes>, want: (bool, bool))
    requires Printable(Enc, ss, ms, want)
    ensures var blocks := CanonicalBlocks(Enc, ss, ms, want);
            && Gathered(Stream, blocks) == Texts(Enc, Wanted(want.0, ss))
            && Gathered(Measurement, blocks) == Texts(Enc, Wanted(want.1, ms))
  {
    var a, b := BlockOf(Enc, Stream, want.0, ss), BlockOf(Enc, Measurement, want.1, ms);
    GatheredTwo(Stream, a, b);
    GatheredTwo(Measurement, a, b);
  }

  lemma CanonicalBlocksGood(ss: seq<bytes>, ms: seq<bytes>, want: (bool, bool))
    requires Printable(Enc, ss, ms, want)
    requires AllSafe(Wanted(want.0, ss)) && AllSafe(Wanted(want.1, ms))
    ensures GoodBlocks(CanonicalBlocks(Enc, ss, ms, want))
  {
    SafeTexts(Wanted(want.0, ss));
    SafeTexts(Wanted(want.1, ms));
  }

  /** Eating a printed name gives back its base and its tags' texts. */
  lemma EatCanonical(repl: Option<Replacer>, base: bytes, ss: seq<bytes>, ms: seq<bytes>, outLen: nat, want: (bool, bool),
                     max: (nat, nat))
    requires PrintName(Enc, base, ss, ms, outLen, want).Name? && !HasMarker(base)
    requires AllSafe(Wanted(want.0, ss)) && AllSafe(Wanted(want.1, ms))
    requires |Wanted(want.0, ss)| <= max.0 && |Wanted(want.1, ms)| <= max.1
    ensures Printable(Enc, ss, ms, want)
    ensures EatAll(repl, Split(PrintName(Enc, base, ss, ms, outLen, want).text, [], [], 0), max)
         == Split(base, Texts(Enc, Wanted(want.0, ss)), Texts(Enc, Wanted(want.1, ms)), 0)
  {
    PrintedParts(Enc, base, ss, ms, outLen, want);
    PrintedIsRendered(Enc, base, ss, ms, outLen, want);
    CanonicalBlocksGood(ss, ms, want);
    CanonicalGathered(ss, ms, want);
    EatFresh(repl, base, CanonicalBlocks(Enc, ss, ms, want), max);
  }

  lemma PrintOnlyWanted(base: bytes, ss: seq<bytes>, ms: seq<bytes>, outLen: nat, want: (bool, bool))
    ensures PrintName(Enc, base, ss, ms, outLen, want)
         == PrintName(Enc, base, Wanted(want.0, ss), Wanted(want.1, ms), outLen, want)
  {}

  lemma CanonicalizeSplit(sha: Sha1, x: bytes, outLen: nat, want: (bool, bool), base: bytes, es: seq<bytes>, fs: seq<bytes>)
    requires |x| <= outLen && CountCommas(x) <= MAX_TAGS && !HasMarker(base)
    requires EatAll(Some(StandIn(sha)), Split(x, [], [], 0), BOTH) == Split(base, es, fs, 0)
    ensures Canonicalize(sha, x, outLen, want)
         == PrintName(Enc, CleanName(base), SortDedup(DecodeAll(es)), SortDedup(DecodeAll(fs)), outLen, want)
  {}

  lemma SafeTextsStable(ds: seq<bytes>)
    requires AllSafe(ds) && AllEncodable(Enc, ds) && StrictlySorted(ds)
    ensures SortDedup(DecodeAll(Texts(Enc, ds))) == ds
  {
    SafeTexts(ds);
    SortDedupStable(ds);
  }

  /** A name printed from a clean base and strictly sorted safe tags is canonical. */
  lemma PrintedIsFixed(sha: Sha1, base: bytes, ss: seq<bytes>, ms: seq<bytes>, outLen: nat, want: (bool, bool), outLen2: nat)
    requires NameIsClean(base) && !HasMarker(base)
    requires StrictlySorted(ss) && StrictlySorted(ms) && |ss| <= MAX_TAGS && |ms| <= MAX_TAGS
    requires AllSafe(Wanted(want.0, ss)) && AllSafe(Wanted(want.1, ms))
    requires PrintName(Enc, base, ss, ms, outLen, want).Name?
    requires CountCommas(PrintName(Enc, base, ss, ms, outLen, want).text) <= MAX_TAGS
    requires |PrintName(Enc, base, ss, ms, outLen, want).text| <= outLen2
    ensures Canonicalize(sha, PrintName(Enc, base, ss, ms, outLen, want).text, outLen2, want)
         == PrintName(Enc, base, ss, ms, outLen, want)
  {
    var y := PrintName(Enc, base, ss, ms, outLen, want).text;
    var ss', ms' := Wanted(want.0, ss), Wanted(want.1, ms);
    EatCanonical(Some(StandIn(sha)), base, ss, ms, outLen, want, BOTH);
    CanonicalizeSplit(sha, y, outLen2, want, base, Texts(Enc, ss'), Texts(Enc, ms'));
    CleanNameFixed(base);
    SafeTextsStable(ss');
    SafeTextsStable(ms');
    PrintOnlyWanted(base, ss, ms, outLen2, want);
    PartsPrinted(Enc, base, ss, ms, outLen, want, outLen2);
  }

  lemma MarkerMoves(r: bytes, m: bytes, f: Family, i: nat, off: nat)
    requires MarkerAt(r, f, i) && off + i + 4 <= |m|
    requires forall k :: i <= k < i + 4 ==> r[k] == m[off + k] || r[k] == SPACE
    ensures MarkerAt(m, f, off + i)
  {
    var mark := r[i..i + 4];
    assert r[i] == mark[0] && r[i + 1] == mark[1] && r[i + 2] == mark[2] && r[i + 3] == mark[3];
    assert m[off + i..off + i + 4] == mark;
  }

  lemma MarkersMove(r: bytes, m: bytes, off: nat)
    requires off + |r| <= |m| && HasMarker(r)
    requires forall k :: 0 <= k < |r| ==> r[k] == m[off + k] || r[k] == SPACE
    ensures HasMarker(m)
  {
    var i :| 0 <= i < |r| && (MarkerAt(r, Stream, i) || MarkerAt(r, Measurement, i));
    MarkerMoves(r, m, if MarkerAt(r, Stream, i) then Stream else Measurement, i, off);
  }

  lemma CleaningAddsNoMarker(m: bytes)
    ensures HasMarker(CleanName(m)) ==> HasMarker(m)
  {
    var off := CleanNameOffset(m);
    if HasMarker(CleanName(m)) { MarkersMove(CleanName(m), m, off); }
  }

  ghost function SplitOf(sha: Sha1, x: bytes): Split
  {
    EatAll(Some(StandIn(sha)), Split(x, [], [], 0), BOTH)
  }

  /** The decoded tags of a name that the canonical name shows. */
  ghost function ShownTags(sha: Sha1, x: bytes, want: (bool, bool)): set<bytes>
  {
    var sp := SplitOf(sha, x);
    Elements(Wanted(want.0, DecodeAll(sp.stream))) + Elements(Wanted(want.1, DecodeAll(sp.measurement)))
  }

  /** What a successful canonicalisation printed: a clean base without markers and two
      strictly sorted lists of the decoded tags. */
  lemma PrintedFrom(sha: Sha1, x: bytes, outLen: nat, want: (bool, bool))
      returns (base: bytes, ss: seq<bytes>, ms: seq<bytes>)
    requires Canonicalize(sha, x, outLen, want).Name?
    requires forall d :: d in ShownTags(sha, x, want) ==> SafeTag(d)
    ensures Canonicalize(sha, x, outLen, want) == PrintName(Enc, base, ss, ms, outLen, want)
    ensures base == CleanName(SplitOf(sha, x).base) && NameIsClean(base) && !HasMarker(base)
    ensures StrictlySorted(ss) && StrictlySorted(ms) && |ss| <= MAX_TAGS && |ms| <= MAX_TAGS
    ensures Elements(ss) == Elements(DecodeAll(SplitOf(sha, x).stream))
    ensures Elements(ms) == Elements(DecodeAll(SplitOf(sha, x).measurement))
    ensures AllSafe(Wanted(want.0, ss)) && AllSafe(Wanted(want.1, ms))
  {
    var sp := SplitOf(sha, x);
    var ds, dm := DecodeAll(sp.stream), DecodeAll(sp.measurement);
    base, ss, ms := CleanName(sp.base), SortDedup(ds), SortDedup(dm);
    CleanNameCleans(sp.base);
    CleaningAddsNoMarker(sp.base);
    SortDedupSorts(ds);
    SortDedupSorts(dm);
    assert forall d :: d in ss ==> d in Elements(ss);
    assert forall d :: d in ms ==> d in Elements(ms);
  }

  /** Canonicalisation is idempotent: if it succeeds with y, y has at most MAX_TAGS commas
      and no decoded part of a shown tag is ambiguous, then y's canonical name is y. */
  lemma CanonicalizeIdempotent(sha: Sha1, x: bytes, outLen: nat, want: (bool, bool), outLen2: nat)
    requires Canonicalize(sha, x, outLen, want).Name?
    requires CountCommas(Canonicalize(sha, x, outLen, want).text) <= MAX_TAGS
    requires forall d :: d in ShownTags(sha, x, want) ==> SafeTag(d)
    requires |Canonicalize(sha, x, outLen, want).text| <= outLen2
    ensures Canonicalize(sha, Canonicalize(sha, x, outLen, want).text, outLen2, want)
         == Canonicalize(sha, x, outLen, want)
  {
    var base, ss, ms := PrintedFrom(sha, x, outLen, want);
    PrintedIsFixed(sha, base, ss, ms, outLen, want, outLen2);
  }

  /** A name's parts as noit_metric_parse_tags returns them: the base, and per family the
      tags' texts, which decode to a strictly sorted list of exactly the given set. */
  ghost predicate ParsesTo(y: bytes, maxS: nat, maxM: nat, base: bytes, st: set<bytes>, mt: set<bytes>)
  {
    && ParseTags(y, maxS, maxM).Some?
    && var p := ParseTags(y, maxS, maxM).value;
       && p.0 == base
       && StrictlySorted(DecodeAll(p.1)) && Elements(DecodeAll(p.1)) == st
       && StrictlySorted(DecodeAll(p.2)) && Elements(DecodeAll(p.2)) == mt
  }

  /** Parsing a canonical name gives back the clean base and, per family, exactly the
      decoded tags of the original name, in order and without repeats. */
  lemma ParseCanonical(sha: Sha1, x: bytes, outLen: nat, maxS: nat, maxM: nat)
    requires maxS >= MAX_TAGS && maxM >= MAX_TAGS
    requires Canonicalize(sha, x, outLen, (true, true)).Name?
    requires forall d :: d in ShownTags(sha, x, (true, true)) ==> SafeTag(d)
    ensures ParsesTo(Canonicalize(sha, x, outLen, (true, true)).text, maxS, maxM,
                     CleanName(SplitOf(sha, x).base),
                     Elements(DecodeAll(SplitOf(sha, x).stream)),
                     Elements(DecodeAll(SplitOf(sha, x).measurement)))
  {
    var base, ss, ms := PrintedFrom(sha, x, outLen, (true, true));
    PrintedParts(Enc, base, ss, ms, outLen, (true, true));
    EatCanonical(None, base, ss, ms, outLen, (true, true), (maxS, maxM));
    SafeTexts(ss);
    SafeTexts(ms);
  }

  /** The decoded tags of one family in a list of blocks, however they are ordered, split
      into blocks, repeated or spelled. */
  ghost function TagSet(f: Family, blocks: seq<Block>): set<bytes>
  {
    set b, t | b in blocks && b.family == f && t in b.tags :: DecodeStored(t)
  }

  lemma {:induction false} GatheredElements(f: Family, blocks: seq<Block>)
    ensures forall t :: t in Gathered(f, blocks) <==> exists b :: b in blocks && b.family == f && t in b.tags
  {
    if blocks != [] {
      var init, last := blocks[..|blocks| - 1], blocks[|blocks| - 1];
      GatheredElements(f, init);
      assert blocks == init + [last];
    }
  }

  lemma GatheredSet(f: Family, blocks: seq<Block>)
    ensures Elements(DecodeAll(Gathered(f, blocks))) == TagSet(f, blocks)
  {
    GatheredElements(f, blocks);
    var es := Gathered(f, blocks);
    var ds := DecodeAll(es);
    forall d | d in ds ensures d in TagSet(f, blocks) {
      var i :| 0 <= i < |ds| && ds[i] == d;
      assert es[i] in es;
    }
    forall d | d in TagSet(f, blocks) ensures d in ds {
      var b, t :| b in blocks && b.family == f && t in b.tags && d == DecodeStored(t);
      assert t in es;
      var i :| 0 <= i < |es| && es[i] == t;
      assert ds[i] == d;
    }
  }

  /** A name within the comma and tag limits, all of whose tags are good and not over-long. */
  ghost predicate Regular(base: bytes, blocks: seq<Block>, outLen: nat)
  {
    && !HasMarker(base) && GoodBlocks(blocks)
    && |Gathered(Stream, blocks)| <= MAX_TAGS && |Gathered(Measurement, blocks)| <= MAX_TAGS
    && |Render(base, blocks)| <= outLen
    && CountCommas(Render(base, blocks)) <= MAX_TAGS
  }

  /** What canonicalising a regular name computes, from its base and its tag sets. */
  lemma CanonicalizeRegular(sha: Sha1, base: bytes, blocks: seq<Block>, outLen: nat, want: (bool, bool))
    requires Regular(base, blocks, outLen)
    ensures Canonicalize(sha, Render(base, blocks), outLen, want)
         == PrintName(Enc, CleanName(base), SortDedup(DecodeAll(Gathered(Stream, blocks))),
                      SortDedup(DecodeAll(Gathered(Measurement, blocks))), outLen, want)
  {
    EatFresh(Some(StandIn(sha)), base, blocks, BOTH);
    CanonicalizeSplit(sha, Render(base, blocks), outLen, want, base,
                      Gathered(Stream, blocks), Gathered(Measurement, blocks));
  }

  /** The canonical name depends only on the clean base and the two sets of decoded tags. */
  lemma CanonicalNameOfSets(sha: Sha1, base1: bytes, blocks1: seq<Block>, base2: bytes, blocks2: seq<Block>,
                            outLen: nat, want: (bool, bool))
    requires Regular(base1, blocks1, outLen) && Regular(base2, blocks2, outLen)
    requires CleanName(base1) == CleanName(base2)
    requires forall f :: TagSet(f, blocks1) == TagSet(f, blocks2)
    ensures Canonicalize(sha, Render(base1, blocks1), outLen, want)
         == Canonicalize(sha, Render(base2, blocks2), outLen, want)
  {
    CanonicalizeRegular(sha, base1, blocks1, outLen, want);
    CanonicalizeRegular(sha, base2, blocks2, outLen, want);
    forall f: Family
      ensures SortDedup(DecodeAll(Gathered(f, blocks1))) == SortDedup(DecodeAll(Gathered(f, blocks2)))
    {
      GatheredSet(f, blocks1);
      GatheredSet(f, blocks2);
      SortDedupOfSet(DecodeAll(Gathered(f, blocks1)), DecodeAll(Gathered(f, blocks2)));
    }
  }

  /** Whatever the names look like: when what is split off them decodes to the same sets and leaves the
      same clean base, they have the same canonical name. */
  lemma CanonicalNameOfSplit(sha: Sha1, x: bytes, y: bytes, outLen: nat, want: (bool, bool))
    requires |x| <= outLen && |y| <= outLen && CountCommas(x) <= MAX_TAGS && CountCommas(y) <= MAX_TAGS
    requires var a, b := SplitOf(sha, x), SplitOf(sha, y);
             && HasMarker(a.base) == HasMarker(b.base) && CleanName(a.base) == CleanName(b.base)
             && Elements(DecodeAll(a.stream)) == Elements(DecodeAll(b.stream))
             && Elements(DecodeAll(a.measurement)) == Elements(DecodeAll(b.measurement))
    ensures Canonicalize(sha, x, outLen, want) == Canonicalize(sha, y, outLen, want)
  {
    var a, b := SplitOf(sha, x), SplitOf(sha, y);
    SortDedupOfSet(DecodeAll(a.stream), DecodeAll(b.stream));
    SortDedupOfSet(DecodeAll(a.measurement), DecodeAll(b.measurement));
  }

  /** The stored decoding is the full one but for a bare category of 256 bytes. */
  lemma DecodeStoredIs(e: bytes)
    requires 0 < |e| <= MAX_PAIR_LEN
    ensures |e| < MAX_PAIR_LEN || COLON in e ==> DecodeStored(e) == Decoded(e)
    ensures |e| == MAX_PAIR_LEN && COLON !in e && !Quoted(e) ==> DecodeStored(e) == []
  {
    var c := IndexOf(e, COLON);
    if c < |e| { assert e[c] in e; } else { assert e[..c] == e; }
    if |e| < MAX_PAIR_LEN || COLON in e {
      DecodeFits(if (if c < |e| then c + 1 else |e|) % 256 == |e| then |e| + 1 else |e|, e);
    }
  }
}
