/** The canonical text of a compacted tag array: its computed size is the size of what is
    printed, and reading it back gives the same tags. */
module TagsetText {
  import opened Options
  import opened Bytes
  import opened TagCodec
  import opened TagParse
  import opened TagPrint
  import opened TagCompact
  import opened MetricLaws
  import opened MetricName

  /** A tag's decoded form in a buffer of NOIT_TAG_MAX_PAIR_LEN bytes. */
  const Dec: bytes -> bytes := e => DecodeTag(MAX_PAIR_LEN, e)

  /** A tag's canonical text: decoded and encoded again. */
  const Recode: Encoder := e => EncodeTag(MAX_PAIR_LEN, DecodeTag(MAX_PAIR_LEN, e))

  /** tag_canonical_size: none when the tag has no canonical text. */
  function SizeWith(enc: Encoder): bytes -> nat
  {
    e => match enc(e) case Encoded(t) => |t| case Rejected(_) => 0
  }

  lemma {:induction false} TotalCons(size: bytes -> nat, x: bytes, s: seq<bytes>)
    ensures TotalSize(size, [x] + s) == size(x) + TotalSize(size, s)
  {
    var t := [x] + s;
    if s != [] {
      TotalCons(size, x, s[..|s| - 1]);
      assert t[..|t| - 1] == [x] + s[..|s| - 1];
    } else {
      assert t == [x] && t[..0] == [];
    }
  }

  lemma {:induction false} JoinLength(enc: Encoder, s: seq<bytes>)
    requires AllEncodable(enc, s) && s != []
    ensures |Join(Texts(enc, s))| == TotalSize(SizeWith(enc), s) + |s| - 1
  {
    assert s == [s[0]] + s[1..];
    TotalCons(SizeWith(enc), s[0], s[1..]);
    if |s| > 1 { JoinLength(enc, s[1..]); }
  }

  function CompactSize(enc: Encoder, s: seq<bytes>): nat
  {
    TotalSize(SizeWith(enc), s) + if s == [] then 0 else |s| - 1
  }

  /** noit_metric_tagset_from_tags: prints into a buffer of the given size and succeeds only
      if exactly that many bytes were written. */
  function FromTags(enc: Encoder, s: seq<bytes>, size: nat): Option<bytes>
  {
    match PrintTags(enc, s, size)
    case None => None
    case Some(t) => if |t| == size then Some(t) else None
  }

  /** With the size that compaction computed, the canonical string is built exactly when
      every tag has a canonical text, and then it is their join. */
  lemma FromTagsIff(enc: Encoder, s: seq<bytes>)
    ensures FromTags(enc, s, CompactSize(enc, s)).Some? <==> AllEncodable(enc, s)
    ensures AllEncodable(enc, s) ==> FromTags(enc, s, CompactSize(enc, s)) == Some(Join(Texts(enc, s)))
  {
    if s != [] && AllEncodable(enc, s) { JoinLength(enc, s); }
  }

  lemma SafeRecode(e: bytes)
    requires Recode(e).Encoded? && SafeTag(Dec(e))
    ensures GoodTag(Recode(e).text) && Dec(Recode(e).text) == Dec(e)
  {
    assert Recode(e) == Enc(Dec(e));
    SafeText(Dec(e));
  }

  lemma TextsKeep(enc: Encoder, dec: bytes -> bytes, s: seq<bytes>)
    requires AllEncodable(enc, s)
    requires forall e :: e in s ==> GoodTag(enc(e).text) && dec(enc(e).text) == dec(e)
    ensures AllGood(Texts(enc, s))
    ensures forall i :: 0 <= i < |s| ==> dec(Texts(enc, s)[i]) == dec(s[i])
  {
    forall i | 0 <= i < |s| ensures GoodTag(Texts(enc, s)[i]) && dec(Texts(enc, s)[i]) == dec(s[i]) {
      assert s[i] in s;
    }
  }

  lemma Reparses(enc: Encoder, dec: bytes -> bytes, s: seq<bytes>)
    requires StrictlySortedBy(dec, s) && AllEncodable(enc, s)
    requires forall e :: e in s ==> GoodTag(enc(e).text) && dec(enc(e).text) == dec(e)
    ensures var ts := Texts(enc, s);
            && FromTags(enc, s, CompactSize(enc, s)) == Some(Join(ts))
            && BuildTags(None, Join(ts), [], |s|, 0) == Build(true, ts, 0)
            && (forall i :: 0 <= i < |s| ==> dec(ts[i]) == dec(s[i]))
            && Compacted(_ => true, dec, ts) == ts
  {
    FromTagsIff(enc, s);
    TextsKeep(enc, dec, s);
    var ts := Texts(enc, s);
    BuildJoined(None, ts, [], |s|, 0);
    AppendNothing(ts);
    SameKeysSorted(dec, s, ts);
    CompactedFixed(dec, ts);
  }

  /** The canonical string of compacted safe tags reads back as their canonical texts, which
      decode to the same tags and which compaction leaves alone. */
  lemma CanonicalReparses(s: seq<bytes>)
    requires StrictlySortedBy(Dec, s)
    requires AllEncodable(Recode, s) && forall e :: e in s ==> SafeTag(Dec(e))
    ensures var ts := Texts(Recode, s);
            && FromTags(Recode, s, CompactSize(Recode, s)) == Some(Join(ts))
            && BuildTags(None, Join(ts), [], |s|, 0) == Build(true, ts, 0)
            && (forall i :: 0 <= i < |s| ==> Dec(ts[i]) == Dec(s[i]))
            && Compacted(_ => true, Dec, ts) == ts
  {
    forall e | e in s ensures GoodTag(Recode(e).text) && Dec(Recode(e).text) == Dec(e) {
      SafeRecode(e);
    }
    Reparses(Recode, Dec, s);
  }
}
