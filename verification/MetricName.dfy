/** Metric names with |ST[...] and |MT{...} blocks: taking the blocks off the end and
    printing the canonical name. */
module MetricName {
  import opened Options
  import opened Bytes
  import opened TagCodec
  import opened TagReplace
  import opened TagParse
  import opened TagOrder
  import opened TagPrint
  import opened NameClean

  const MAX_TAGS := 256
  const MAX_METRIC_TAGGED_NAME := 4096

  datatype Family = Stream | Measurement

  const BAR: byte := 124

  /** "|ST[" or "|MT{". */
  function Marker(f: Family): (m: bytes)
    ensures |m| == 4 && m[0] == BAR && forall i :: 0 < i < 4 ==> m[i] != BAR
  {
    if f == Stream then [BAR, 83, 84, 91] else [BAR, 77, 84, 123]
  }

  /** "]" or "}". */
  function Close(f: Family): byte { if f == Stream then 93 else 125 }

  predicate MarkerAt(s: bytes, f: Family, i: nat) { i + 4 <= |s| && s[i..i + 4] == Marker(f) }

  predicate HasMarker(s: bytes)
  {
    exists i :: 0 <= i < |s| && (MarkerAt(s, Stream, i) || MarkerAt(s, Measurement, i))
  }

  /** The last marker before n that leaves room for the closing byte, or -1. */
  function LastMarker(s: bytes, f: Family, n: nat): (i: int)
    requires n <= |s|
    ensures -1 <= i < n
    ensures i >= 0 ==> MarkerAt(s, f, i) && i + 5 <= |s|
  {
    if n == 0 then -1
    else if MarkerAt(s, f, n - 1) && n - 1 + 5 <= |s| then n - 1
    else LastMarker(s, f, n - 1)
  }

  method FindLastMarker(s: bytes, f: Family) returns (block: int)
    ensures block == LastMarker(s, f, |s|)
  {
    block := -1;
    for i := 0 to |s|
      invariant block == LastMarker(s, f, i)
    {
      if s[i] == BAR && |s| - i >= 5 && s[i..i + 4] == Marker(f) { block := i; }
    }
  }

  datatype Eaten = Eaten(ok: bool, rest: bytes, tags: seq<bytes>, used: nat)

  /** eat_up_tags: takes the block of one family off the end of the name. When the block's
      tags do not parse, the name stays and the tags read so far are kept. */
  function EatUp(repl: Option<Replacer>, f: Family, s: bytes, tags: seq<bytes>, max: nat, used: nat): (e: Eaten)
  {
    if |s| < 5 || s[|s| - 1] != Close(f) then Eaten(false, s, tags, used)
    else
      var i := LastMarker(s, f, |s|);
      if i < 0 then Eaten(false, s, tags, used)
      else
        var b := BuildTags(repl, s[i + 4..|s| - 1], tags, max, used);
        if b.ok then Eaten(true, s[..i], b.tags, b.used) else Eaten(false, s, b.tags, b.used)
  }

  datatype Split = Split(base: bytes, stream: seq<bytes>, measurement: seq<bytes>, used: nat)

  /** The eating loop: a stream block, else a measurement block, until neither comes off. */
  function EatAll(repl: Option<Replacer>, at: Split, max: (nat, nat)): (r: Split)
    ensures |at.stream| <= max.0 ==> |r.stream| <= max.0
    ensures |at.measurement| <= max.1 ==> |r.measurement| <= max.1
    decreases |at.base|
  {
    var a := EatUp(repl, Stream, at.base, at.stream, max.0, at.used);
    if a.ok then EatAll(repl, Split(a.rest, a.tags, at.measurement, a.used), max)
    else
      var b := EatUp(repl, Measurement, at.base, at.measurement, max.1, a.used);
      var next := Split(b.rest, a.tags, b.tags, b.used);
      if b.ok then EatAll(repl, next, max) else next
  }

  /** How a tag is decoded in place: the buffer is the tag, and a byte more when the stored
      eight bit category size says that nothing follows the category. */
  function DecodeStored(e: bytes): bytes
  {
    var c := IndexOf(e, COLON);
    var category := if c < |e| then c + 1 else |e|;
    DecodeTag(if category % 256 == |e| then |e| + 1 else |e|, e)
  }

  function DecodeAll(es: seq<bytes>): (ds: seq<bytes>)
    ensures |ds| == |es|
    ensures forall i :: 0 <= i < |es| ==> ds[i] == DecodeStored(es[i])
  {
    if es == [] then [] else [DecodeStored(es[0])] + DecodeAll(es[1..])
  }

  /** The text of a decoded tag, within NOIT_TAG_MAX_PAIR_LEN bytes. */
  const Enc: Encoder := d => EncodeTag(MAX_PAIR_LEN, d)

  /** The bytes left in an output buffer: a size_t subtraction, which wraps around once the
      name has outgrown the buffer. */
  function Room(outLen: nat, used: nat): nat
  {
    if used <= outLen then outLen - used
    else if used <= outLen + SIZE_MAX_PLUS_1 then SIZE_MAX_PLUS_1 + outLen - used
    else 0
  }

  /** The subtraction of two size_t numbers. */
  lemma RoomIs(outLen: nat, used: nat)
    requires outLen < 0x1_0000_0000_0000_0000 && used < 0x1_0000_0000_0000_0000
    ensures Room(outLen, used) == (outLen - used) % 0x1_0000_0000_0000_0000
  {}

  function CountCommas(s: bytes): (n: nat)
    ensures n <= |s|
  {
    if s == [] then 0 else (if s[0] == COMMA then 1 else 0) + CountCommas(s[1..])
  }

  datatype Canonical = Name(text: bytes) | Failed(code: int)

  /** One printed block, or nothing when it is not wanted or there are no tags. */
  function PrintBlock(enc: Encoder, f: Family, wanted: bool, ds: seq<bytes>, outLen: nat, used: nat): Option<bytes>
  {
    if !wanted || ds == [] then Some([])
    else
      match PrintTags(enc, ds, Room(outLen, used + 4))
      case None => None
      case Some(t) => Some(Marker(f) + t + [Close(f)])
  }

  /** The canonical name of a clean base and two lists of decoded tags. */
  function PrintName(enc: Encoder, base: bytes, ss: seq<bytes>, ms: seq<bytes>, outLen: nat, want: (bool, bool)): Canonical
  {
    if base == [] then Failed(-5)
    else
      match PrintBlock(enc, Stream, want.0, ss, outLen, |base|)
      case None => Failed(-6)
      case Some(s) =>
        match PrintBlock(enc, Measurement, want.1, ms, outLen, |base| + |s|)
        case None => Failed(-7)
        case Some(m) =>
          if |base + s + m| >= MAX_METRIC_TAGGED_NAME then Failed(-8) else Name(base + s + m)
  }

  function StandIn(sha: Sha1): Replacer { e => Replacement(sha, e) }

  /** noit_metric_canonicalize_ex. */
  function Canonicalize(sha: Sha1, input: bytes, outLen: nat, want: (bool, bool)): Canonical
  {
    if outLen < |input| then Failed(-1)
    else if CountCommas(input) > MAX_TAGS then Failed(-3)
    else
      var sp := EatAll(Some(StandIn(sha)), Split(input, [], [], 0), (MAX_TAGS, MAX_TAGS));
      if HasMarker(sp.base) then Failed(-4)
      else PrintName(Enc, CleanName(sp.base), SortDedup(DecodeAll(sp.stream)),
                     SortDedup(DecodeAll(sp.measurement)), outLen, want)
  }

  /** noit_metric_parse_tags: the base of an already canonical name and its tags' texts, with
      room for maxS and maxM of them. */
  function ParseTags(input: bytes, maxS: nat, maxM: nat): Option<(bytes, seq<bytes>, seq<bytes>)>
  {
    if |input| > MAX_METRIC_TAGGED_NAME then None
    else
      var sp := EatAll(None, Split(input, [], [], 0), (maxS, maxM));
      if HasMarker(sp.base) then None else Some((sp.base, sp.stream, sp.measurement))
  }

  /** Tag texts are never empty, so the printing loop's room checks amount to one. */
  lemma EncNonEmpty()
    ensures NonEmptyTexts(Enc)
  {
    forall d: bytes | Enc(d).Encoded? ensures Enc(d).text != [] {
      TextHasNoStructure(MAX_PAIR_LEN, d);
    }
  }

  /** The loop over the two kinds of block, as the source runs it. */
  method EatAllBlocks(repl: Option<Replacer>, input: bytes, maxS: nat, maxM: nat) returns (sp: Split)
    ensures sp == EatAll(repl, Split(input, [], [], 0), (maxS, maxM))
  {
    sp := Split(input, [], [], 0);
    while true
      invariant EatAll(repl, sp, (maxS, maxM)) == EatAll(repl, Split(input, [], [], 0), (maxS, maxM))
      decreases |sp.base|
    {
      var a := EatUp(repl, Stream, sp.base, sp.stream, maxS, sp.used);
      if a.ok {
        sp := Split(a.rest, a.tags, sp.measurement, a.used);
      } else {
        var b := EatUp(repl, Measurement, sp.base, sp.measurement, maxM, a.used);
        sp := Split(b.rest, a.tags, b.tags, b.used);
        if !b.ok { return; }
      }
    }
  }

  method PrintBlockInto(f: Family, wanted: bool, ds: seq<bytes>, outLen: nat, used: nat) returns (r: Option<bytes>)
    ensures r == PrintBlock(Enc, f, wanted, ds, outLen, used)
  {
    if !wanted || ds == [] { return Some([]); }
    EncNonEmpty();
    var t := PrintTagsInto(Enc, ds, Room(outLen, used + 4));
    if t.None? { return None; }
    return Some(Marker(f) + t.value + [Close(f)]);
  }

  /** What the C library's qsort promises. */
  ghost predicate Sorts(qsort: seq<bytes> -> seq<bytes>)
  {
    forall s :: Sorted(qsort(s)) && Elements(qsort(s)) == Elements(s)
  }

  method CountCommasLoop(input: bytes) returns (commas: nat)
    ensures commas == CountCommas(input)
  {
    commas := 0;
    for i := 0 to |input|
      invariant commas + CountCommas(input[i..]) == CountCommas(input)
    {
      assert input[i..][1..] == input[i + 1..];
      if input[i] == COMMA { commas := commas + 1; }
    }
  }

  /** The tags of one kind, decoded, sorted and without repeats. */
  method SortTags(qsort: seq<bytes> -> seq<bytes>, es: seq<bytes>) returns (ss: seq<bytes>)
    requires Sorts(qsort)
    ensures ss == SortDedup(DecodeAll(es))
  {
    var ds := DecodeAll(es);
    ss := DedupSorted(ds, qsort(ds));
  }

  /** The clean base and the two blocks, written after each other. */
  method PrintNameInto(base: bytes, ss: seq<bytes>, ms: seq<bytes>, outLen: nat, want: (bool, bool)) returns (r: Canonical)
    ensures r == PrintName(Enc, base, ss, ms, outLen, want)
  {
    if base == [] { return Failed(-5); }
    var out := base;
    var s := PrintBlockInto(Stream, want.0, ss, outLen, |out|);
    if s.None? { return Failed(-6); }
    out := out + s.value;
    var m := PrintBlockInto(Measurement, want.1, ms, outLen, |out|);
    if m.None? { return Failed(-7); }
    out := out + m.value;
    if |out| >= MAX_METRIC_TAGGED_NAME { return Failed(-8); }
    return Name(out);
  }

  /** noit_metric_canonicalize_ex, step by step, for any qsort. */
  method CanonicalizeInto(sha: Sha1, qsort: seq<bytes> -> seq<bytes>, input: bytes, outLen: nat, want: (bool, bool))
      returns (r: Canonical)
    requires Sorts(qsort)
    ensures r == Canonicalize(sha, input, outLen, want)
  {
    if outLen < |input| { return Failed(-1); }
    var commas := CountCommasLoop(input);
    if commas > MAX_TAGS { return Failed(-3); }
    var sp := EatAllBlocks(Some(StandIn(sha)), input, MAX_TAGS, MAX_TAGS);
    if HasMarker(sp.base) { return Failed(-4); }
    var ss := SortTags(qsort, sp.stream);
    var ms := SortTags(qsort, sp.measurement);
    r := PrintNameInto(CleanName(sp.base), ss, ms, outLen, want);
  }
}
