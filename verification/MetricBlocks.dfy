/** Names put together from a base and any number of tag blocks, and what the eating loop
    gets back from them. */
module MetricBlocks {
  import opened Options
  import opened Bytes
  import opened TagParse
  import opened MetricName

  datatype Block = Block(family: Family, tags: seq<bytes>)

  function RenderBlock(b: Block): (r: bytes)
    ensures |r| >= 5 && r[|r| - 1] == Close(b.family)
  {
    Marker(b.family) + Join(b.tags) + [Close(b.family)]
  }

  function Render(base: bytes, blocks: seq<Block>): bytes
  {
    if blocks == [] then base
    else Render(base, blocks[..|blocks| - 1]) + RenderBlock(blocks[|blocks| - 1])
  }

  /** The tags of one family in the order they are eaten: last block first. */
  function Gathered(f: Family, blocks: seq<Block>): seq<bytes>
  {
    if blocks == [] then []
    else
      var b := blocks[|blocks| - 1];
      (if b.family == f then b.tags else []) + Gathered(f, blocks[..|blocks| - 1])
  }

  lemma RenderSnoc(base: bytes, blocks: seq<Block>, b: Block)
    ensures Render(base, blocks + [b]) == Render(base, blocks) + RenderBlock(b)
  {
    assert (blocks + [b])[..|blocks|] == blocks;
  }

  lemma GatheredSnoc(f: Family, blocks: seq<Block>, b: Block)
    ensures Gathered(f, blocks + [b]) == (if b.family == f then b.tags else []) + Gathered(f, blocks)
  {
    assert (blocks + [b])[..|blocks|] == blocks;
  }

  /** Nothing, or one block. */
  function RenderOptional(bs: seq<Block>): bytes
    requires |bs| <= 1
  {
    if bs == [] then [] else RenderBlock(bs[0])
  }

  lemma RenderThen(base: bytes, a: seq<Block>, b: seq<Block>)
    requires |b| <= 1
    ensures Render(base, a + b) == Render(base, a) + RenderOptional(b)
  {
    if b == [] {
      AppendNothing(a);
      AppendNothing(Render(base, a));
    } else {
      Singleton(b);
      RenderSnoc(base, a, b[0]);
    }
  }

  lemma RenderTwo(base: bytes, a: seq<Block>, b: seq<Block>)
    requires |a| <= 1 && |b| <= 1
    ensures Render(base, a + b) == base + RenderOptional(a) + RenderOptional(b)
  {
    AppendNothing(a);
    RenderThen(base, [], a);
    RenderThen(base, a, b);
  }

  function TagsOptional(f: Family, bs: seq<Block>): seq<bytes>
    requires |bs| <= 1
  {
    if bs == [] || bs[0].family != f then [] else bs[0].tags
  }

  lemma GatheredThen(f: Family, a: seq<Block>, b: seq<Block>)
    requires |b| <= 1
    ensures Gathered(f, a + b) == TagsOptional(f, b) + Gathered(f, a)
  {
    AppendNothing(Gathered(f, a));
    if b == [] {
      AppendNothing(a);
    } else {
      Singleton(b);
      GatheredSnoc(f, a, b[0]);
    }
  }

  lemma GatheredTwo(f: Family, a: seq<Block>, b: seq<Block>)
    requires |a| <= 1 && |b| <= 1
    requires a != [] ==> a[0].family == Stream
    requires b != [] ==> b[0].family == Measurement
    ensures Gathered(f, a + b) == if f == Stream then TagsOptional(f, a) else TagsOptional(f, b)
  {
    AppendNothing(a);
    GatheredThen(f, [], a);
    GatheredThen(f, a, b);
    AppendNothing(TagsOptional(f, a));
    AppendNothing(TagsOptional(f, b));
  }

  ghost predicate GoodBlocks(blocks: seq<Block>) { forall b :: b in blocks ==> AllGood(b.tags) }

  lemma MarkerStarts(s: bytes, f: Family, i: nat)
    ensures MarkerAt(s, f, i) ==> s[i] == BAR
  {
    if MarkerAt(s, f, i) { assert s[i] == s[i..i + 4][0]; }
  }

  lemma {:induction false} LastMarkerIs(s: bytes, f: Family, n: nat, i: nat)
    requires i < n <= |s| && MarkerAt(s, f, i) && i + 5 <= |s|
    requires forall j :: i < j < n ==> s[j] != BAR
    ensures LastMarker(s, f, n) == i
  {
    if n - 1 > i {
      MarkerStarts(s, f, n - 1);
      LastMarkerIs(s, f, n - 1, i);
    }
  }

  lemma {:induction false} NoLastMarker(s: bytes, f: Family, n: nat)
    requires n <= |s| && !HasMarker(s)
    ensures LastMarker(s, f, n) == -1
  {
    if n > 0 {
      assert !MarkerAt(s, f, n - 1);
      NoLastMarker(s, f, n - 1);
    }
  }

  lemma EatBase(repl: Option<Replacer>, f: Family, s: bytes, tags: seq<bytes>, max: nat, used: nat)
    requires !HasMarker(s)
    ensures EatUp(repl, f, s, tags, max, used) == Eaten(false, s, tags, used)
  {
    NoLastMarker(s, f, |s|);
  }

  lemma BlockMarker(rest: bytes, b: Block)
    requires AllGood(b.tags)
    ensures var s := rest + RenderBlock(b);
            && LastMarker(s, b.family, |s|) == |rest|
            && s[|rest| + 4..|s| - 1] == Join(b.tags)
            && s[..|rest|] == rest
            && |s| >= 5 && s[|s| - 1] == Close(b.family)
  {
    var r := RenderBlock(b);
    var s := rest + r;
    JoinText(b.tags);
    assert s[|rest|..|rest| + 4] == r[..4] == Marker(b.family);
    assert s[|rest| + 4..|s| - 1] == r[4..|r| - 1] == Join(b.tags);
    forall j | |rest| < j < |s| ensures s[j] != BAR {
      var k := j - |rest|;
      assert s[j] == r[k];
      if k < 4 {
        assert r[k] == Marker(b.family)[k];
      } else if k < |r| - 1 {
        assert r[k] == Join(b.tags)[k - 4];
        assert r[k] in Join(b.tags);
      }
    }
    LastMarkerIs(s, b.family, |s|, |rest|);
  }

  /** A block comes off the end with exactly its tags. */
  lemma EatBlock(repl: Option<Replacer>, rest: bytes, b: Block, tags: seq<bytes>, max: nat, used: nat)
    requires AllGood(b.tags) && |tags| + |b.tags| <= max
    ensures EatUp(repl, b.family, rest + RenderBlock(b), tags, max, used)
         == Eaten(true, rest, tags + b.tags, used)
  {
    BlockMarker(rest, b);
    BuildJoined(repl, b.tags, tags, max, used);
  }

  lemma EatOther(repl: Option<Replacer>, f: Family, rest: bytes, b: Block, tags: seq<bytes>, max: nat, used: nat)
    requires f != b.family
    ensures EatUp(repl, f, rest + RenderBlock(b), tags, max, used)
         == Eaten(false, rest + RenderBlock(b), tags, used)
  {}

  /** One turn of the loop on a name that ends in a block. */
  lemma EatAllBlock(repl: Option<Replacer>, rest: bytes, b: Block, st: seq<bytes>, mt: seq<bytes>, used: nat, max: (nat, nat))
    requires AllGood(b.tags)
    requires if b.family == Stream then |st| + |b.tags| <= max.0 else |mt| + |b.tags| <= max.1
    ensures EatAll(repl, Split(rest + RenderBlock(b), st, mt, used), max)
         == EatAll(repl, if b.family == Stream then Split(rest, st + b.tags, mt, used)
                         else Split(rest, st, mt + b.tags, used), max)
  {
    if b.family == Stream {
      EatBlock(repl, rest, b, st, max.0, used);
    } else {
      EatOther(repl, Stream, rest, b, st, max.0, used);
      EatBlock(repl, rest, b, mt, max.1, used);
    }
  }

  /** Eating a rendered name gives back its base and, per family, its blocks' tags. */
  lemma {:induction false} EatRendered(repl: Option<Replacer>, base: bytes, blocks: seq<Block>,
                                       st: seq<bytes>, mt: seq<bytes>, used: nat, max: (nat, nat))
    requires !HasMarker(base) && GoodBlocks(blocks)
    requires |st| + |Gathered(Stream, blocks)| <= max.0
    requires |mt| + |Gathered(Measurement, blocks)| <= max.1
    ensures EatAll(repl, Split(Render(base, blocks), st, mt, used), max)
         == Split(base, st + Gathered(Stream, blocks), mt + Gathered(Measurement, blocks), used)
    decreases |blocks|
  {
    if blocks == [] {
      EatBase(repl, Stream, base, st, max.0, used);
      EatBase(repl, Measurement, base, mt, max.1, used);
      AppendNothing(st);
      AppendNothing(mt);
    } else {
      var init, b := blocks[..|blocks| - 1], blocks[|blocks| - 1];
      EatAllBlock(repl, Render(base, init), b, st, mt, used, max);
      AppendNothing(Gathered(Stream, init));
      AppendNothing(Gathered(Measurement, init));
      if b.family == Stream {
        AppendAssoc(st, b.tags, Gathered(Stream, init));
        EatRendered(repl, base, init, st + b.tags, mt, used, max);
      } else {
        AppendAssoc(mt, b.tags, Gathered(Measurement, init));
        EatRendered(repl, base, init, st, mt + b.tags, used, max);
      }
    }
  }

  lemma EatFresh(repl: Option<Replacer>, base: bytes, blocks: seq<Block>, max: (nat, nat))
    requires !HasMarker(base) && GoodBlocks(blocks)
    requires |Gathered(Stream, blocks)| <= max.0 && |Gathered(Measurement, blocks)| <= max.1
    ensures EatAll(repl, Split(Render(base, blocks), [], [], 0), max)
         == Split(base, Gathered(Stream, blocks), Gathered(Measurement, blocks), 0)
  {
    EatRendered(repl, base, blocks, [], [], 0, max);
    AppendNothing(Gathered(Stream, blocks));
    AppendNothing(Gathered(Measurement, blocks));
  }
}
