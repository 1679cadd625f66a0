/** Reading one tag, and a comma separated run of tags, off the front of a text. */
module TagParse {
  import opened Options
  import opened Bytes
  import opened Base64
  import opened TagCodec

  const MAX_TAG_REPLACEMENTS := 32

  /** What puts a shorter text in the place of an over-long tag's, if it can. */
  type Replacer = bytes -> Option<bytes>

  datatype Parsed = Parsed(size: nat, category: nat, tooLong: bool)

  /** noit_metric_tags_parse_one: the tag that ends at the first comma. The last value of a
      text is not validated, and neither is a bare category that a comma ends. */
  function ParseOne(s: bytes): (r: Option<Parsed>)
    ensures r.Some? ==> 0 < r.value.size <= |s|
  {
    var stop := IndexOf(s, COMMA);
    var colon := IndexOf(s[..stop], COLON);
    if stop == 0 || colon == 0 then None
    else if colon < stop then
      if Taggable(Key, s[..colon]) && (stop < |s| ==> Taggable(Value, s[colon + 1..stop]))
      then Some(Parsed(stop, colon + 1, stop > MAX_PAIR_LEN))
      else None
    else if stop == |s| && !Taggable(Key, s) then None
    else Some(Parsed(stop, stop, stop > MAX_PAIR_LEN))
  }

  /** The loop of the source, in which colonPos == 0 stands for "no colon yet". */
  method ParseOneScan(s: bytes) returns (r: Option<Parsed>)
    ensures r == ParseOne(s)
  {
    var colonPos, cur := 0, 0;
    while cur < |s|
      invariant cur <= |s| && COMMA !in s[..cur]
      invariant colonPos == 0 ==> COLON !in s[..cur]
      invariant colonPos == 0 && cur == |s| ==> s == []
      invariant colonPos > 0 ==> colonPos < cur && COLON !in s[..colonPos] && s[colonPos] == COLON
                                 && Taggable(Key, s[..colonPos])
    {
      var c := s[cur];
      assert s[..cur + 1] == s[..cur] + [c];
      if c == COLON && colonPos == 0 {
        KeyEndsAt(s, cur);
        if cur == 0 { return None; }
        colonPos := cur;
        var ok := IsTaggablePart(Key, s[..cur]);
        if !ok { return None; }
      } else if c == COMMA {
        IndexOfIs(s, COMMA, cur);
        if colonPos == 0 {
          assert s[..cur][..cur] == s[..cur];
          IndexOfIs(s[..cur], COLON, cur);
          colonPos := cur;
        } else {
          KeyEndsAt(s, colonPos);
          var ok := IsTaggablePart(Value, s[colonPos + 1..cur]);
          if !ok { return None; }
        }
        break;
      } else if cur == |s| - 1 && colonPos == 0 {
        cur := cur + 1;
        colonPos := cur;
        assert s[..cur] == s;
        IndexOfIs(s, COMMA, cur);
        IndexOfIs(s, COLON, cur);
        var ok := IsTaggablePart(Key, s[..cur]);
        if !ok { return None; }
        break;
      }
      cur := cur + 1;
    }
    if cur == |s| {
      assert s[..cur] == s;
      IndexOfIs(s, COMMA, cur);
      if colonPos < cur { KeyEndsAt(s, colonPos); }
    }
    if colonPos == 0 { return None; }
    return Some(Parsed(cur, if colonPos >= cur then cur else colonPos + 1, cur > MAX_PAIR_LEN));
  }

  /** A first colon before any comma is the first colon of the tag. */
  lemma KeyEndsAt(s: bytes, colon: nat)
    requires colon < |s| && s[colon] == COLON
    requires COLON !in s[..colon] && COMMA !in s[..colon]
    ensures var stop := IndexOf(s, COMMA);
            colon < stop && IndexOf(s[..stop], COLON) == colon
  {
    assert s[..colon + 1] == s[..colon] + [COLON];
    IndexOfBeyond(s, COMMA, colon + 1);
    var t := s[..IndexOf(s, COMMA)];
    assert t[..colon] == s[..colon] && t[colon] == COLON;
    IndexOfIs(t, COLON, colon);
  }

  datatype Build = Build(ok: bool, tags: seq<bytes>, used: nat)

  /** What an over-long tag adds: its stand-in while there is a replacement slot left. */
  function AddLong(repl: Option<Replacer>, t: bytes, tags: seq<bytes>, used: nat): (b: Build)
    ensures b.ok && |b.tags| <= |tags| + 1
  {
    if repl.None? || used >= MAX_TAG_REPLACEMENTS then Build(true, tags, used)
    else
      match repl.value(t)
      case None => Build(true, tags, used)
      case Some(text) => Build(true, tags + [text], used + 1)
  }

  /** build_tags: appends the tags of s to tags, at most max of them in all. */
  function BuildTags(repl: Option<Replacer>, s: bytes, tags: seq<bytes>, max: nat, used: nat): (b: Build)
    ensures |tags| <= max ==> |b.tags| <= max
  {
    if s == [] || |tags| >= max then Build(true, tags, used)
    else
      match ParseOne(s)
      case None => Build(false, tags, used)
      case Some(p) =>
        var b := if p.tooLong then AddLong(repl, s[..p.size], tags, used)
                 else Build(true, tags + [s[..p.size]], used);
        if p.size == |s| then b
        else if s[p.size] != COMMA || p.size + 1 == |s| then b.(ok := false)
        else BuildTags(repl, s[p.size + 1..], b.tags, max, b.used)
  }

  method BuildTagsLoop(repl: Option<Replacer>, s: bytes, tags: seq<bytes>, max: nat, used: nat) returns (b: Build)
    ensures b == BuildTags(repl, s, tags, max, used)
  {
    var input, out, u := s, tags, used;
    while input != [] && |out| < max
      invariant BuildTags(repl, input, out, max, u) == BuildTags(repl, s, tags, max, used)
      decreases |input|
    {
      var p := ParseOneScan(input);
      if p.None? { return Build(false, out, u); }
      var size := p.value.size;
      if p.value.tooLong {
        var a := AddLong(repl, input[..size], out, u);
        out, u := a.tags, a.used;
      } else {
        out := out + [input[..size]];
      }
      input := input[size..];
      if |input| > 0 {
        if input[0] != COMMA || |input| == 1 { return Build(false, out, u); }
        input := input[1..];
      }
    }
    return Build(true, out, u);
  }

  /** A text that reads as one whole tag in any position. */
  predicate GoodTag(e: bytes)
  {
    var c := IndexOf(e, COLON);
    && 0 < c && |e| <= MAX_PAIR_LEN
    && Taggable(Key, e[..c])
    && (c < |e| ==> Taggable(Value, e[c + 1..]))
  }

  lemma TaggableHasNoStructure(k: Kind, p: bytes)
    requires Taggable(k, p)
    ensures forall c :: c in p ==> !Structural(c)
  {
    if QuotedBase64(p) {
      forall i | 0 <= i < |p| ensures !Structural(p[i]) {
        if 2 <= i < |p| - 1 { assert IsSymbolOrPad(p[i]); }
      }
    }
  }

  lemma GoodTagText(e: bytes)
    requires GoodTag(e)
    ensures forall c :: c in e ==> !Structural(c)
  {
    var c := IndexOf(e, COLON);
    TaggableHasNoStructure(Key, e[..c]);
    if c < |e| {
      TaggableHasNoStructure(Value, e[c + 1..]);
      assert e == e[..c] + [COLON] + e[c + 1..];
    } else {
      assert e[..c] == e;
    }
  }

  lemma ParseGood(e: bytes, rest: bytes)
    requires GoodTag(e)
    requires rest == [] || rest[0] == COMMA
    ensures ParseOne(e + rest).Some?
    ensures ParseOne(e + rest).value.size == |e| && !ParseOne(e + rest).value.tooLong
  {
    GoodTagText(e);
    var s, c := e + rest, IndexOf(e, COLON);
    assert s[..|e|] == e;
    IndexOfIs(s, COMMA, |e|);
    assert e[..c] == s[..c];
    if c < |e| { assert e[c + 1..] == s[c + 1..|e|]; }
    if rest == [] { assert s == e; }
  }

  /** Tags joined by commas. */
  function Join(es: seq<bytes>): bytes
  {
    if es == [] then [] else if |es| == 1 then es[0] else es[0] + [COMMA] + Join(es[1..])
  }

  ghost predicate AllGood(es: seq<bytes>) { forall e :: e in es ==> GoodTag(e) }

  lemma {:induction false} JoinText(es: seq<bytes>)
    requires AllGood(es)
    ensures forall c :: c in Join(es) ==> !Structural(c) || c == COMMA
  {
    if es != [] {
      GoodTagText(es[0]);
      JoinText(es[1..]);
    }
  }

  lemma BuildFirst(repl: Option<Replacer>, e: bytes, rest: bytes, tags: seq<bytes>, max: nat, used: nat)
    requires GoodTag(e) && rest != [] && |tags| < max
    ensures BuildTags(repl, e + [COMMA] + rest, tags, max, used) == BuildTags(repl, rest, tags + [e], max, used)
  {
    var s := e + [COMMA] + rest;
    ParseGood(e, [COMMA] + rest);
    assert s == e + ([COMMA] + rest);
    assert s[..|e|] == e && s[|e| + 1..] == rest;
  }

  lemma BuildOne(repl: Option<Replacer>, e: bytes, tags: seq<bytes>, max: nat, used: nat)
    requires GoodTag(e) && |tags| < max
    ensures BuildTags(repl, e, tags, max, used) == Build(true, tags + [e], used)
  {
    ParseGood(e, []);
    assert e == e + [] && e[..|e|] == e;
  }

  lemma JoinNonEmpty(es: seq<bytes>)
    requires AllGood(es) && es != []
    ensures Join(es) != []
  {
    assert GoodTag(es[0]);
  }

  lemma BuildStep(repl: Option<Replacer>, es: seq<bytes>, tags: seq<bytes>, max: nat, used: nat)
    requires |es| > 1 && AllGood(es) && |tags| < max
    ensures AllGood(es[1..])
    ensures BuildTags(repl, Join(es), tags, max, used) == BuildTags(repl, Join(es[1..]), tags + [es[0]], max, used)
  {
    JoinNonEmpty(es[1..]);
    BuildFirst(repl, es[0], Join(es[1..]), tags, max, used);
  }

  /** A comma joined list of good tags splits back into exactly those tags. */
  lemma {:induction false} BuildJoined(repl: Option<Replacer>, es: seq<bytes>, tags: seq<bytes>, max: nat, used: nat)
    requires AllGood(es) && |tags| + |es| <= max
    ensures BuildTags(repl, Join(es), tags, max, used) == Build(true, tags + es, used)
    decreases |es|
  {
    if |es| == 0 {
    } else if |es| == 1 {
      BuildOne(repl, es[0], tags, max, used);
    } else {
      BuildStep(repl, es, tags, max, used);
      BuildJoined(repl, es[1..], tags + [es[0]], max, used);
      AppendHead(tags, es);
    }
  }

  /** A text that reads as one over-long tag in any position. */
  predicate LongTag(e: bytes)
  {
    var c := IndexOf(e, COLON);
    0 < c && |e| > 256 && Taggable(Key, e[..c]) && (c < |e| ==> Taggable(Value, e[c + 1..]))
  }

  lemma ParseLong(e: bytes, rest: bytes)
    requires LongTag(e) && (rest == [] || rest[0] == COMMA)
    ensures ParseOne(e + rest).Some? && ParseOne(e + rest).value.size == |e| && ParseOne(e + rest).value.tooLong
  {
    LongTagText(e);
    var s, c := e + rest, IndexOf(e, COLON);
    assert s[..|e|] == e;
    IndexOfIs(s, COMMA, |e|);
    assert e[..c] == s[..c];
    if c < |e| { assert e[c + 1..] == s[c + 1..|e|]; }
    if rest == [] { assert s == e; }
  }

  lemma LongTagText(e: bytes)
    requires LongTag(e)
    ensures COMMA !in e
  {
    var c := IndexOf(e, COLON);
    TaggableHasNoStructure(Key, e[..c]);
    if c < |e| {
      TaggableHasNoStructure(Value, e[c + 1..]);
      assert e == e[..c] + [COLON] + e[c + 1..];
    } else {
      assert e[..c] == e;
    }
  }

  /** What some over-long tags add: the stand-ins of those that have one, until 32 are used. */
  function StandIns(repl: Replacer, es: seq<bytes>, used: nat): seq<bytes>
  {
    if es == [] || used >= 32 then []
    else
      match repl(es[0])
      case None => StandIns(repl, es[1..], used)
      case Some(t) => [t] + StandIns(repl, es[1..], used + 1)
  }

  lemma AddedLong(repl: Replacer, es: seq<bytes>, tags: seq<bytes>, used: nat)
    requires es != []
    ensures var b := AddLong(Some(repl), es[0], tags, used);
            b.tags + StandIns(repl, es[1..], b.used) == tags + StandIns(repl, es, used)
  {
    if used < 32 && repl(es[0]).Some? {
      AppendAssoc(tags, [repl(es[0]).value], StandIns(repl, es[1..], used + 1));
    }
  }

  /** A list of over-long tags is read as their stand-ins, the first 32 of them. */
  lemma {:induction false} BuildLong(repl: Replacer, es: seq<bytes>, tags: seq<bytes>, max: nat, used: nat)
    requires (forall e :: e in es ==> LongTag(e)) && |tags| + |es| <= max
    ensures BuildTags(Some(repl), Join(es), tags, max, used).ok
    ensures BuildTags(Some(repl), Join(es), tags, max, used).tags == tags + StandIns(repl, es, used)
    decreases |es|
  {
    if es != [] {
      var b := AddLong(Some(repl), es[0], tags, used);
      AddedLong(repl, es, tags, used);
      if |es| == 1 {
        ParseLong(es[0], []);
        assert es[0] == es[0] + [] && es[0][..|es[0]|] == es[0];
      } else {
        var rest := Join(es[1..]);
        assert es[1] in es && es[1] in es[1..];
        ParseLong(es[0], [COMMA] + rest);
        assert Join(es) == es[0] + ([COMMA] + rest);
        assert Join(es)[..|es[0]|] == es[0] && Join(es)[|es[0]| + 1..] == rest;
        BuildLong(repl, es[1..], b.tags, max, b.used);
      }
    }
  }
}
