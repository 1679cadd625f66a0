/** One metric tag: the characters it may hold, its plain or base 64 text, and its
    decoded form, in which the unit separator stands between category and value. */
module TagCodec {
  import opened Options
  import opened Bytes
  import opened Base64

  const QUOTE: byte := 34
  const COMMA: byte := 44
  const COLON: byte := 58
  const LETTER_B: byte := 98
  const SEPARATOR: byte := 31

  const MAX_PAIR_LEN := 256
  const MAX_CAT_LEN := 254

  datatype Kind = Key | Value

  /** vtagmap_key and vtagmap_value, as ranges. */
  predicate Admits(k: Kind, c: byte)
  {
    || 33 <= c <= 39
    || 45 <= c <= 57
    || c == 63
    || 64 <= c <= 90
    || 94 <= c <= 122
    || (k == Key && c == 43)
    || (k == Value && (c == 58 || c == 61))
  }

  /** Letters, digits and ! " # $ % & ' - . / ? @ ^ _ ` in both, a plus only in keys, and a colon and an
      equals sign only in values. */
  lemma AdmitsIs(c: byte)
    ensures var common := 48 <= c <= 57 || 65 <= c <= 90 || 97 <= c <= 122
                          || c in {33, 34, 35, 36, 37, 38, 39, 45, 46, 47, 63, 64, 94, 95, 96};
            (Admits(Key, c) <==> common || c == 43) && (Admits(Value, c) <==> common || c == 58 || c == 61)
  {}

  predicate Plain(k: Kind, p: bytes) { forall c :: c in p ==> Admits(k, c) }

  /** Starts with the two bytes that announce base 64. */
  predicate Quoted(p: bytes) { |p| >= 2 && p[0] == LETTER_B && p[1] == QUOTE }

  predicate QuotedBase64(p: bytes)
  {
    |p| >= 3 && Quoted(p) && p[|p| - 1] == QUOTE &&
    forall i :: 2 <= i < |p| - 1 ==> IsSymbolOrPad(p[i])
  }

  /** The text of a category or value that the parser admits. */
  predicate Taggable(k: Kind, p: bytes)
  {
    if |p| >= 3 && Quoted(p) then QuotedBase64(p) else Plain(k, p)
  }

  /** Counts the good bytes of a part and compares the count with the length. */
  method IsTaggablePart(k: Kind, p: bytes) returns (r: bool)
    ensures r <==> Taggable(k, p)
  {
    var good := 0;
    if |p| >= 3 && Quoted(p) {
      if p[|p| - 1] != QUOTE { return false; }
      good := 3;
      for i := 2 to |p| - 1
        invariant good <= i + 1
        invariant good == i + 1 <==> forall j :: 2 <= j < i ==> IsSymbolOrPad(p[j])
      {
        if IsSymbolOrPad(p[i]) { good := good + 1; }
      }
    } else {
      for i := 0 to |p|
        invariant good <= i
        invariant good == i <==> Plain(k, p[..i])
      {
        assert p[..i + 1] == p[..i] + [p[i]];
        if Admits(k, p[i]) { good := good + 1; }
      }
      assert p[..|p|] == p;
    }
    return good == |p|;
  }

  function EncodePart(k: Kind, p: bytes): bytes
  {
    if Plain(k, p) then p else [LETTER_B, QUOTE] + Encode(p) + [QUOTE]
  }

  function DecodePart(t: bytes): Option<bytes>
  {
    if !Quoted(t) then Some(t)
    else if |t| < 3 || t[|t| - 1] != QUOTE then None
    else Decode(t[2..|t| - 1])
  }

  /** A part whose own plain text would be read back as base 64. */
  predicate Ambiguous(k: Kind, p: bytes) { Quoted(p) && Plain(k, p) }

  /** The bytes that end or delimit a tag in a metric name. */
  predicate Structural(c: byte) { c == COMMA || c == 124 || c == 91 || c == 93 || c == 123 || c == 125 }

  lemma QuotedText(p: bytes)
    ensures var t := [LETTER_B, QUOTE] + Encode(p) + [QUOTE];
            && Quoted(t) && QuotedBase64(t) && t[2..|t| - 1] == Encode(p)
            && |t| == EncodedLength(|p|) + 3
  {
    var t := [LETTER_B, QUOTE] + Encode(p) + [QUOTE];
    assert t[2..|t| - 1] == Encode(p);
    forall i | 2 <= i < |t| - 1 ensures IsSymbolOrPad(t[i]) {
      assert t[i] == Encode(p)[i - 2];
    }
  }

  /** The text of a part reads back as the part exactly when it is not ambiguous. */
  lemma PartRoundTrip(k: Kind, p: bytes)
    ensures DecodePart(EncodePart(k, p)) == Some(p) <==> !Ambiguous(k, p)
    ensures Ambiguous(k, p) && DecodePart(p).Some? ==> |DecodePart(p).value| < |p|
  {
    QuotedText(p);
    RoundTrip(p);
  }

  lemma PartText(k: Kind, p: bytes)
    ensures !Ambiguous(k, p) ==> Taggable(k, EncodePart(k, p))
    ensures |p| <= |EncodePart(k, p)|
    ensures |EncodePart(k, p)| == if Plain(k, p) then |p| else EncodedLength(|p|) + 3
    ensures forall c :: c in EncodePart(k, p) ==> !Structural(c) && (k == Key ==> c != COLON)
  {
    QuotedText(p);
  }

  datatype Encoding = Encoded(text: bytes) | Rejected(code: int)

  ghost function Pair(key: bytes, value: bytes): bytes { key + [SEPARATOR] + value }

  /** noit_metric_tagset_encode_tag: a decoded tag to its text, within maxLen bytes. */
  function EncodeTag(maxLen: nat, d: bytes): Encoding
  {
    if maxLen > MAX_PAIR_LEN + 1 then Rejected(-1)
    else if |d| < 1 then Rejected(-2)
    else
      var s := IndexOf(d, SEPARATOR);
      if s == 0 then Rejected(-3)
      else
        var key := EncodePart(Key, d[..s]);
        var value := EncodePart(Value, if s < |d| then d[s + 1..] else []);
        if |key| + |value| + 1 > maxLen then Rejected(-4)
        else Encoded(key + [COLON] + value)
  }

  method FindSeparator(d: bytes) returns (sep: nat)
    ensures sep == IndexOf(d, SEPARATOR)
  {
    sep := |d|;
    for i := 0 to |d|
      invariant SEPARATOR !in d[..i]
    {
      if d[i] == SEPARATOR {
        IndexOfIs(d, SEPARATOR, i);
        return i;
      }
      assert d[..i + 1] == d[..i] + [d[i]];
    }
    assert d[..|d|] == d;
    IndexOfIs(d, SEPARATOR, |d|);
  }

  /** Counts the bytes that keep a part from being plain and sizes its text. */
  method MeasurePart(k: Kind, p: bytes) returns (needsBase64: bool, len: nat)
    ensures needsBase64 <==> !Plain(k, p)
    ensures len == |EncodePart(k, p)|
  {
    var foreign := 0;
    for i := 0 to |p|
      invariant foreign >= 0
      invariant foreign == 0 <==> Plain(k, p[..i])
    {
      assert p[..i + 1] == p[..i] + [p[i]];
      if !Admits(k, p[i]) { foreign := foreign + 1; }
    }
    assert p[..|p|] == p;
    needsBase64 := foreign > 0;
    len := if needsBase64 then EncodedLength(|p|) + 3 else |p|;
  }

  /** The encoder as the source runs it: find the separator, size both parts, check the
      room, then write with a moving end. */
  method EncodeTagInto(maxLen: nat, d: bytes) returns (r: Encoding)
    ensures r == EncodeTag(maxLen, d)
  {
    if maxLen > MAX_PAIR_LEN + 1 { return Rejected(-1); }
    if |d| < 1 { return Rejected(-2); }
    var sep := FindSeparator(d);
    if sep == 0 { return Rejected(-3); }
    var key, value := d[..sep], if sep < |d| then d[sep + 1..] else [];
    var keyBase64, keyLen := MeasurePart(Key, key);
    var valueBase64, valueLen := MeasurePart(Value, value);
    if keyLen + valueLen + 1 > maxLen { return Rejected(-4); }
    var out := if keyBase64 then [LETTER_B, QUOTE] + Encode(key) + [QUOTE] else key;
    out := out + [COLON];
    out := out + if valueBase64 then [LETTER_B, QUOTE] + Encode(value) + [QUOTE] else value;
    return Encoded(out);
  }

  /** noit_metric_tagset_decode_tag: a tag's text to its decoded form, empty on failure. */
  function DecodeTag(maxLen: nat, e: bytes): bytes
  {
    var c := IndexOf(e, COLON);
    var value := if c < |e| then e[c + 1..] else [];
    match DecodePart(e[..c])
    case None => []
    case Some(key) =>
      if SEPARATOR in key || |key| >= maxLen then []
      else
        match DecodePart(value)
        case None => []
        case Some(v) =>
          if Quoted(value) && |v| > maxLen - |key| - 1 then [] else key + [SEPARATOR] + v
  }

  /** What a tag's text stands for when the buffer is large enough. */
  function Decoded(e: bytes): bytes { DecodeTag(|e| + 1, e) }

  lemma DecodePartShrinks(t: bytes)
    ensures DecodePart(t).Some? ==> |DecodePart(t).value| <= |t|
  {}

  /** A buffer as long as the text is enough when the text has a colon; without one the
      separator needs a byte more. */
  lemma DecodeFits(maxLen: nat, e: bytes)
    requires maxLen >= |e| + (if COLON in e then 0 else 1)
    ensures DecodeTag(maxLen, e) == Decoded(e)
  {
    var c := IndexOf(e, COLON);
    assert COLON in e <==> c < |e| by { if c < |e| { assert e[c] == COLON; } else { assert e[..c] == e; } }
    DecodePartShrinks(e[..c]);
    DecodePartShrinks(if c < |e| then e[c + 1..] else []);
  }

  lemma PairIndex(key: bytes, value: bytes)
    requires SEPARATOR !in key
    ensures IndexOf(Pair(key, value), SEPARATOR) == |key|
    ensures Pair(key, value)[..|key|] == key
    ensures Pair(key, value)[|key| + 1..] == value
  {
    var d := Pair(key, value);
    assert d[..|key|] == key;
    IndexOfIs(d, SEPARATOR, |key|);
  }

  /** The text of a pair: category text, colon, value text. */
  lemma EncodePair(maxLen: nat, key: bytes, value: bytes)
    requires maxLen <= MAX_PAIR_LEN + 1 && key != [] && SEPARATOR !in key
    ensures var k, v := EncodePart(Key, key), EncodePart(Value, value);
            EncodeTag(maxLen, Pair(key, value))
              == if |k| + |v| + 1 > maxLen then Rejected(-4) else Encoded(k + [COLON] + v)
  {
    PairIndex(key, value);
  }

  lemma TextSplits(key: bytes, value: bytes)
    requires COLON !in key
    ensures var e := key + [COLON] + value;
            IndexOf(e, COLON) == |key| && e[..|key|] == key && e[|key| + 1..] == value
  {
    var e := key + [COLON] + value;
    assert e[..|key|] == key;
    IndexOfIs(e, COLON, |key|);
  }

  lemma KeyTextHasNoColon(key: bytes)
    ensures COLON !in EncodePart(Key, key)
  {
    PartText(Key, key);
  }

  /** A text decodes to its parts around byte 31, unless a part cannot be decoded, the key has such a byte
      or fills the buffer, or a value in base 64 does not fit in what is left. */
  lemma DecodeBounded(maxLen: nat, k: bytes, v: bytes)
    requires 58 !in k
    ensures DecodeTag(maxLen, k + [58] + v)
         == match (DecodePart(k), DecodePart(v))
            case (Some(dk), Some(dv)) =>
              if 31 in dk || |dk| >= maxLen || (Quoted(v) && |dk| + 1 + |dv| > maxLen) then [] else dk + [31] + dv
            case _ => []
  {
    TextSplits(k, v);
  }

  /** A text with a colon decodes part by part. */
  lemma DecodeJoined(bufLen: nat, k: bytes, v: bytes)
    requires COLON !in k && bufLen >= |k| + |v| + 1
    ensures DecodeTag(bufLen, k + [COLON] + v)
         == match (DecodePart(k), DecodePart(v))
            case (Some(dk), Some(dv)) => (if SEPARATOR in dk then [] else Pair(dk, dv))
            case _ => []
  {
    TextSplits(k, v);
    DecodePartShrinks(k);
    DecodePartShrinks(v);
  }

  lemma PairInjective(key: bytes, value: bytes, key': bytes, value': bytes)
    requires SEPARATOR !in key && SEPARATOR !in key'
    ensures Pair(key, value) == Pair(key', value') <==> key == key' && value == value'
  {
    PairIndex(key, value);
    PairIndex(key', value');
  }

  lemma JoinedDecodesTo(bufLen: nat, k: bytes, v: bytes, key: bytes, value: bytes)
    requires COLON !in k && bufLen >= |k| + |v| + 1 && SEPARATOR !in key
    ensures DecodeTag(bufLen, k + [COLON] + v) == Pair(key, value)
       <==> DecodePart(k) == Some(key) && DecodePart(v) == Some(value)
  {
    DecodeJoined(bufLen, k, v);
    if DecodePart(k).Some? && DecodePart(v).Some? && SEPARATOR !in DecodePart(k).value {
      PairInjective(DecodePart(k).value, DecodePart(v).value, key, value);
    }
  }

  /** Decoding an encoded tag gives the tag back exactly when neither part is ambiguous. */
  lemma TagRoundTrip(maxLen: nat, bufLen: nat, key: bytes, value: bytes)
    requires key != [] && SEPARATOR !in key
    requires EncodeTag(maxLen, Pair(key, value)).Encoded?
    requires bufLen >= |EncodeTag(maxLen, Pair(key, value)).text|
    ensures DecodeTag(bufLen, EncodeTag(maxLen, Pair(key, value)).text) == Pair(key, value)
       <==> !Ambiguous(Key, key) && !Ambiguous(Value, value)
  {
    EncodePair(maxLen, key, value);
    KeyTextHasNoColon(key);
    JoinedDecodesTo(bufLen, EncodePart(Key, key), EncodePart(Value, value), key, value);
    PartRoundTrip(Key, key);
    PartRoundTrip(Value, value);
  }

  /** A tag's text never holds a comma, bar, bracket or brace. */
  lemma TextHasNoStructure(maxLen: nat, d: bytes)
    requires EncodeTag(maxLen, d).Encoded?
    ensures forall c :: c in EncodeTag(maxLen, d).text ==> c !in {44, 91, 93, 123, 124, 125}
    ensures 58 in EncodeTag(maxLen, d).text
  {
    var s := IndexOf(d, SEPARATOR);
    var value := if s < |d| then d[s + 1..] else [];
    PartText(Key, d[..s]);
    PartText(Value, value);
    var k := EncodePart(Key, d[..s]);
    assert EncodeTag(maxLen, d).text == k + [COLON] + EncodePart(Value, value);
    assert EncodeTag(maxLen, d).text[|k|] == COLON;
  }
}
