/** The stand-in that build_tags makes for a tag whose text is longer than
    NOIT_TAG_MAX_PAIR_LEN: a part that does not fit keeps a prefix and ends in
    "_tldr_" and the hex SHA-1 of the whole part. SHA-1 is a parameter. */
module TagReplace {
  import opened Options
  import opened Bytes
  import opened Base64
  import opened TagCodec

  type Digest = h: bytes | |h| == 20 witness seq(20, _ => 0)
  type Sha1 = bytes -> Digest

  const SUFFIX_LEN := 46
  const LEADER: bytes := [95, 116, 108, 100, 114, 95]
  const SIZE_MAX_PLUS_1 := 0x1_0000_0000_0000_0000

  function Min(a: int, b: int): int { if a < b then a else b }

  function HexDigit(v: nat): byte
    requires v < 16
  {
    if v < 10 then 48 + v else 97 + v - 10
  }

  /** simple_sha1_hex over the digest's bytes. */
  function Hex(h: bytes): (x: bytes)
    ensures |x| == 2 * |h|
    ensures forall c :: c in x ==> 48 <= c <= 57 || 97 <= c <= 102
  {
    if h == [] then [] else [HexDigit(h[0] / 16), HexDigit(h[0] % 16)] + Hex(h[1..])
  }

  /** Two digits a byte, the high one first. */
  lemma {:induction false} HexIs(h: bytes, i: nat)
    requires i < |h|
    ensures var digits: bytes := [48, 49, 50, 51, 52, 53, 54, 55, 56, 57, 97, 98, 99, 100, 101, 102];
            Hex(h)[2 * i] == digits[h[i] / 16] && Hex(h)[2 * i + 1] == digits[h[i] % 16]
  {
    if i > 0 { HexIs(h[1..], i - 1); }
  }

  /** encode_len_b64, or the identity for a part that stays plain. */
  function EncLen(plain: bool, n: nat): nat { if plain then n else EncodedLength(n) + 3 }

  /** decode_len_b64 in size_t arithmetic, or the identity. */
  function DecLen(plain: bool, n: nat): nat
  {
    if plain then n else ((n - 3) % SIZE_MAX_PLUS_1 / 4 * 3 - 2) % SIZE_MAX_PLUS_1
  }

  predicate KeyTooBig(pk: bool, pv: bool, keyLen: nat, valueLen: nat)
  {
    EncLen(pk, keyLen)
      > Min(MAX_PAIR_LEN - Min(EncLen(pv, valueLen), EncLen(pv, SUFFIX_LEN)) - 1, MAX_CAT_LEN)
  }

  function KeyTarget(pk: bool, pv: bool, valueLen: nat): int
  {
    var t0 := DecLen(pk, MAX_CAT_LEN);
    var t1 := if valueLen + 1 > DecLen(pk, MAX_PAIR_LEN - MAX_CAT_LEN)
              then Min(t0, DecLen(pk, MAX_PAIR_LEN / 2)) else t0;
    if EncLen(pk, t1) + EncLen(pv, SUFFIX_LEN) + 1 > MAX_PAIR_LEN
    then DecLen(pk, MAX_PAIR_LEN - EncLen(pv, SUFFIX_LEN) - 1)
    else t1
  }

  function ValueRoom(pk: bool, keyLen: nat): int { MAX_PAIR_LEN - EncLen(pk, keyLen) - 1 }

  predicate ValueTooBig(pk: bool, pv: bool, keyLen: nat, valueLen: nat)
  {
    EncLen(pv, valueLen) > ValueRoom(pk, keyLen)
  }

  /** The sizes a category can be cut to. In size_t arithmetic decode_len_b64(2) is huge,
      so a base 64 category never takes the half-way cut. */
  lemma KeyTargetTable(pk: bool, pv: bool, valueLen: nat)
    requires valueLen < SIZE_MAX_PLUS_1 / 2
    ensures KeyTarget(pk, pv, valueLen)
         == if pk then (if valueLen >= 2 then 128 else if pv then 209 else 188)
            else if pv then 151 else 136
  {
    assert DecLen(false, 254) == 184 && DecLen(false, 2) > SIZE_MAX_PLUS_1 / 2;
    assert DecLen(false, 209) == 151 && DecLen(false, 188) == 136;
    assert EncLen(false, 46) == 67 && EncLen(false, 184) == 251;
  }

  /** The first size assertion: a category that is cut gets shorter, has room for the
      suffix, and still leaves the value room for its own suffix. */
  lemma KeyTargetBounds(pk: bool, pv: bool, keyLen: nat, valueLen: nat)
    requires KeyTooBig(pk, pv, keyLen, valueLen)
    requires valueLen < SIZE_MAX_PLUS_1 / 2
    ensures var t := KeyTarget(pk, pv, valueLen);
            && SUFFIX_LEN <= t < keyLen
            && EncLen(pk, t) < MAX_CAT_LEN
            && EncLen(pv, SUFFIX_LEN) <= ValueRoom(pk, t)
  {
    KeyTargetTable(pk, pv, valueLen);
    assert EncLen(false, 46) == 67 && EncLen(false, 151) == 207 && EncLen(false, 136) == 187;
  }

  /** The second size assertion: once the category fits, a value that is cut has room for
      the suffix and what is kept of it fits in what the category left. */
  lemma ValueTargetBounds(pk: bool, pv: bool, keyLen: nat, valueLen: nat)
    requires EncLen(pv, SUFFIX_LEN) <= ValueRoom(pk, keyLen) || EncLen(pv, valueLen) <= ValueRoom(pk, keyLen)
    requires ValueTooBig(pk, pv, keyLen, valueLen)
    ensures 0 <= ValueRoom(pk, keyLen)
    ensures var t := DecLen(pv, ValueRoom(pk, keyLen));
            && SUFFIX_LEN <= t < valueLen
            && EncLen(pv, t) <= ValueRoom(pk, keyLen)
  {
    if !pv { Base64Cut(ValueRoom(pk, keyLen), valueLen); }
  }

  /** How much of a value that is cut fits some room in base 64. */
  lemma Base64Cut(r: int, valueLen: nat)
    requires EncLen(false, SUFFIX_LEN) <= r < MAX_PAIR_LEN && EncLen(false, valueLen) > r
    ensures var t := DecLen(false, r); SUFFIX_LEN <= t < valueLen && EncLen(false, t) <= r
  {
    var q := (r - 3) / 4;
    DecLenSmall(r, q);
    TripleLength(q);
  }

  lemma DecLenSmall(r: int, q: int)
    requires 67 <= r < MAX_PAIR_LEN && q == (r - 3) / 4
    ensures DecLen(false, r) == 3 * q - 2 && 16 <= q <= 63
  {}

  lemma TripleLength(q: int)
    requires q >= 1
    ensures EncodedLength(3 * q - 2) == 4 * q
  {}

  function Shortened(sha: Sha1, part: bytes, size: nat): (s: bytes)
    requires SUFFIX_LEN <= size <= |part| + SUFFIX_LEN
    ensures |s| == size
  {
    part[..size - SUFFIX_LEN] + LEADER + Hex(sha(part))
  }

  lemma ShortenedPlain(k: Kind, sha: Sha1, part: bytes, size: nat)
    requires SUFFIX_LEN <= size <= |part| + SUFFIX_LEN
    ensures Plain(k, part) ==> Plain(k, Shortened(sha, part, size))
    ensures SEPARATOR !in part ==> SEPARATOR !in Shortened(sha, part, size)
  {
    assert Plain(k, LEADER);
    assert Plain(k, Hex(sha(part)));
    assert forall c :: c in part[..size - SUFFIX_LEN] ==> c in part;
  }

  function NewKey(sha: Sha1, key: bytes, value: bytes): bytes
    requires |value| < SIZE_MAX_PLUS_1 / 2
  {
    var pk, pv := Taggable(Key, key), Taggable(Value, value);
    if KeyTooBig(pk, pv, |key|, |value|) then
      KeyTargetBounds(pk, pv, |key|, |value|);
      Shortened(sha, key, KeyTarget(pk, pv, |value|))
    else key
  }

  /** The category has left the value either its own room or the suffix's. */
  lemma NewKeyLeavesRoom(sha: Sha1, key: bytes, value: bytes)
    requires |value| < SIZE_MAX_PLUS_1 / 2
    ensures var pk, pv, n := Taggable(Key, key), Taggable(Value, value), |NewKey(sha, key, value)|;
            && (EncLen(pv, SUFFIX_LEN) <= ValueRoom(pk, n) || EncLen(pv, |value|) <= ValueRoom(pk, n))
            && EncLen(pk, n) <= MAX_CAT_LEN
  {
    var pk, pv := Taggable(Key, key), Taggable(Value, value);
    if KeyTooBig(pk, pv, |key|, |value|) { KeyTargetBounds(pk, pv, |key|, |value|); }
  }

  function NewValue(sha: Sha1, key: bytes, value: bytes): bytes
    requires |value| < SIZE_MAX_PLUS_1 / 2
  {
    var pk, pv, n := Taggable(Key, key), Taggable(Value, value), |NewKey(sha, key, value)|;
    if ValueTooBig(pk, pv, n, |value|) then
      NewKeyLeavesRoom(sha, key, value);
      ValueTargetBounds(pk, pv, n, |value|);
      Shortened(sha, value, DecLen(pv, ValueRoom(pk, n)))
    else value
  }

  /** The key is either kept or cut to a shorter one. */
  lemma KeyCases(sha: Sha1, key: bytes, value: bytes)
    requires |value| < SIZE_MAX_PLUS_1 / 2
    ensures var pk, pv, k := Taggable(Key, key), Taggable(Value, value), NewKey(sha, key, value);
            if KeyTooBig(pk, pv, |key|, |value|)
            then SUFFIX_LEN <= |k| < |key| && k == Shortened(sha, key, |k|) && EncLen(pk, |k|) < MAX_CAT_LEN
            else k == key
  {
    var pk, pv := Taggable(Key, key), Taggable(Value, value);
    if KeyTooBig(pk, pv, |key|, |value|) { KeyTargetBounds(pk, pv, |key|, |value|); }
  }

  lemma ValueCases(sha: Sha1, key: bytes, value: bytes)
    requires |value| < SIZE_MAX_PLUS_1 / 2
    ensures var pk, pv, n, v := Taggable(Key, key), Taggable(Value, value), |NewKey(sha, key, value)|, NewValue(sha, key, value);
            if ValueTooBig(pk, pv, n, |value|)
            then && SUFFIX_LEN <= |v| < |value| && v == Shortened(sha, value, |v|)
                 && EncLen(pv, |v|) <= ValueRoom(pk, n) && ValueRoom(pk, n) >= 0 && |v| == DecLen(pv, ValueRoom(pk, n))
            else v == value
  {
    var pk, pv, n := Taggable(Key, key), Taggable(Value, value), |NewKey(sha, key, value)|;
    if ValueTooBig(pk, pv, n, |value|) {
      NewKeyLeavesRoom(sha, key, value);
      ValueTargetBounds(pk, pv, n, |value|);
    }
  }

  /** A value that is cut fills what the key leaves if it is plain, and otherwise gets the size that the
      code computes for base 64. */
  lemma CutValueLength(sha: Sha1, key: bytes, value: bytes)
    requires |value| < SIZE_MAX_PLUS_1 / 2 && NewValue(sha, key, value) != value
    ensures var room := 255 - EncLen(Taggable(Key, key), |NewKey(sha, key, value)|);
            |NewValue(sha, key, value)| == if Taggable(Value, value) then room else (room - 3) / 4 * 3 - 2
  {
    ValueCases(sha, key, value);
    ValueTargetIs(Taggable(Value, value), ValueRoom(Taggable(Key, key), |NewKey(sha, key, value)|), |NewValue(sha, key, value)|);
  }

  lemma ValueTargetIs(pv: bool, room: int, size: nat)
    requires 0 <= room < MAX_PAIR_LEN && size == DecLen(pv, room) && SUFFIX_LEN <= size && EncLen(pv, size) <= room
    ensures size == if pv then room else (room - 3) / 4 * 3 - 2
  {
    if !pv {
      assert EncLen(false, size) >= EncLen(false, SUFFIX_LEN) == 67;
      DecLenSmall(room, (room - 3) / 4);
    }
  }

  lemma ShortenedIs(sha: Sha1, part: bytes, size: nat)
    requires SUFFIX_LEN <= size <= |part| + SUFFIX_LEN
    ensures 46 <= size && Shortened(sha, part, size) == part[..size - 46] + [95, 116, 108, 100, 114, 95] + Hex(sha(part))
  {}

  /** A part that is cut keeps its beginning, followed by "_tldr_" and the digest of all of it. */
  lemma CutParts(sha: Sha1, key: bytes, value: bytes)
    requires |value| < SIZE_MAX_PLUS_1 / 2
    ensures var k := NewKey(sha, key, value);
            k == key || (46 <= |k| < |key| && k == key[..|k| - 46] + [95, 116, 108, 100, 114, 95] + Hex(sha(key)))
    ensures var v := NewValue(sha, key, value);
            v == value || (46 <= |v| < |value| && v == value[..|v| - 46] + [95, 116, 108, 100, 114, 95] + Hex(sha(value)))
  {
    var k, v := NewKey(sha, key, value), NewValue(sha, key, value);
    KeyCases(sha, key, value);
    ValueCases(sha, key, value);
    if k != key { ShortenedIs(sha, key, |k|); }
    if v != value { ShortenedIs(sha, value, |v|); }
  }

  /** The text that takes an over-long tag's place, if any does. No tag is half as long as
      a size_t can count. */
  function Replacement(sha: Sha1, e: bytes): Option<bytes>
  {
    var d := Decoded(e);
    var s := IndexOf(d, SEPARATOR);
    if s == |d| || |e| >= SIZE_MAX_PLUS_1 / 2 then None
    else
      DecodedLength(e);
      var key, value := d[..s], d[s + 1..];
      match EncodeTag(MAX_PAIR_LEN + 1, NewKey(sha, key, value) + [SEPARATOR] + NewValue(sha, key, value))
      case Rejected(_) => None
      case Encoded(text) =>
        if IndexOf(text, COLON) + 1 <= MAX_CAT_LEN then Some(text) else None
  }

  lemma DecodedLength(e: bytes)
    ensures |Decoded(e)| <= |e| + 1
  {
    var c := IndexOf(e, COLON);
    DecodePartShrinks(e[..c]);
    DecodePartShrinks(if c < |e| then e[c + 1..] else []);
  }

  lemma PartLength(k: Kind, sha: Sha1, part: bytes, size: nat)
    requires SUFFIX_LEN <= size <= |part| + SUFFIX_LEN
    requires !Quoted(part)
    ensures |EncodePart(k, Shortened(sha, part, size))| <= EncLen(Taggable(k, part), size)
    ensures |EncodePart(k, part)| == EncLen(Taggable(k, part), |part|)
  {
    ShortenedPlain(k, sha, part, size);
    PartText(k, Shortened(sha, part, size));
    PartText(k, part);
  }

  lemma PartLengths(key: bytes, value: bytes)
    requires !Quoted(key) && !Quoted(value)
    ensures Taggable(Key, key) == Plain(Key, key) && Taggable(Value, value) == Plain(Value, value)
    ensures |EncodePart(Key, key)| == EncLen(Plain(Key, key), |key|) && |EncodePart(Value, value)| == EncLen(Plain(Value, value), |value|)
  {
    PartText(Key, key);
    PartText(Value, value);
  }

  lemma NewParts(sha: Sha1, key: bytes, value: bytes)
    requires |value| < SIZE_MAX_PLUS_1 / 2
    requires key != [] && SEPARATOR !in key
    requires !Quoted(key) && !Quoted(value)
    ensures var k, v := NewKey(sha, key, value), NewValue(sha, key, value);
            && k != [] && SEPARATOR !in k
            && |EncodePart(Key, k)| <= EncLen(Taggable(Key, key), |k|)
            && |EncodePart(Value, v)| <= ValueRoom(Taggable(Key, key), |k|)
  {
    var k, v := NewKey(sha, key, value), NewValue(sha, key, value);
    KeyCases(sha, key, value);
    ValueCases(sha, key, value);
    PartLengths(key, value);
    if k != key {
      ShortenedPlain(Key, sha, key, |k|);
      PartLength(Key, sha, key, |k|);
    }
    if v != value { PartLength(Value, sha, value, |v|); }
  }

  /** For every over-long tag whose decoded parts do not start with b" the stand-in's text
      is at most NOIT_TAG_MAX_PAIR_LEN bytes, its parts are the new parts, and it is used
      unless the category was a plain one of 254 bytes beside a plain value of at most one. */
  lemma ReplacementFits(sha: Sha1, e: bytes, key: bytes, value: bytes)
    requires |e| < SIZE_MAX_PLUS_1 / 2 && Decoded(e) == Pair(key, value)
    requires key != [] && SEPARATOR !in key
    requires !Quoted(key) && !Quoted(value)
    ensures |value| < SIZE_MAX_PLUS_1 / 2
    ensures var k, v := NewKey(sha, key, value), NewValue(sha, key, value);
            var text := EncodePart(Key, k) + [COLON] + EncodePart(Value, v);
            && |text| <= MAX_PAIR_LEN
            && EncodeTag(MAX_PAIR_LEN + 1, Pair(k, v)) == Encoded(text)
            && Replacement(sha, e) == (if |EncodePart(Key, k)| == MAX_CAT_LEN then None else Some(text))
    ensures Replacement(sha, e).None?
       <==> Plain(Key, key) && |key| == MAX_CAT_LEN && Plain(Value, value) && |value| <= 1
  {
    DecodedLength(e);
    PairIndex(key, value);
    NewParts(sha, key, value);
    NewKeyLeavesRoom(sha, key, value);
    var k, v := NewKey(sha, key, value), NewValue(sha, key, value);
    EncodePair(MAX_PAIR_LEN + 1, k, v);
    KeyTextHasNoColon(k);
    TextSplits(EncodePart(Key, k), EncodePart(Value, v));
    DroppedIff(sha, key, value);
  }

  /** A key that is kept fills the limit only when it is plain and leaves at least a byte's room. */
  lemma FullKey(pk: bool, pv: bool, keyLen: nat, valueLen: nat)
    requires !KeyTooBig(pk, pv, keyLen, valueLen)
    ensures EncLen(pk, keyLen) == MAX_CAT_LEN <==> pk && keyLen == MAX_CAT_LEN && pv && valueLen <= 1
  {
    NotFull(keyLen);
    assert EncLen(pv, SUFFIX_LEN) >= 46;
    assert !pv ==> EncLen(pv, valueLen) >= 3;
  }

  lemma NotFull(n: nat)
    ensures EncodedLength(n) + 3 != 254
  {
    var q := (n + 2) / 3;
    assert EncodedLength(n) == 4 * q;
  }

  lemma DroppedIff(sha: Sha1, key: bytes, value: bytes)
    requires |value| < SIZE_MAX_PLUS_1 / 2
    requires key != [] && SEPARATOR !in key
    requires !Quoted(key) && !Quoted(value)
    ensures |EncodePart(Key, NewKey(sha, key, value))| == MAX_CAT_LEN
       <==> Plain(Key, key) && |key| == MAX_CAT_LEN && Plain(Value, value) && |value| <= 1
  {
    var pk, pv := Plain(Key, key), Plain(Value, value);
    PartLengths(key, value);
    KeyCases(sha, key, value);
    if KeyTooBig(pk, pv, |key|, |value|) {
      PartLength(Key, sha, key, |NewKey(sha, key, value)|);
      SmallPair(pk, pv, |key|, |value|);
    } else {
      FullKey(pk, pv, |key|, |value|);
    }
  }

  lemma SmallPair(pk: bool, pv: bool, keyLen: nat, valueLen: nat)
    requires KeyTooBig(pk, pv, keyLen, valueLen)
    ensures !(pk && keyLen == MAX_CAT_LEN && pv && valueLen <= 1)
  {}

  /** A part is kept unchanged exactly when it already fits. */
  lemma FittingPartsKept(sha: Sha1, key: bytes, value: bytes)
    requires |value| < SIZE_MAX_PLUS_1 / 2
    requires !Quoted(key) && !Quoted(value)
    ensures NewKey(sha, key, value) == key
       <==> |EncodePart(Key, key)|
              <= Min(MAX_PAIR_LEN - Min(|EncodePart(Value, value)|, EncLen(Plain(Value, value), SUFFIX_LEN)) - 1,
                     MAX_CAT_LEN)
    ensures NewValue(sha, key, value) == value
       <==> |EncodePart(Value, value)| <= ValueRoom(Plain(Key, key), |NewKey(sha, key, value)|)
  {
    PartLengths(key, value);
    KeyCases(sha, key, value);
    ValueCases(sha, key, value);
  }
}
