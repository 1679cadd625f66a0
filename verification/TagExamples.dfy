/** Inputs on which the tag codec and the replacement of over-long tags do not give back what they
    were given. */
module TagExamples {
  import opened Options
  import opened Bytes
  import opened Base64
  import opened TagCodec
  import opened TagReplace

  /** A value of the three bytes b"" is printed plain and read back as empty. */
  lemma AmbiguousExample()
    ensures var p: bytes := [98, 34, 34];
            Ambiguous(Value, p) && DecodePart(EncodePart(Value, p)) == Some([])
  {
    var p: bytes := [98, 34, 34];
    assert p[2..2] == [];
  }

  /** The two bytes b" alone are printed plain and cannot be read back. */
  lemma QuoteOnlyExample()
    ensures EncodePart(Value, [98, 34]) == [98, 34] && DecodePart([98, 34]) == None
  {}

  /** The text of a part is its own text after decoding and encoding exactly when the part is not
      ambiguous, or is itself the base 64 text of something that needs base 64. */
  lemma PartTextFixedIff(k: Kind, p: bytes)
    ensures (var t := EncodePart(k, p); DecodePart(t).Some? && EncodePart(k, DecodePart(t).value) == t)
       <==> !Ambiguous(k, p)
            || (DecodePart(p).Some? && !Plain(k, DecodePart(p).value)
                && p == [LETTER_B, QUOTE] + Encode(DecodePart(p).value) + [QUOTE])
  {
    PartRoundTrip(k, p);
  }

  /** Such a part: its text, which stands for the byte 255, comes back although the part does not. */
  lemma FixedTextExample()
    ensures var p: bytes := [98, 34, 47, 119, 61, 61, 34];
            && Ambiguous(Value, p) && DecodePart(EncodePart(Value, p)) == Some([255])
            && EncodePart(Value, [255]) == EncodePart(Value, p)
  {
    var p: bytes := [98, 34, 47, 119, 61, 61, 34];
    var e: bytes := [47, 119, 61, 61];
    assert Encode([255]) == e;
    RoundTrip([255]);
    assert p[2..6] == e;
    assert 255 in [255];
    assert [LETTER_B, QUOTE] + e + [QUOTE] == p;
  }

  /** A category of 254 plain bytes. */
  function LongKey(): (k: bytes)
    ensures |k| == 254 && Plain(Key, k) && SEPARATOR !in k && !Quoted(k)
  {
    seq(254, _ => 97)
  }

  lemma QuotedKeyDecodes(key: bytes)
    requires key != [] && SEPARATOR !in key
    ensures var e := [LETTER_B, QUOTE] + Encode(key) + [QUOTE] + [COLON] + [];
            Decoded(e) == Pair(key, []) && |e| == EncodedLength(|key|) + 4
  {
    var q := [LETTER_B, QUOTE] + Encode(key) + [QUOTE];
    QuotedPart(key, q);
    DecodeJoined(|q| + 2, q, []);
    assert q + [COLON] + [] == [LETTER_B, QUOTE] + Encode(key) + [QUOTE] + [COLON] + [];
  }

  lemma QuotedPart(key: bytes, q: bytes)
    requires q == [LETTER_B, QUOTE] + Encode(key) + [QUOTE]
    ensures DecodePart(q) == Some(key) && COLON !in q && |q| == EncodedLength(|key|) + 3
  {
    QuotedText(key);
    RoundTrip(key);
    NoColonIn(Encode(key), q);
  }

  lemma NoColonIn(e: bytes, q: bytes)
    requires q == [LETTER_B, QUOTE] + e + [QUOTE] && forall c :: c in e ==> IsSymbolOrPad(c)
    ensures COLON !in q
  {}

  /** Spelled in base 64 with an empty value it is over-long, and is dropped. */
  lemma DroppedExample(sha: Sha1)
    ensures var e := [LETTER_B, QUOTE] + Encode(LongKey()) + [QUOTE] + [COLON] + [];
            |e| > MAX_PAIR_LEN && Decoded(e) == Pair(LongKey(), []) && Replacement(sha, e) == None
  {
    QuotedKeyDecodes(LongKey());
    var e := [LETTER_B, QUOTE] + Encode(LongKey()) + [QUOTE] + [COLON] + [];
    ReplacementFits(sha, e, LongKey(), []);
  }
}
