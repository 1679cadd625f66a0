/** The base 64 encoding of section 4 of RFC 4648, over byte strings. */
module Base64 {
  import opened Options
  import opened Bytes

  const PAD: byte := 61

  type Sextet = v: int | 0 <= v < 64

  function Symbol(v: Sextet): (c: byte)
    ensures c != PAD
    ensures ValueOf(c) == Some(v)
  {
    if v < 26 then 65 + v
    else if v < 52 then 97 + v - 26
    else if v < 62 then 48 + v - 52
    else if v == 62 then 43
    else 47
  }

  function ValueOf(c: byte): Option<Sextet>
  {
    if 65 <= c <= 90 then Some(c - 65)
    else if 97 <= c <= 122 then Some(c - 97 + 26)
    else if 48 <= c <= 57 then Some(c - 48 + 52)
    else if c == 43 then Some(62)
    else if c == 47 then Some(63)
    else None
  }

  /** The bytes that base64_vtagmap admits: the alphabet and the pad. */
  predicate IsSymbolOrPad(c: byte)
  {
    c == 43 || 47 <= c <= 57 || c == 61 || 65 <= c <= 90 || 97 <= c <= 122
  }

  /** A byte has a value exactly when it is the symbol of that value, and is admitted when it has one or
      is the pad. */
  lemma AlphabetIs(c: byte, v: Sextet)
    ensures ValueOf(c) == Some(v) <==> Symbol(v) == c
    ensures IsSymbolOrPad(c) <==> ValueOf(c).Some? || c == 61
  {}

  function EncodedLength(n: nat): nat { (n + 2) / 3 * 4 }

  function Sextet0(x: byte): Sextet { x / 4 }
  function Sextet1(x: byte, y: byte): Sextet { x % 4 * 16 + y / 16 }
  function Sextet2(y: byte, z: byte): Sextet { y % 16 * 4 + z / 64 }
  function Sextet3(z: byte): Sextet { z % 64 }

  function Quad(x: byte, y: byte, z: byte): (q: bytes)
    ensures |q| == 4 && forall c :: c in q ==> IsSymbolOrPad(c)
  {
    [Symbol(Sextet0(x)), Symbol(Sextet1(x, y)), Symbol(Sextet2(y, z)), Symbol(Sextet3(z))]
  }

  function EncodeTail(s: bytes): (q: bytes)
    requires 1 <= |s| <= 2
    ensures |q| == 4 && forall c :: c in q ==> IsSymbolOrPad(c)
  {
    if |s| == 1 then [Symbol(Sextet0(s[0])), Symbol(Sextet1(s[0], 0)), PAD, PAD]
    else [Symbol(Sextet0(s[0])), Symbol(Sextet1(s[0], s[1])), Symbol(Sextet2(s[1], 0)), PAD]
  }

  function Encode(s: bytes): (e: bytes)
    ensures |e| == EncodedLength(|s|)
    ensures forall c :: c in e ==> IsSymbolOrPad(c)
  {
    if s == [] then []
    else if |s| < 3 then EncodeTail(s)
    else Quad(s[0], s[1], s[2]) + Encode(s[3..])
  }

  function Join2(a: Sextet, b: Sextet): byte { a * 4 + b / 16 }
  function Join3(b: Sextet, c: Sextet): byte { b % 16 * 16 + c / 4 }
  function Join4(c: Sextet, d: Sextet): byte { c % 4 * 64 + d }

  /** Rejects a symbol outside the alphabet, a length that is not a multiple of four
      and a pad anywhere but at the end. */
  function Decode(e: bytes): (r: Option<bytes>)
    ensures r.Some? ==> 4 * |r.value| <= 3 * |e|
  {
    if e == [] then Some([])
    else if |e| < 4 || ValueOf(e[0]).None? || ValueOf(e[1]).None? then None
    else
      var a, b := ValueOf(e[0]).value, ValueOf(e[1]).value;
      if |e| == 4 && e[2] == PAD && e[3] == PAD then Some([Join2(a, b)])
      else if ValueOf(e[2]).None? then None
      else
        var c := ValueOf(e[2]).value;
        if |e| == 4 && e[3] == PAD then Some([Join2(a, b), Join3(b, c)])
        else if ValueOf(e[3]).None? then None
        else
          match Decode(e[4..])
          case None => None
          case Some(rest) => Some([Join2(a, b), Join3(b, c), Join4(c, ValueOf(e[3]).value)] + rest)
  }

  lemma Rejoin(x: byte, y: byte, z: byte)
    ensures Join2(Sextet0(x), Sextet1(x, y)) == x
    ensures Join3(Sextet1(x, y), Sextet2(y, z)) == y
    ensures Join4(Sextet2(y, z), Sextet3(z)) == z
  {}

  lemma DecodeSymbols(a: Sextet, b: Sextet, c: Sextet, d: Sextet, rest: bytes)
    requires Decode(rest).Some?
    ensures Decode([Symbol(a), Symbol(b), Symbol(c), Symbol(d)] + rest)
         == Some([Join2(a, b), Join3(b, c), Join4(c, d)] + Decode(rest).value)
  {
    var e := [Symbol(a), Symbol(b), Symbol(c), Symbol(d)] + rest;
    assert e[4..] == rest;
  }

  lemma DecodeQuad(x: byte, y: byte, z: byte, rest: bytes)
    requires Decode(rest).Some?
    ensures Decode(Quad(x, y, z) + rest) == Some([x, y, z] + Decode(rest).value)
  {
    Rejoin(x, y, z);
    DecodeSymbols(Sextet0(x), Sextet1(x, y), Sextet2(y, z), Sextet3(z), rest);
  }

  lemma DecodeTail1(a: Sextet, b: Sextet)
    ensures Decode([Symbol(a), Symbol(b), PAD, PAD]) == Some([Join2(a, b)])
  {}

  lemma DecodeTail2(a: Sextet, b: Sextet, c: Sextet)
    ensures Decode([Symbol(a), Symbol(b), Symbol(c), PAD]) == Some([Join2(a, b), Join3(b, c)])
  {}

  lemma RoundTrip1(x: byte)
    ensures Decode(EncodeTail([x])) == Some([x])
  {
    Rejoin(x, 0, 0);
    DecodeTail1(Sextet0(x), Sextet1(x, 0));
  }

  lemma RoundTrip2(x: byte, y: byte)
    ensures Decode(EncodeTail([x, y])) == Some([x, y])
  {
    Rejoin(x, y, 0);
    DecodeTail2(Sextet0(x), Sextet1(x, y), Sextet2(y, 0));
  }

  lemma SplitThree(s: bytes)
    requires |s| >= 3
    ensures s == [s[0], s[1], s[2]] + s[3..]
  {}

  lemma {:induction false} RoundTrip(s: bytes)
    ensures Decode(Encode(s)) == Some(s)
  {
    if |s| == 1 {
      assert s == [s[0]];
      RoundTrip1(s[0]);
    } else if |s| == 2 {
      assert s == [s[0], s[1]];
      RoundTrip2(s[0], s[1]);
    } else if |s| > 2 {
      RoundTrip(s[3..]);
      DecodeQuad(s[0], s[1], s[2], Encode(s[3..]));
      SplitThree(s);
    }
  }

  /** The vectors of section 10 of RFC 4648: "f", "fo", "foo" and "foobar". */
  lemma ShortVectors()
    ensures Encode([102]) == [90, 103, 61, 61]
    ensures Encode([102, 111]) == [90, 109, 56, 61]
  {}

  lemma WholeVectors()
    ensures Encode([102, 111, 111]) == [90, 109, 57, 118]
    ensures Encode([102, 111, 111, 98, 97, 114]) == [90, 109, 57, 118, 89, 109, 70, 121]
  {
    assert [102, 111, 111][3..] == [] && [102, 111, 111, 98, 97, 114][3..] == [98, 97, 114] && [98, 97, 114][3..] == [];
  }
}
