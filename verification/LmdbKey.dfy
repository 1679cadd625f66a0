/** The byte layout of a check's database keys: uuid, type, and a namespace and a name that
    each carry their length as two bytes in network order. */
module LmdbKey {
  import opened Bytes
  import opened Options

  const UUID_SIZE := 16

  type Uuid = u: bytes | |u| == 16 witness seq(16, _ => 0)

  datatype KeyData = KeyData(id: Uuid, kind: byte, ns: bytes, name: bytes)

  /** A length as an unsigned short in network order. */
  function Short(n: nat): (b: bytes)
    ensures |b| == 2
  {
    var low := n % 65536;
    [low / 256, low % 256]
  }

  function FromShort(hi: byte, lo: byte): nat { hi * 256 + lo }

  lemma ShortValue(n: nat)
    ensures FromShort(Short(n)[0], Short(n)[1]) == n % 65536
  {}

  /** An absent string counts as empty. */
  function Present(s: Option<bytes>): bytes { if s.Some? then s.value else [] }

  /** A string with its length in front; an unsigned short keeps only the low 16 bits of the
      length, and only that many bytes are copied. */
  function Field(s: bytes): bytes { Short(|s|) + s[..|s| % 65536] }

  /** noit_lmdb_make_check_key. */
  function MakeKey(id: Uuid, kind: byte, ns: Option<bytes>, name: Option<bytes>): bytes
  {
    id + [kind] + Field(Present(ns)) + Field(Present(name))
  }

  /** The field that starts at a position, and where it ends. */
  function ReadField(k: bytes, at: nat): Option<(bytes, nat)>
  {
    if at + 2 > |k| then None
    else
      var n := FromShort(k[at], k[at + 1]);
      if at + 2 + n > |k| then None else Some((k[at + 2..at + 2 + n], at + 2 + n))
  }

  /** noit_lmdb_check_data_from_key, of a key that is long enough for its own lengths. */
  function ParseKey(k: bytes): Option<KeyData>
  {
    if |k| < UUID_SIZE + 1 then None
    else
      match ReadField(k, UUID_SIZE + 1)
      case None => None
      case Some((ns, at)) =>
        match ReadField(k, at)
        case None => None
        case Some((name, _)) => Some(KeyData(k[..UUID_SIZE], k[UUID_SIZE], ns, name))
  }

  lemma ReadFieldIs(pre: bytes, s: bytes, post: bytes)
    ensures ReadField(pre + Field(s) + post, |pre|) == Some((s[..|s| % 65536], |pre| + |Field(s)|))
  {
    ShortValue(|s|);
    var k := pre + Field(s) + post;
    var n := |s| % 65536;
    assert k[|pre|] == Short(|s|)[0] && k[|pre| + 1] == Short(|s|)[1];
    assert k[|pre| + 2..|pre| + 2 + n] == s[..n];
  }

  lemma KeyPieces(id: Uuid, kind: byte, ns: bytes, name: bytes)
    ensures var k := id + [kind] + Field(ns) + Field(name);
            && |k| >= UUID_SIZE + 5 && k[..UUID_SIZE] == id && k[UUID_SIZE] == kind
            && k == id + [kind] + Field(ns) + Field(name) + []
  {
    AppendNothing(id + [kind] + Field(ns) + Field(name));
  }

  lemma FieldBytes(s: bytes)
    requires |s| < 65536
    ensures Field(s) == [|s| / 256, |s| % 256] + s
  {}

  /** The layout, for strings under 65536 bytes: the uuid, the type, and each string after its length,
      high byte first. */
  lemma KeyBytes(id: Uuid, kind: byte, ns: Option<bytes>, name: Option<bytes>)
    requires |Present(ns)| < 65536 && |Present(name)| < 65536
    ensures var n, m := Present(ns), Present(name);
            MakeKey(id, kind, ns, name) == id + [kind] + ([|n| / 256, |n| % 256] + n) + ([|m| / 256, |m| % 256] + m)
  {
    FieldBytes(Present(ns));
    FieldBytes(Present(name));
  }

  lemma ParseMade(id: Uuid, kind: byte, ns: Option<bytes>, name: Option<bytes>)
    ensures var n, m := Present(ns), Present(name);
            ParseKey(MakeKey(id, kind, ns, name)) == Some(KeyData(id, kind, n[..|n| % 65536], m[..|m| % 65536]))
  {
    var n, m := Present(ns), Present(name);
    KeyPieces(id, kind, n, m);
    ReadFieldIs(id + [kind], n, Field(m));
    ReadFieldIs(id + [kind] + Field(n), m, []);
  }

  /** A key gives back what it was made from exactly when both strings are under 65536 bytes;
      an absent string comes back empty. */
  lemma KeyRoundTripIff(id: Uuid, kind: byte, ns: Option<bytes>, name: Option<bytes>)
    ensures ParseKey(MakeKey(id, kind, ns, name)) == Some(KeyData(id, kind, Present(ns), Present(name)))
       <==> |Present(ns)| < 65536 && |Present(name)| < 65536
  {
    ParseMade(id, kind, ns, name);
    Truncated(Present(ns));
    Truncated(Present(name));
  }

  lemma Truncated(s: bytes)
    ensures s[..|s| % 65536] == s <==> |s| < 65536
  {
    if |s| >= 65536 { assert |s| % 65536 < |s|; }
  }

  /** Keys of strings under 65536 bytes are equal only if everything in them is. */
  lemma KeyInjective(id: Uuid, kind: byte, ns: Option<bytes>, name: Option<bytes>,
                     id': Uuid, kind': byte, ns': Option<bytes>, name': Option<bytes>)
    requires |Present(ns)| < 65536 && |Present(name)| < 65536
    requires |Present(ns')| < 65536 && |Present(name')| < 65536
    requires MakeKey(id, kind, ns, name) == MakeKey(id', kind', ns', name')
    ensures id == id' && kind == kind' && Present(ns) == Present(ns') && Present(name) == Present(name')
  {
    KeyRoundTripIff(id, kind, ns, name);
    KeyRoundTripIff(id', kind', ns', name');
  }

  method CopyInto(buf: array<byte>, at: nat, src: bytes) returns (end: nat)
    requires at + |src| <= buf.Length
    modifies buf
    ensures end == at + |src| && buf[..end] == old(buf[..at]) + src
  {
    for i := 0 to |src|
      invariant buf[..at + i] == old(buf[..at]) + src[..i]
    {
      buf[at + i] := src[i];
      assert src[..i + 1] == src[..i] + [src[i]];
      assert buf[..at + i + 1] == buf[..at + i] + [src[i]];
    }
    assert src[..|src|] == src;
    end := at + |src|;
  }

  /** The key as the source writes it, with a cursor that moves through a buffer of exactly
      the right size. */
  method MakeKeyBuffer(id: Uuid, kind: byte, ns: Option<bytes>, name: Option<bytes>) returns (buf: array<byte>)
    ensures buf[..] == MakeKey(id, kind, ns, name)
  {
    var n, m := Present(ns), Present(name);
    var nsLen, nameLen := |n| % 65536, |m| % 65536;
    buf := new byte[UUID_SIZE + 1 + 2 + 2 + nsLen + nameLen];
    var at := CopyInto(buf, 0, id);
    at := CopyInto(buf, at, [kind]);
    ghost var head: bytes := id + [kind];
    assert buf[..at] == head;
    at := CopyInto(buf, at, Field(n));
    at := CopyInto(buf, at, Field(m));
    assert buf[..at] == head + Field(n) + Field(m);
  }
}
