/** Printing a list of tags with commas between them, for any encoder of one tag. */
module TagPrint {
  import opened Options
  import opened Bytes
  import opened TagCodec
  import opened TagParse

  type Encoder = bytes -> Encoding

  predicate AllEncodable(enc: Encoder, ds: seq<bytes>) { forall d :: d in ds ==> enc(d).Encoded? }

  function Texts(enc: Encoder, ds: seq<bytes>): (es: seq<bytes>)
    requires AllEncodable(enc, ds)
    ensures |es| == |ds|
    ensures forall i :: 0 <= i < |ds| ==> es[i] == enc(ds[i]).text
  {
    if ds == [] then [] else [enc(ds[0]).text] + Texts(enc, ds[1..])
  }

  /** The texts joined by commas, if every tag has one and they fit. */
  function PrintTags(enc: Encoder, ds: seq<bytes>, room: nat): Option<bytes>
  {
    if AllEncodable(enc, ds) && |Join(Texts(enc, ds))| <= room then Some(Join(Texts(enc, ds))) else None
  }

  /** Printing tag by tag, with the room shrinking as it goes. */
  function PrintRun(enc: Encoder, ds: seq<bytes>, room: nat): Option<bytes>
  {
    if ds == [] then Some([])
    else
      match enc(ds[0])
      case Rejected(_) => None
      case Encoded(t) =>
        if room < |t| then None
        else if |ds| == 1 then Some(t)
        else if room - |t| <= 0 then None
        else
          match PrintRun(enc, ds[1..], room - |t| - 1)
          case None => None
          case Some(r) => Some(t + [COMMA] + r)
  }

  ghost predicate NonEmptyTexts(enc: Encoder) { forall d :: enc(d).Encoded? ==> enc(d).text != [] }

  lemma {:induction false} PrintRunIsJoin(enc: Encoder, ds: seq<bytes>, room: nat)
    requires NonEmptyTexts(enc)
    ensures PrintRun(enc, ds, room) == PrintTags(enc, ds, room)
  {
    if |ds| > 0 && enc(ds[0]).Encoded? {
      assert AllEncodable(enc, ds) <==> AllEncodable(enc, ds[1..]);
      var t := enc(ds[0]).text;
      if |ds| > 1 {
        if room > |t| { PrintRunIsJoin(enc, ds[1..], room - |t| - 1); }
        assert enc(ds[1]).Encoded? ==> enc(ds[1]).text != [];
      }
    }
  }

  function Prepend(out: bytes, r: Option<bytes>): Option<bytes>
  {
    if r.None? then None else Some(out + r.value)
  }

  lemma PrependAssoc(a: bytes, b: bytes, r: Option<bytes>)
    ensures Prepend(a, Prepend(b, r)) == Prepend(a + b, r)
  {
    if r.Some? { assert a + (b + r.value) == a + b + r.value; }
  }

  lemma PrependNothing(r: Option<bytes>)
    ensures Prepend([], r) == r
  {
    if r.Some? { assert [] + r.value == r.value; }
  }

  /** noit_metric_tags_canonical: encode, check the room, write, and write a comma if more
      tags follow. */
  method PrintTagsInto(enc: Encoder, ds: seq<bytes>, room: nat) returns (r: Option<bytes>)
    requires NonEmptyTexts(enc)
    ensures r == PrintTags(enc, ds, room)
  {
    PrintRunIsJoin(enc, ds, room);
    var out, left, i: nat := [], room, 0;
    assert ds[0..] == ds;
    PrependNothing(PrintRun(enc, ds, room));
    while i < |ds|
      invariant i <= |ds| && left >= 0
      invariant PrintRun(enc, ds, room) == Prepend(out, PrintRun(enc, ds[i..], left))
    {
      var e := enc(ds[i]);
      if e.Rejected? || left < |e.text| { return None; }
      assert ds[i..][1..] == ds[i + 1..];
      if i + 1 == |ds| { return Some(out + e.text); }
      if left - |e.text| <= 0 { return None; }
      PrependAssoc(out, e.text + [COMMA], PrintRun(enc, ds[i + 1..], left - |e.text| - 1));
      out, left, i := out + (e.text + [COMMA]), left - |e.text| - 1, i + 1;
    }
    assert ds[i..] == [] && out + [] == out;
    return Some(out);
  }
}
