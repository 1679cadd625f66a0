/** Compiling a filter set straight from XML: rule types, tables and expressions, and links. */
module FilterCompile {
  import opened Options
  import opened Bytes
  import opened FilterRule

  const DEFAULT_FLUSH := 300000
  const SKIPTO := "skipto:"
  const ADD_TAG := "add_measurement_tag:"

  /** One part of an XML rule: child elements (None where the text cannot be fetched), the
      auto-add attribute and the expression attribute. */
  datatype XmlPart = XmlPart(entries: seq<Option<bytes>>, auto: Option<int>, attribute: Option<bytes>)

  const NOTHING := XmlPart([], None, None)

  type XmlParts = s: seq<XmlPart> | |s| == 4 witness [NOTHING, NOTHING, NOTHING, NOTHING]

  datatype XmlRule = XmlRule(kind: Option<string>, id: Option<string>, flush: Option<int>, parts: XmlParts,
                             stream: Option<bytes>, measure: Option<bytes>)

  /** Where a rule finds its flush period when it has none: the filter set, or what is around it. */
  datatype Around = Around(inSet: Option<int>, outside: Option<int>)

  // ---------- rule types ----------

  function ColonAt(s: string): (i: nat)
    ensures i <= |s| && (i < |s| ==> s[i] == ':') && forall j :: 0 <= j < i ==> s[j] != ':'
  {
    if s == "" || s[0] == ':' then 0 else 1 + ColonAt(s[1..])
  }

  function TagKind(m: string): Kind
  {
    var c := ColonAt(m);
    if c == |m| then AddTag(Some(m), None)
    else if c == 0 then AddTag(None, None)
    else AddTag(Some(m[..c]), Some(m[c + 1..]))
  }

  function ParseKind(t: Option<string>): Option<Kind>
  {
    if t.None? then None
    else if SKIPTO <= t.value then Some(SkipTo(Some(t.value[|SKIPTO|..])))
    else if ADD_TAG <= t.value then Some(TagKind(t.value[|ADD_TAG|..]))
    else if t.value == "accept" || t.value == "allow" then Some(Accept)
    else if t.value == "deny" then Some(Deny)
    else None
  }

  /** The types there are, and what each text means. */
  lemma TypesAre(s: string)
    ensures ParseKind(None) == None
    ensures ParseKind(Some("accept")) == ParseKind(Some("allow")) == Some(Accept) && ParseKind(Some("deny")) == Some(Deny)
    ensures ParseKind(Some("skipto:" + s)) == Some(SkipTo(Some(s)))
    ensures ':' !in s ==> ParseKind(Some("add_measurement_tag:" + s)) == Some(AddTag(Some(s), None))
    ensures ParseKind(Some("add_measurement_tag::" + s)) == Some(AddTag(None, None))
    ensures ParseKind(Some(s)).Some?
       <==> s in {"accept", "allow", "deny"} || "skipto:" <= s || "add_measurement_tag:" <= s
  {
    assert "accept"[0] == 'a' && "allow"[0] == 'a' && "deny"[0] == 'd' && SKIPTO[0] == 's' && ADD_TAG[0] == 'a';
    assert "accept"[1] == 'c' && "allow"[1] == 'l' && ADD_TAG[1] == 'd';
    assert ("skipto:" + s)[|SKIPTO|..] == s;
    assert (ADD_TAG + s)[0] == 'a' && (ADD_TAG + s)[|ADD_TAG|..] == s;
    var t := ADD_TAG + (":" + s);
    assert "add_measurement_tag::" + s == t;
    assert t[0] == 'a' && t[|ADD_TAG|..] == ":" + s && (":" + s)[0] == ':';
  }

  lemma TagTypeIs(cat: string, val: string)
    requires cat != "" && ':' !in cat
    ensures ParseKind(Some("add_measurement_tag:" + cat + ":" + val)) == Some(AddTag(Some(cat), Some(val)))
  {
    var m := cat + ":" + val;
    TagTyped(m);
    assert "add_measurement_tag:" + cat + ":" + val == "add_measurement_tag:" + m;
    TagSplit(cat, val);
  }

  lemma TagTyped(m: string)
    ensures ParseKind(Some("add_measurement_tag:" + m)) == Some(TagKind(m))
  {
    var t := "add_measurement_tag:" + m;
    assert t[0] == 'a' && SKIPTO[0] == 's' && t[|ADD_TAG|..] == m;
  }

  lemma TagSplit(cat: string, val: string)
    requires ':' !in cat
    ensures var m := cat + ":" + val; ColonAt(m) == |cat| && m[..|cat|] == cat && m[|cat| + 1..] == val
  {
    var m := cat + ":" + val;
    assert m[|cat|] == ':' && forall j :: 0 <= j < |cat| ==> m[j] == cat[j];
  }

  // ---------- parts and periods ----------

  function Auto(p: XmlPart): int { if p.auto.Some? then p.auto.value else 0 }

  function Texts(p: XmlPart): set<bytes> { set i | 0 <= i < |p.entries| && p.entries[i].Some? :: p.entries[i].value }

  function Image(canon: bytes -> bytes, s: set<bytes>): set<bytes> { set v | v in s :: canon(v) }

  function CompilePart(canon: bytes -> bytes, p: XmlPart): Part
  {
    if p.entries != [] || Auto(p) > 0 then Part(Some(Image(canon, Texts(p))), Auto(p), None)
    else Part(None, 0, p.attribute)
  }

  /** Names are canonicalised for the metric part only. */
  function Canon(canon: bytes -> bytes, i: nat): bytes -> bytes { if i == 3 then canon else (b: bytes) => b }

  function Clamp(n: int): nat { if n < 0 then 0 else n }

  function Period(x: XmlRule, a: Around): nat
  {
    if x.flush.Some? then Clamp(x.flush.value)
    else if a.inSet.Some? then Clamp(a.inSet.value)
    else if a.outside.Some? then Clamp(a.outside.value)
    else DEFAULT_FLUSH
  }

  /** Seconds and microseconds; the remainder of milliseconds is stored as microseconds. */
  function Interval(ms: nat): nat { ms / 1000 * 1000000 + ms % 1000 }

  function CompileRule(canon: bytes -> bytes, x: XmlRule, kind: Kind, a: Around): Rule
  {
    var parts: Parts := seq(4, i requires 0 <= i < 4 => CompilePart(Canon(canon, i), x.parts[i]));
    var open := parts[3].table.None?;
    Rule(kind, x.id, None, parts, if open then x.stream else None, if open then x.measure else None,
         Interval(Period(x, a)), 0)
  }

  /** A part has a table exactly when it lists entries or may take some in, and then the table holds the
      texts of the entries that can be read, canonical ones for the metric; otherwise the expression
      counts, and the limit is nothing. */
  lemma CompiledPart(canon: bytes -> bytes, x: XmlRule, kind: Kind, a: Around, i: nat)
    requires i < 4
    ensures var p, xp := CompileRule(canon, x, kind, a).parts[i], x.parts[i];
            && (p.table.Some? <==> xp.entries != [] || (xp.auto.Some? && xp.auto.value > 0))
            && (p.table.Some? ==> p.pattern.None? && p.auto == if xp.auto.Some? then xp.auto.value else 0)
            && (p.table.None? ==> p.pattern == xp.attribute && p.auto == 0)
            && (p.table.Some? ==>
                  forall v :: v in p.table.value <==> exists e :: Some(e) in xp.entries && v == if i == 3 then canon(e) else e)
  {
    var p, xp := CompileRule(canon, x, kind, a).parts[i], x.parts[i];
    if p.table.Some? {
      forall v ensures v in p.table.value <==> exists e :: Some(e) in xp.entries && v == if i == 3 then canon(e) else e {
        TextsAre(xp);
      }
    }
  }

  lemma TextsAre(p: XmlPart)
    ensures forall e :: e in Texts(p) <==> Some(e) in p.entries
  {}

  /** The rest of a rule: its type and id, the searches unless the metric has a table, no link yet, and
      never flushed. The period is the rule's own, else the set's, else what is around it, else five
      minutes; a negative one is none, and the milliseconds beyond whole seconds count as microseconds. */
  lemma CompiledRule(canon: bytes -> bytes, x: XmlRule, kind: Kind, a: Around)
    ensures var r := CompileRule(canon, x, kind, a);
            && r.kind == kind && r.id == x.id && r.link == None && r.lastFlush == 0
            && (r.parts[3].table.None? ==> r.stream == x.stream && r.measure == x.measure)
            && (r.parts[3].table.Some? ==> r.stream == None && r.measure == None)
            && var ms := match (x.flush, a.inSet, a.outside)
                         case (Some(f), _, _) => f
                         case (None, Some(f), _) => f
                         case (None, None, Some(f)) => f
                         case _ => 300000;
               if ms <= 0 then r.interval == 0
               else r.interval / 1000000 == ms / 1000 && r.interval % 1000000 == ms % 1000
  {}

  /** The rules in order, without those whose type is missing or unknown. */
  function CompileRules(canon: bytes -> bytes, xs: seq<XmlRule>, a: Around): (rs: seq<Rule>)
    ensures |rs| <= |xs| && Unlinked(rs)
  {
    if xs == [] then []
    else
      var rest := CompileRules(canon, xs[1..], a);
      var k := ParseKind(xs[0].kind);
      if k.None? then rest else [CompileRule(canon, xs[0], k.value, a)] + rest
  }

  predicate Unlinked(rs: seq<Rule>) { forall i :: 0 <= i < |rs| ==> rs[i].link.None? }

  // ---------- links ----------

  /** The first rule from a position on with an id. */
  function FirstId(rs: seq<Rule>, i: nat, id: string): (t: Option<nat>)
    requires i <= |rs|
    ensures t.Some? ==> i <= t.value < |rs| && rs[t.value].id == Some(id)
    ensures forall j :: i <= j < (if t.Some? then t.value else |rs|) ==> rs[j].id != Some(id)
    decreases |rs| - i
  {
    if i == |rs| then None else if rs[i].id == Some(id) then Some(i) else FirstId(rs, i + 1, id)
  }

  /** A jump goes to the first later rule with the id it names. */
  function LinkOf(rs: seq<Rule>, i: nat): Option<nat>
    requires i < |rs|
  {
    if rs[i].kind.SkipTo? && rs[i].kind.to.Some? then FirstId(rs, i + 1, rs[i].kind.to.value) else None
  }

  function Link(rs: seq<Rule>): (ls: seq<Rule>)
    ensures |ls| == |rs| && Linked(ls)
    ensures forall i :: 0 <= i < |rs| ==> ls[i] == rs[i].(link := LinkOf(rs, i))
  {
    seq(|rs|, i requires 0 <= i < |rs| => rs[i].(link := LinkOf(rs, i)))
  }

  /** The two nested loops over the list. */
  method LinkLoop(rs: seq<Rule>) returns (ls: seq<Rule>)
    requires Unlinked(rs)
    ensures ls == Link(rs)
  {
    ls := rs;
    var i := 0;
    while i + 1 < |ls|
      invariant 0 <= i && |ls| == |rs| && (i < |rs| || rs == [])
      invariant forall j :: 0 <= j < |rs| ==> ls[j] == if j < i then rs[j].(link := LinkOf(rs, j)) else rs[j]
    {
      if ls[i].kind.SkipTo? && ls[i].kind.to.Some? {
        var to := ls[i].kind.to.value;
        var t := i + 1;
        while t < |ls|
          invariant i < t <= |ls|
          invariant FirstId(rs, i + 1, to) == FirstId(rs, t, to)
        {
          if ls[t].id.Some? && ls[t].id.value == to {
            ls := ls[i := ls[i].(link := Some(t))];
            break;
          }
          t := t + 1;
        }
      }
      i := i + 1;
    }
  }

  function Compile(canon: bytes -> bytes, xs: seq<XmlRule>, a: Around): seq<Rule>
  {
    Link(CompileRules(canon, xs, a))
  }

  /** noit_filter_compile_add: rules are taken from the last to the first and put in front. */
  method CompileLoop(canon: bytes -> bytes, xs: seq<XmlRule>, a: Around) returns (rs: seq<Rule>)
    ensures rs == Compile(canon, xs, a)
  {
    rs := [];
    var j := |xs|;
    while j > 0
      invariant 0 <= j <= |xs| && rs == CompileRules(canon, xs[j..], a)
    {
      j := j - 1;
      assert xs[j..][1..] == xs[j + 1..];
      var k := ParseKind(xs[j].kind);
      if k.Some? { rs := [CompileRule(canon, xs[j], k.value, a)] + rs; }
    }
    assert xs[0..] == xs;
    rs := LinkLoop(rs);
  }
}
