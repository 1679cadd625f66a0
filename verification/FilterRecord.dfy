/** The second route: XML to a stored record, the record to memory, and the record back to XML. */
module FilterRecord {
  import opened Options
  import opened Bytes
  import opened FilterRule
  import opened FilterCompile

  const SKIPTO_TYPE := "skipto"
  const ADD_TAG_TYPE := "add_measurement_tag"

  /** A stored rule type with its values. */
  datatype StoredKind = StoredKind(kind: string, skipto: Option<string>, cat: Option<string>, val: Option<string>)

  datatype RecordPart =
    | Hash(auto: int, values: set<bytes>)
    | Regex(pattern: bytes)
    | Absent

  type RecordParts = s: seq<RecordPart> | |s| == 4 witness [Absent, Absent, Absent, Absent]

  datatype RecordRule = RecordRule(kind: StoredKind, id: Option<string>, flush: Option<nat>, parts: RecordParts,
                                   stream: Option<bytes>, measure: Option<bytes>)

  // ---------- XML to record ----------

  function StoreKind(k: Kind): StoredKind
  {
    match k
    case Accept => StoredKind("accept", None, None, None)
    case Deny => StoredKind("deny", None, None, None)
    case SkipTo(to) => StoredKind(SKIPTO_TYPE, to, None, None)
    case AddTag(cat, val) => StoredKind(ADD_TAG_TYPE, None, cat, if cat.Some? then val else None)
  }

  /** A negative limit counts as none. */
  function StorePart(p: XmlPart): RecordPart
  {
    var auto := Clamp(Auto(p));
    if p.entries != [] || auto > 0 then Hash(auto, Texts(p))
    else if p.attribute.Some? then Regex(p.attribute.value)
    else Absent
  }

  /** A negative period counts as none. */
  function StoreFlush(x: XmlRule): Option<nat>
  {
    if x.flush.Some? && x.flush.value >= 0 then Some(x.flush.value) else None
  }

  function Store(x: XmlRule): Option<RecordRule>
  {
    var k := ParseKind(x.kind);
    if k.None? then None
    else Some(RecordRule(StoreKind(k.value), x.id, StoreFlush(x),
                         seq(4, i requires 0 <= i < 4 => StorePart(x.parts[i])), x.stream, x.measure))
  }

  function StoreAll(xs: seq<XmlRule>): seq<RecordRule>
  {
    if xs == [] then []
    else
      var s := Store(xs[0]);
      (if s.None? then [] else [s.value]) + StoreAll(xs[1..])
  }

  // ---------- record to memory ----------

  function LoadKind(s: StoredKind): Kind
  {
    if s.kind == "accept" then Accept
    else if s.kind == "deny" then Deny
    else if s.kind == SKIPTO_TYPE then SkipTo(s.skipto)
    else if s.kind == ADD_TAG_TYPE then AddTag(s.cat, if s.cat.Some? then s.val else None)
    else Deny
  }

  /** A type that is none of the four denies. */
  lemma UnknownDenies(s: StoredKind)
    requires s.kind !in {"accept", "deny", "skipto", "add_measurement_tag"}
    ensures LoadKind(s) == Deny
  {}

  function LoadPart(canon: bytes -> bytes, p: RecordPart): Part
  {
    match p
    case Hash(auto, values) =>
      if Clamp(auto) != 0 || values != {} then Part(Some(Image(canon, values)), Clamp(auto), None) else ANY
    case Regex(pattern) => Part(None, 0, Some(pattern))
    case Absent => ANY
  }

  /** A negative default outside the set is replaced by the built-in one. */
  function LoadPeriod(flush: Option<nat>, a: Around): nat
  {
    if flush.Some? then flush.value
    else if a.inSet.Some? then Clamp(a.inSet.value)
    else if a.outside.Some? && a.outside.value >= 0 then a.outside.value
    else DEFAULT_FLUSH
  }

  function Load(canon: bytes -> bytes, r: RecordRule, a: Around): Rule
  {
    var parts: Parts := seq(4, i requires 0 <= i < 4 => LoadPart(Canon(canon, i), r.parts[i]));
    var open := parts[3].table.None?;
    Rule(LoadKind(r.kind), r.id, None, parts, if open then r.stream else None, if open then r.measure else None,
         Interval(LoadPeriod(r.flush, a)), 0)
  }

  function LoadRules(canon: bytes -> bytes, rs: seq<RecordRule>, a: Around): (ls: seq<Rule>)
    ensures |ls| == |rs| && Unlinked(ls)
    ensures forall i :: 0 <= i < |rs| ==> ls[i] == Load(canon, rs[i], a)
  {
    seq(|rs|, i requires 0 <= i < |rs| => Load(canon, rs[i], a))
  }

  function LoadSet(canon: bytes -> bytes, rs: seq<RecordRule>, a: Around): seq<Rule> { Link(LoadRules(canon, rs, a)) }

  /** noit_filters_lmdb_load_one_from_db_locked: from the last rule to the first, then linked. */
  method LoadLoop(canon: bytes -> bytes, rs: seq<RecordRule>, a: Around) returns (ls: seq<Rule>)
    ensures ls == LoadSet(canon, rs, a)
  {
    ls := [];
    var i := |rs|;
    while i > 0
      invariant 0 <= i <= |rs| && |ls| == |rs| - i
      invariant forall j :: i <= j < |rs| ==> ls[j - i] == Load(canon, rs[j], a)
    {
      i := i - 1;
      ls := [Load(canon, rs[i], a)] + ls;
    }
    assert ls == LoadRules(canon, rs, a);
    ls := LinkLoop(ls);
  }

  /** By way of the record a part gets a table exactly when an entry can be read or the limit is positive,
      with a limit that is never negative; it keeps its expression exactly when it lists no entries and
      its limit is not positive; and a part whose entries cannot be read, without a limit, asks nothing. */
  lemma StoredPart(canon: bytes -> bytes, p: XmlPart)
    ensures var l, limited := LoadPart(canon, StorePart(p)), p.auto.Some? && p.auto.value > 0;
            && (l.table.Some? <==> limited || exists e :: Some(e) in p.entries)
            && (l.auto == if limited then p.auto.value else 0)
            && (l.pattern == if p.entries == [] && !limited then p.attribute else None)
            && (l.table.Some? ==> forall v :: v in l.table.value <==> exists e :: Some(e) in p.entries && v == canon(e))
  {
    TextsAre(p);
    if e :| Some(e) in p.entries { assert e in Texts(p); }
  }

  /** The period by way of the record: the rule's own unless it is negative, else the set's, a negative one
      counting as none, else what is around it unless that is negative, else five minutes. */
  lemma StoredPeriod(canon: bytes -> bytes, x: XmlRule, a: Around)
    requires Store(x).Some?
    ensures var ms := if x.flush.Some? && x.flush.value >= 0 then x.flush.value
                      else if a.inSet.Some? then a.inSet.value
                      else if a.outside.Some? && a.outside.value >= 0 then a.outside.value
                      else 300000;
            var r := Load(canon, Store(x).value, a);
            if ms <= 0 then r.interval == 0 else r.interval / 1000000 == ms / 1000 && r.interval % 1000000 == ms % 1000
  {}

  // ---------- the two routes ----------

  /** Kinds that come from a type attribute. */
  predicate Typed(k: Kind)
  {
    match k
    case SkipTo(to) => to.Some?
    case AddTag(cat, val) => if cat.Some? then ':' !in cat.value else val.None?
    case _ => true
  }

  lemma ParsedIsTyped(t: Option<string>)
    ensures ParseKind(t).Some? ==> Typed(ParseKind(t).value)
  {}

  lemma KindRoute(k: Kind)
    requires Typed(k)
    ensures LoadKind(StoreKind(k)) == k
  {
    assert "skipto"[0] == 's' && "add_measurement_tag"[0] == 'a' && "accept"[1] == 'c' && "deny"[0] == 'd';
    assert "add_measurement_tag"[1] == 'd';
  }

  /** Entries come with a limit, or with at least one text and no negative limit. */
  predicate PartAgrees(p: XmlPart)
  {
    p.entries != [] ==> Auto(p) > 0 || (Auto(p) == 0 && exists i :: 0 <= i < |p.entries| && p.entries[i].Some?)
  }

  lemma PartRouteIff(canon: bytes -> bytes, p: XmlPart)
    ensures LoadPart(canon, StorePart(p)) == CompilePart(canon, p) <==> PartAgrees(p)
  {
    if i :| 0 <= i < |p.entries| && p.entries[i].Some? {
      assert p.entries[i].value in Texts(p);
    } else {
      assert Texts(p) == {};
    }
  }

  /** A negative period on the rule agrees only with a period of zero around it, and a negative one
      outside the set only when it is not used. */
  predicate FlushAgrees(x: XmlRule, a: Around)
  {
    match x.flush
    case Some(f) => f < 0 ==> LoadPeriod(None, a) == 0
    case None => a.inSet.Some? || a.outside.None? || a.outside.value >= 0
  }

  lemma FlushRouteIff(x: XmlRule, a: Around)
    ensures Interval(LoadPeriod(StoreFlush(x), a)) == Interval(Period(x, a)) <==> FlushAgrees(x, a)
  {
    IntervalInjective(LoadPeriod(StoreFlush(x), a), Period(x, a));
  }

  lemma IntervalInjective(m: nat, n: nat)
    ensures Interval(m) == Interval(n) ==> m == n
  {}

  predicate RuleAgrees(x: XmlRule, a: Around)
  {
    FlushAgrees(x, a) && forall i :: 0 <= i < 4 ==> PartAgrees(x.parts[i])
  }

  /** The two routes give the same rule exactly when its parts and its period agree. */
  lemma RuleRouteIff(canon: bytes -> bytes, x: XmlRule, a: Around)
    requires Store(x).Some?
    ensures Load(canon, Store(x).value, a) == CompileRule(canon, x, ParseKind(x.kind).value, a) <==> RuleAgrees(x, a)
  {
    var k := ParseKind(x.kind).value;
    var l, c := Load(canon, Store(x).value, a), CompileRule(canon, x, k, a);
    ParsedIsTyped(x.kind);
    KindRoute(k);
    FlushRouteIff(x, a);
    forall i | 0 <= i < 4 ensures l.parts[i] == c.parts[i] <==> PartAgrees(x.parts[i]) {
      PartRouteIff(Canon(canon, i), x.parts[i]);
    }
    if RuleAgrees(x, a) { assert l.parts == c.parts; }
  }

  lemma {:induction false} RoutesAgree(canon: bytes -> bytes, xs: seq<XmlRule>, a: Around)
    requires forall i :: 0 <= i < |xs| && Store(xs[i]).Some? ==> RuleAgrees(xs[i], a)
    ensures LoadRules(canon, StoreAll(xs), a) == CompileRules(canon, xs, a)
  {
    if xs != [] {
      RoutesAgree(canon, xs[1..], a);
      if Store(xs[0]).Some? { RuleRouteIff(canon, xs[0], a); }
    }
  }

  /** With agreeing rules, as with limits and periods that are not negative, the set loaded from its
      record has the same rules and links as the set compiled from XML, and so the same decisions. */
  lemma SameDecisions(canon: bytes -> bytes, xs: seq<XmlRule>, a: Around, env: Env, q: Query, mt: seq<bytes>, now: int)
    requires forall i :: 0 <= i < |xs| && Store(xs[i]).Some? ==> RuleAgrees(xs[i], a)
    ensures LoadSet(canon, StoreAll(xs), a) == Compile(canon, xs, a)
    ensures Eval(env, Visiting(env, q, now), LoadSet(canon, StoreAll(xs), a), 0, mt)
         == Eval(env, Visiting(env, q, now), Compile(canon, xs, a), 0, mt)
  {
    RoutesAgree(canon, xs, a);
  }

  /** What the design promises is covered: nothing negative and every entry readable. */
  lemma NonNegativeAgrees(x: XmlRule, a: Around)
    requires x.flush.Some? ==> x.flush.value >= 0
    requires a.outside.Some? ==> a.outside.value >= 0
    requires forall i :: 0 <= i < 4 ==> Auto(x.parts[i]) >= 0
    requires forall i, j :: 0 <= i < 4 && 0 <= j < |x.parts[i].entries| ==> x.parts[i].entries[j].Some?
    ensures RuleAgrees(x, a)
  {
    forall i | 0 <= i < 4 ensures PartAgrees(x.parts[i]) {
      if x.parts[i].entries != [] { assert x.parts[i].entries[0].Some?; }
    }
  }

  /** A rule with one listed target and a negative limit is not the same by both routes. */
  lemma RoutesDiffer(canon: bytes -> bytes, target: bytes, a: Around)
    ensures var x := XmlRule(Some("accept"), None, None,
                             [XmlPart([Some(target)], Some(-1), None), NOTHING, NOTHING, NOTHING], None, None);
            && Store(x).Some? && ParseKind(x.kind).Some?
            && Load(canon, Store(x).value, a) != CompileRule(canon, x, ParseKind(x.kind).value, a)
  {
    var x := XmlRule(Some("accept"), None, None,
                     [XmlPart([Some(target)], Some(-1), None), NOTHING, NOTHING, NOTHING], None, None);
    assert "accept"[0] == 'a' && SKIPTO[0] == 's' && "accept"[1] == 'c' && ADD_TAG[1] == 'd';
    RuleRouteIff(canon, x, a);
    assert !PartAgrees(x.parts[0]);
  }
}
