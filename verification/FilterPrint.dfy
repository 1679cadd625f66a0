/** Printing a stored filter set to XML and converting it again. */
module FilterPrint {
  import opened Options
  import opened Bytes
  import opened FilterRule
  import opened FilterCompile
  import opened FilterRecord

  function PrintKind(s: StoredKind): string
  {
    if s.kind == SKIPTO_TYPE && s.skipto.Some? then s.kind + ":" + s.skipto.value
    else if s.kind == ADD_TAG_TYPE && s.cat.Some? then
      s.kind + ":" + s.cat.value + ":" + (if s.val.Some? then s.val.value else "")
    else s.kind
  }

  /** Any order in which the values of a table are written. */
  ghost predicate Orders(order: set<bytes> -> seq<bytes>) { forall s :: (set x | x in order(s)) == s }

  function PrintPart(order: set<bytes> -> seq<bytes>, p: RecordPart): XmlPart
  {
    match p
    case Hash(auto, values) =>
      var vs := order(values);
      XmlPart(seq(|vs|, i requires 0 <= i < |vs| => Some(vs[i])), if auto > 0 then Some(auto) else None, None)
    case Regex(pattern) => XmlPart([], None, Some(pattern))
    case Absent => NOTHING
  }

  /** noit_filters_lmdb_populate_filterset_xml_from_lmdb, for one rule. */
  function PrintRule(order: set<bytes> -> seq<bytes>, r: RecordRule): XmlRule
  {
    XmlRule(Some(PrintKind(r.kind)), r.id, if r.flush.Some? then Some(r.flush.value) else None,
            seq(4, i requires 0 <= i < 4 => PrintPart(order, r.parts[i])), r.stream, r.measure)
  }

  function PrintAll(order: set<bytes> -> seq<bytes>, rs: seq<RecordRule>): (xs: seq<XmlRule>)
    ensures |xs| == |rs| && forall i :: 0 <= i < |rs| ==> xs[i] == PrintRule(order, rs[i])
  {
    seq(|rs|, i requires 0 <= i < |rs| => PrintRule(order, rs[i]))
  }

  // ---------- one rule ----------

  lemma PartReprints(canon: bytes -> bytes, order: set<bytes> -> seq<bytes>, p: RecordPart)
    requires Orders(order)
    ensures LoadPart(canon, StorePart(PrintPart(order, p))) == LoadPart(canon, p)
  {
    if p.Hash? {
      var vs, x := order(p.values), PrintPart(order, p);
      assert (set v | v in vs) == p.values;
      assert Texts(x) == p.values by {
        forall v ensures v in Texts(x) <==> v in p.values {
          if v in vs {
            var i :| 0 <= i < |vs| && vs[i] == v;
            assert x.entries[i] == Some(v);
          }
        }
      }
      if vs != [] { assert vs[0] in p.values; }
    }
  }

  /** A tag without a value and a tag with an empty value are the same tag. */
  function Settle(k: Kind): Kind { if k.AddTag? && k.cat.Some? && k.val.None? then k.(val := Some("")) else k }

  function SettleRule(r: Rule): Rule { r.(kind := Settle(r.kind)) }

  /** A measurement tag rule prints back only with a category that is not empty. */
  predicate Printable(k: Kind) { k.AddTag? ==> k.cat.Some? && k.cat.value != "" }

  /** The types as they are printed. */
  lemma PrintedTypes(to: string, cat: string, val: string)
    ensures PrintKind(StoreKind(Accept)) == "accept" && PrintKind(StoreKind(Deny)) == "deny"
    ensures PrintKind(StoreKind(SkipTo(Some(to)))) == "skipto:" + to
    ensures PrintKind(StoreKind(AddTag(Some(cat), Some(val)))) == "add_measurement_tag:" + cat + ":" + val
    ensures PrintKind(StoreKind(AddTag(Some(cat), None))) == "add_measurement_tag:" + cat + ":"
  {}

  lemma TagReparses(cat: string, val: string)
    requires ':' !in cat
    ensures ParseKind(Some(ADD_TAG + cat + ":" + val))
         == Some(if cat == "" then AddTag(None, None) else AddTag(Some(cat), Some(val)))
  {
    var t, m := ADD_TAG + cat + ":" + val, cat + ":" + val;
    assert t[|ADD_TAG|..] == m;
    assert t[0] == 'a' && SKIPTO[0] == 's';
    var c := ColonAt(m);
    assert m[|cat|] == ':';
    assert forall i :: 0 <= i < |cat| ==> m[i] in cat;
    assert c == |cat|;
    assert m[..c] == cat && m[c + 1..] == val;
  }

  lemma SkipReparses(to: string)
    ensures ParseKind(Some(SKIPTO + to)) == Some(SkipTo(Some(to)))
  {
    assert (SKIPTO + to)[|SKIPTO|..] == to;
  }

  /** What becomes of a kind that is printed and parsed again. */
  function Reprinted(k: Kind): Option<Kind>
  {
    if k.AddTag? && k.cat.None? then None
    else if k.AddTag? && k.cat.value == "" then Some(AddTag(None, None))
    else Some(Settle(k))
  }

  lemma KindReprints(k: Kind)
    requires Typed(k)
    ensures ParseKind(Some(PrintKind(StoreKind(k)))) == Reprinted(k)
  {
    assert "accept"[0] == 'a' && "deny"[0] == 'd' && SKIPTO[0] == 's' && ADD_TAG[0] == 'a' && ADD_TAG[1] == 'd';
    match k
    case SkipTo(to) =>
      assert SKIPTO_TYPE + ":" == SKIPTO;
      SkipReparses(to.value);
    case AddTag(cat, val) =>
      assert ADD_TAG_TYPE + ":" == ADD_TAG;
      if cat.Some? { TagReparses(cat.value, if val.Some? then val.value else ""); }
    case Accept =>
    case Deny =>
  }

  /** A kind comes back as it was exactly when it is printable. */
  lemma KindReprintsIff(k: Kind)
    requires Typed(k)
    ensures ParseKind(Some(PrintKind(StoreKind(k)))) == Some(Settle(k)) <==> Printable(k)
  {
    KindReprints(k);
  }

  /** A rule printed, converted and loaded. */
  function Again(canon: bytes -> bytes, order: set<bytes> -> seq<bytes>, a: Around): RecordRule -> Option<Rule>
  {
    (r: RecordRule) => (var s := Store(PrintRule(order, r)); if s.None? then None else Some(Load(canon, s.value, a)))
  }

  function WithKind(r: Rule, k: Option<Kind>): Option<Rule> { if k.None? then None else Some(r.(kind := k.value)) }

  /** Printed and converted again, a rule loads as it was but for what became of its kind. */
  lemma RuleReprints(canon: bytes -> bytes, order: set<bytes> -> seq<bytes>, r: RecordRule, k: Kind, a: Around)
    requires Orders(order) && Typed(k) && r.kind == StoreKind(k)
    ensures Again(canon, order, a)(r) == WithKind(Load(canon, r, a), Reprinted(k))
  {
    KindReprints(k);
    var s := Store(PrintRule(order, r));
    if s.Some? {
      ParsedIsTyped(Some(PrintKind(r.kind)));
      KindRoute(Reprinted(k).value);
      var l, l' := Load(canon, r, a), Load(canon, s.value, a);
      forall i | 0 <= i < 4 ensures l'.parts[i] == l.parts[i] {
        PartReprints(Canon(canon, i), order, r.parts[i]);
      }
      assert l'.parts == l.parts;
    }
  }

  /** ... and is the same rule exactly when it is printable. */
  lemma RuleReprintsIff(canon: bytes -> bytes, order: set<bytes> -> seq<bytes>, r: RecordRule, k: Kind, a: Around)
    requires Orders(order) && Typed(k) && r.kind == StoreKind(k)
    ensures Again(canon, order, a)(r) == Some(SettleRule(Load(canon, r, a))) <==> Printable(k)
  {
    RuleReprints(canon, order, r, k, a);
    KindRoute(k);
  }

  // ---------- whole sets ----------

  function SettleAll(rs: seq<Rule>): (ss: seq<Rule>)
    ensures |ss| == |rs| && forall i :: 0 <= i < |rs| ==> ss[i] == SettleRule(rs[i])
  {
    seq(|rs|, i requires 0 <= i < |rs| => SettleRule(rs[i]))
  }

  ghost predicate Stored(rs: seq<RecordRule>, ks: seq<Kind>)
  {
    |ks| == |rs| && forall i :: 0 <= i < |rs| ==> Typed(ks[i]) && rs[i].kind == StoreKind(ks[i])
  }

  /** The results that exist, in order. */
  function Gather<T, U>(f: T -> Option<U>, xs: seq<T>): (us: seq<U>)
    ensures |us| <= |xs|
  {
    if xs == [] then [] else (if f(xs[0]).Some? then [f(xs[0]).value] else []) + Gather(f, xs[1..])
  }

  lemma {:induction false} GatherIff<T, U>(f: T -> Option<U>, xs: seq<T>, us: seq<U>)
    requires |us| == |xs|
    ensures Gather(f, xs) == us <==> forall i :: 0 <= i < |xs| ==> f(xs[i]) == Some(us[i])
  {
    if xs != [] {
      GatherIff(f, xs[1..], us[1..]);
      assert us == [us[0]] + us[1..];
      if f(xs[0]).Some? {
        assert Gather(f, xs)[1..] == Gather(f, xs[1..]);
        assert forall i :: 0 < i < |xs| ==> xs[i] == xs[1..][i - 1] && us[i] == us[1..][i - 1];
        assert forall i :: 0 <= i < |xs[1..]| ==> xs[1..][i] == xs[i + 1] && us[1..][i] == us[i + 1];
      }
    }
  }

  lemma LoadRulesCons(canon: bytes -> bytes, r: RecordRule, rs: seq<RecordRule>, a: Around)
    ensures LoadRules(canon, [r] + rs, a) == [Load(canon, r, a)] + LoadRules(canon, rs, a)
  {}

  lemma {:induction false} ReprintGathers(canon: bytes -> bytes, order: set<bytes> -> seq<bytes>,
                                          rs: seq<RecordRule>, a: Around)
    ensures LoadRules(canon, StoreAll(PrintAll(order, rs)), a) == Gather(Again(canon, order, a), rs)
  {
    if rs != [] {
      ReprintGathers(canon, order, rs[1..], a);
      var x, xs := PrintRule(order, rs[0]), PrintAll(order, rs[1..]);
      assert PrintAll(order, rs)[1..] == xs;
      if Store(x).Some? { LoadRulesCons(canon, Store(x).value, StoreAll(xs), a); }
    }
  }

  /** The reprinted set has the same rules exactly when every rule is printable. */
  lemma RulesReprintIff(canon: bytes -> bytes, order: set<bytes> -> seq<bytes>, rs: seq<RecordRule>, ks: seq<Kind>, a: Around)
    requires Orders(order) && Stored(rs, ks)
    ensures LoadRules(canon, StoreAll(PrintAll(order, rs)), a) == SettleAll(LoadRules(canon, rs, a))
       <==> forall i :: 0 <= i < |ks| ==> Printable(ks[i])
  {
    ReprintGathers(canon, order, rs, a);
    var us := SettleAll(LoadRules(canon, rs, a));
    GatherIff(Again(canon, order, a), rs, us);
    forall i | 0 <= i < |rs| ensures Again(canon, order, a)(rs[i]) == Some(us[i]) <==> Printable(ks[i]) {
      RuleReprintsIff(canon, order, rs[i], ks[i], a);
    }
  }

  /** The rules that come back, with what became of their kinds. */
  function Survivors(ls: seq<Rule>, ks: seq<Kind>): seq<Rule>
    requires |ks| == |ls|
  {
    if ls == [] then []
    else
      var r := WithKind(ls[0], Reprinted(ks[0]));
      (if r.Some? then [r.value] else []) + Survivors(ls[1..], ks[1..])
  }

  /** A printed and converted set has, in order, its rules but those that add a tag without a category;
      those that add one with an empty category no longer have it, and nothing else changes. */
  lemma ReprintGives(canon: bytes -> bytes, order: set<bytes> -> seq<bytes>, rs: seq<RecordRule>, ks: seq<Kind>, a: Around)
    requires Orders(order) && Stored(rs, ks)
    ensures LoadRules(canon, StoreAll(PrintAll(order, rs)), a) == Survivors(LoadRules(canon, rs, a), ks)
  {
    ReprintGathers(canon, order, rs, a);
    forall i | 0 <= i < |rs|
      ensures Again(canon, order, a)(rs[i]) == WithKind(LoadRules(canon, rs, a)[i], Reprinted(ks[i]))
    {
      RuleReprints(canon, order, rs[i], ks[i], a);
    }
    GatherSurvivors(Again(canon, order, a), rs, LoadRules(canon, rs, a), ks);
  }

  lemma {:induction false} GatherSurvivors<T>(f: T -> Option<Rule>, rs: seq<T>, ls: seq<Rule>, ks: seq<Kind>)
    requires |ks| == |rs| == |ls| && forall i :: 0 <= i < |rs| ==> f(rs[i]) == WithKind(ls[i], Reprinted(ks[i]))
    ensures Gather(f, rs) == Survivors(ls, ks)
  {
    if rs != [] {
      assert forall i :: 0 <= i < |rs| - 1 ==> rs[1..][i] == rs[i + 1] && ls[1..][i] == ls[i + 1] && ks[1..][i] == ks[i + 1];
      GatherSurvivors(f, rs[1..], ls[1..], ks[1..]);
    }
  }

  // ---------- decisions ----------

  /** Adding a tag treats a missing value as an empty one. */
  ghost predicate BlankValue(env: Env) { forall c, mt :: env.addTag(c, None, mt) == env.addTag(c, Some(""), mt) }

  lemma SettledVisit(env: Env, r: Rule, q: Query, mt: seq<bytes>, now: int)
    ensures var v := Visit(env, r, q, mt, now);
            Visit(env, SettleRule(r), q, mt, now) == Visited(SettleRule(v.rule), v.acts)
  {
    var s := SettleRule(r);
    assert Needs(env, s, q, mt) == Needs(env, r, q, mt);
    assert Flush(s, now) == SettleRule(Flush(r, now));
  }

  ghost predicate Settles(visit: Visitor)
  {
    forall r, mt :: visit(SettleRule(r), mt) == Visited(SettleRule(visit(r, mt).rule), visit(r, mt).acts)
  }

  lemma SettledTag(env: Env, k: Kind, mt: seq<bytes>)
    requires BlankValue(env)
    ensures Tagged(env, Settle(k), mt) == Tagged(env, k, mt)
  {}

  lemma {:induction false} SettledEval(env: Env, visit: Visitor, rules: seq<Rule>, i: nat, mt: seq<bytes>)
    requires Steady(visit) && Settles(visit) && BlankValue(env) && Linked(rules) && i <= |rules|
    ensures Linked(SettleAll(rules))
    ensures var a, b := Eval(env, visit, rules, i, mt), Eval(env, visit, SettleAll(rules), i, mt);
            b == Result(SettleAll(a.rules), a.decider, a.mt)
    decreases |rules| - i
  {
    SettledLinked(rules);
    if i < |rules| {
      var r, v := rules[i], visit(rules[i], mt);
      assert Kept(r, v.rule);
      assert visit(SettleRule(r), mt) == Visited(SettleRule(v.rule), v.acts);
      var rules' := rules[i := v.rule];
      SettledUpdate(rules, i, v.rule);
      if !v.acts || !Decides(r.kind) {
        var next := if v.acts then Follow(r, i) else i + 1;
        var mt' := if v.acts then Tagged(env, r.kind, mt) else mt;
        SettledTag(env, r.kind, mt);
        EvalStep(env, visit, rules, i, mt);
        EvalStep(env, visit, SettleAll(rules), i, mt);
        SettledEval(env, visit, rules', next, mt');
      }
    }
  }

  lemma SettledUpdate(rules: seq<Rule>, i: nat, r: Rule)
    requires i < |rules|
    ensures SettleAll(rules[i := r]) == SettleAll(rules)[i := SettleRule(r)]
  {}

  lemma SettledLinked(rules: seq<Rule>)
    requires Linked(rules)
    ensures Linked(SettleAll(rules))
  {}

  lemma {:induction false} SettledId(rs: seq<Rule>, i: nat, id: string)
    requires i <= |rs|
    ensures FirstId(SettleAll(rs), i, id) == FirstId(rs, i, id)
    decreases |rs| - i
  {
    if i < |rs| { SettledId(rs, i + 1, id); }
  }

  lemma SettledLinks(rs: seq<Rule>)
    ensures Link(SettleAll(rs)) == SettleAll(Link(rs))
  {
    forall i | 0 <= i < |rs| ensures LinkOf(SettleAll(rs), i) == LinkOf(rs, i) {
      if rs[i].kind.SkipTo? && rs[i].kind.to.Some? { SettledId(rs, i + 1, rs[i].kind.to.value); }
    }
  }

  /** A set of printable rules that is printed and converted again decides every query as before. */
  lemma ReprintKeepsDecisions(canon: bytes -> bytes, order: set<bytes> -> seq<bytes>, rs: seq<RecordRule>,
                              ks: seq<Kind>, a: Around, env: Env, q: Query, mt: seq<bytes>, now: int)
    requires Orders(order) && Stored(rs, ks) && BlankValue(env)
    requires forall i :: 0 <= i < |ks| ==> Printable(ks[i])
    ensures var x, y := LoadSet(canon, rs, a), LoadSet(canon, StoreAll(PrintAll(order, rs)), a);
            var before, after := Eval(env, Visiting(env, q, now), x, 0, mt), Eval(env, Visiting(env, q, now), y, 0, mt);
            after == Result(SettleAll(before.rules), before.decider, before.mt)
  {
    RulesReprintIff(canon, order, rs, ks, a);
    SettledLinks(LoadRules(canon, rs, a));
    forall r, t ensures Visiting(env, q, now)(SettleRule(r), t)
                     == Visited(SettleRule(Visiting(env, q, now)(r, t).rule), Visiting(env, q, now)(r, t).acts) {
      SettledVisit(env, r, q, t, now);
    }
    SettledEval(env, Visiting(env, q, now), LoadSet(canon, rs, a), 0, mt);
  }

  // ---------- a rule that is lost ----------

  const OPEN_PARTS: Parts := [ANY, ANY, ANY, ANY]

  function OpenRule(kind: Kind, id: Option<string>): Rule { Rule(kind, id, None, OPEN_PARTS, None, None, 0, 0) }

  function OpenRecord(kind: Kind, id: Option<string>): RecordRule
  {
    RecordRule(StoreKind(kind), id, Some(0), [Absent, Absent, Absent, Absent], None, None)
  }

  lemma OpenLoads(canon: bytes -> bytes, kind: Kind, id: Option<string>, a: Around)
    requires Typed(kind)
    ensures Load(canon, OpenRecord(kind, id), a) == OpenRule(kind, id)
  {
    KindRoute(kind);
  }

  lemma OpenActs(env: Env, r: Rule, q: Query, mt: seq<bytes>, now: int)
    requires r.parts == OPEN_PARTS && r.stream.None? && r.measure.None?
    ensures Visit(env, r, q, mt, now) == Visited(r, true)
  {}

  /** The kinds and ids of a set with a jump over a deny to a tag rule without a category. */
  ghost predicate JumpsToTag(ks: seq<Kind>, ids: seq<Option<string>>)
  {
    && |ks| == |ids| == 4 && ks[0] == SkipTo(Some("x")) && ks[1] == Deny && ks[2] == AddTag(None, None) && ks[3] == Accept
    && ids[0] == None && ids[1] == None && ids[2] == Some("x") && ids[3] == None
  }

  ghost predicate OpenRules(rs: seq<Rule>, ks: seq<Kind>, ids: seq<Option<string>>)
  {
    |rs| == |ks| == |ids| && forall i :: 0 <= i < |rs| ==> rs[i] == OpenRule(ks[i], ids[i])
  }

  lemma SurvivorsOfFour(ls: seq<Rule>, ks: seq<Kind>, ids: seq<Option<string>>)
    requires JumpsToTag(ks, ids) && OpenRules(ls, ks, ids)
    ensures Survivors(ls, ks) == [ls[0], ls[1], ls[3]]
  {
    assert ls[1..][1..] == ls[2..] && ls[2..][1..] == ls[3..] && ls[3..][1..] == [];
    assert ks[1..][1..] == ks[2..] && ks[2..][1..] == ks[3..];
    assert Survivors(ls[3..], ks[3..]) == [ls[3]];
    assert Survivors(ls[2..], ks[2..]) == [ls[3]];
    assert Survivors(ls[1..], ks[1..]) == [ls[1], ls[3]];
  }

  /** With its target, the jump goes over the deny. */
  lemma WholeAccepts(env: Env, q: Query, mt: seq<bytes>, now: int, ls: seq<Rule>, ks: seq<Kind>, ids: seq<Option<string>>)
    requires JumpsToTag(ks, ids) && OpenRules(ls, ks, ids)
    ensures Eval(env, Visiting(env, q, now), Link(ls), 0, mt).Accepted()
  {
    var whole, visit := Link(ls), Visiting(env, q, now);
    assert FirstId(ls, 1, "x") == FirstId(ls, 2, "x") == Some(2);
    OpenActs(env, whole[0], q, mt, now);
    OpenActs(env, whole[2], q, mt, now);
    var mt' := env.addTag(None, None, mt);
    OpenActs(env, whole[3], q, mt', now);
    assert whole[0 := whole[0]] == whole && whole[2 := whole[2]] == whole && whole[3 := whole[3]] == whole;
    assert Eval(env, visit, whole, 0, mt) == Eval(env, visit, whole, 2, mt) == Eval(env, visit, whole, 3, mt');
  }

  /** Without it, the jump goes nowhere. */
  lemma LostDenies(env: Env, q: Query, mt: seq<bytes>, now: int, a: Rule, b: Rule, d: Rule)
    requires a == OpenRule(SkipTo(Some("x")), None) && b == OpenRule(Deny, None) && d == OpenRule(Accept, None)
    ensures !Eval(env, Visiting(env, q, now), Link([a, b, d]), 0, mt).Accepted()
  {
    var ls := [a, b, d];
    var lost, visit := Link(ls), Visiting(env, q, now);
    assert FirstId(ls, 1, "x") == FirstId(ls, 2, "x") == FirstId(ls, 3, "x") == None;
    OpenActs(env, lost[0], q, mt, now);
    OpenActs(env, lost[1], q, mt, now);
    assert lost[0 := lost[0]] == lost && lost[1 := lost[1]] == lost;
    assert Eval(env, visit, lost, 0, mt) == Eval(env, visit, lost, 1, mt);
  }

  lemma OpenSetLoads(canon: bytes -> bytes, rs: seq<RecordRule>, ks: seq<Kind>, ids: seq<Option<string>>, a: Around)
    requires |rs| == |ks| == |ids| && forall i :: 0 <= i < |rs| ==> Typed(ks[i]) && rs[i] == OpenRecord(ks[i], ids[i])
    ensures OpenRules(LoadRules(canon, rs, a), ks, ids) && Stored(rs, ks)
  {
    forall i | 0 <= i < |rs| ensures LoadRules(canon, rs, a)[i] == OpenRule(ks[i], ids[i]) {
      OpenLoads(canon, ks[i], ids[i], a);
    }
  }

  lemma LostRules(canon: bytes -> bytes, order: set<bytes> -> seq<bytes>, rs: seq<RecordRule>, ls: seq<Rule>,
                  ks: seq<Kind>, ids: seq<Option<string>>, a: Around)
    requires Orders(order) && JumpsToTag(ks, ids) && Stored(rs, ks) && ls == LoadRules(canon, rs, a) && OpenRules(ls, ks, ids)
    ensures LoadRules(canon, StoreAll(PrintAll(order, rs)), a) == [ls[0], ls[1], ls[3]]
  {
    ReprintGives(canon, order, rs, ks, a);
    SurvivorsOfFour(ls, ks, ids);
  }

  /** A stored set that accepts everything, and denies everything once it has been printed and
      converted, because the target of its jump is lost. */
  lemma LostTarget(canon: bytes -> bytes, order: set<bytes> -> seq<bytes>, rs: seq<RecordRule>, ks: seq<Kind>,
                   ids: seq<Option<string>>, a: Around, env: Env, q: Query, mt: seq<bytes>, now: int)
    requires Orders(order) && JumpsToTag(ks, ids) && |rs| == 4 && forall i :: 0 <= i < 4 ==> rs[i] == OpenRecord(ks[i], ids[i])
    ensures Eval(env, Visiting(env, q, now), LoadSet(canon, rs, a), 0, mt).Accepted()
    ensures !Eval(env, Visiting(env, q, now), LoadSet(canon, StoreAll(PrintAll(order, rs)), a), 0, mt).Accepted()
  {
    var ls := LoadRules(canon, rs, a);
    OpenSetLoads(canon, rs, ks, ids, a);
    LostRules(canon, order, rs, ls, ks, ids, a);
    WholeAccepts(env, q, mt, now, ls, ks, ids);
    LostDenies(env, q, mt, now, ls[0], ls[1], ls[3]);
  }
}
