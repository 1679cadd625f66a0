/** Filter rules, what one visit of a rule does, and the recursive meaning of a rule list. */
module FilterRule {
  import opened Options
  import opened Bytes

  const MAX_METRIC_TAGGED_NAME := 4096
  const EMPTY_TAGS: bytes := [124, 83, 84, 91, 93]

  /** A table of values with a limit for automatic additions, or else an expression. */
  datatype Part = Part(table: Option<set<bytes>>, auto: int, pattern: Option<bytes>)

  const ANY := Part(None, 0, None)

  type Parts = s: seq<Part> | |s| == 4 witness [ANY, ANY, ANY, ANY]

  datatype Kind =
    | Accept
    | Deny
    | SkipTo(to: Option<string>)
    | AddTag(cat: Option<string>, val: Option<string>)

  /** A compiled rule: its parts are target, module, name and metric, times are in microseconds. */
  datatype Rule = Rule(kind: Kind, id: Option<string>, link: Option<nat>, parts: Parts,
                       stream: Option<bytes>, measure: Option<bytes>, interval: nat, lastFlush: int)

  /** What is looked up: the four values, the length of the metric's name before its tags, and the
      stream tags. */
  datatype RawQuery = Query(values: seq<bytes>, base: nat, tags: seq<bytes>)

  type Query = q: RawQuery | |q.values| == 4 && q.base <= |q.values[3]| witness Query([[], [], [], []], 0, [])

  /** Expressions and tag searches: whether they compile, whether they match, and the measurement
      tags after adding one. */
  datatype Env = Env(compiles: bytes -> bool, matches: (bytes, bytes) -> bool, parses: bytes -> bool,
                     search: (bytes, seq<bytes>) -> bool,
                     addTag: (Option<string>, Option<string>, seq<bytes>) -> seq<bytes>)

  // ---------- matching ----------

  predicate PatternMatches(env: Env, p: Option<bytes>, s: bytes)
  {
    p.None? || (env.compiles(p.value) && env.matches(p.value, s))
  }

  predicate BadSearch(env: Env, e: Option<bytes>) { e.Some? && !env.parses(e.value) }

  predicate SearchMatches(env: Env, e: Option<bytes>, tags: seq<bytes>)
  {
    e.None? || !env.parses(e.value) || env.search(e.value, tags)
  }

  /** The second name that is looked up: an untagged name may be listed with empty tags. */
  function SecondName(q: Query): bytes
  {
    var m := q.values[3];
    if q.base == |m| then (if |m + EMPTY_TAGS| < MAX_METRIC_TAGGED_NAME then m + EMPTY_TAGS
                           else (m + EMPTY_TAGS)[..MAX_METRIC_TAGGED_NAME - 1]) else m
  }

  predicate InTable(t: set<bytes>, q: Query, i: nat)
    requires i < 4
  {
    if i < 3 then q.values[i] in t else q.values[3][..q.base] in t || SecondName(q) in t
  }

  /** A search that does not parse makes a rule without an expression match nothing, and is ignored
      beside an expression that compiles. */
  predicate OpenMetric(env: Env, r: Rule, q: Query, mt: seq<bytes>)
  {
    && PatternMatches(env, r.parts[3].pattern, q.values[3][..q.base])
    && (r.parts[3].pattern.None? ==> !BadSearch(env, r.stream) && !BadSearch(env, r.measure))
    && SearchMatches(env, r.stream, q.tags) && SearchMatches(env, r.measure, mt)
  }

  predicate Matches(env: Env, r: Rule, q: Query, mt: seq<bytes>, i: nat)
    requires i < 4
  {
    if r.parts[i].table.Some? then InTable(r.parts[i].table.value, q, i)
    else if i < 3 then PatternMatches(env, r.parts[i].pattern, q.values[i])
    else OpenMetric(env, r, q, mt)
  }

  // ---------- one visit ----------

  /** Which parts do not match. */
  function Needs(env: Env, r: Rule, q: Query, mt: seq<bytes>): (n: seq<bool>)
    ensures |n| == 4 && forall i :: 0 <= i < 4 ==> n[i] == !Matches(env, r, q, mt, i)
  {
    seq(4, i requires 0 <= i < 4 => !Matches(env, r, q, mt, i))
  }

  predicate Due(r: Rule, now: int) { r.interval != 0 && now >= r.lastFlush + r.interval }

  function FlushPart(p: Part): Part { if p.auto != 0 && p.table.Some? then p.(table := Some({})) else p }

  function Flush(r: Rule, now: int): Rule
  {
    if Due(r, now) then
      r.(parts := seq(4, i requires 0 <= i < 4 => FlushPart(r.parts[i])), lastFlush := now)
    else r
  }

  predicate Room(p: Part) { p.auto > 0 && p.table.Some? && |p.table.value| < p.auto }

  function AddPart(p: Part, v: bytes): Part
  {
    if p.table.Some? then p.(table := Some(p.table.value + {v})) else p
  }

  /** The needed values, added to their tables. */
  function Add(r: Rule, q: Query, needs: seq<bool>): Rule
    requires |needs| == 4
  {
    r.(parts := seq(4, i requires 0 <= i < 4 =>
                      if needs[i] then AddPart(r.parts[i], q.values[i]) else r.parts[i]))
  }

  predicate Addable(r: Rule, needs: seq<bool>)
    requires |needs| == 4
  {
    forall i :: 0 <= i < 4 ==> !needs[i] || Room(r.parts[i])
  }

  predicate Decides(k: Kind) { k.Accept? || k.Deny? }

  datatype Visited = Visited(rule: Rule, acts: bool)

  /** One visit: a rule acts when every part matches, or when every part that does not has room to
      add its value after a due flush; only a deciding rule adds. */
  function Visit(env: Env, r: Rule, q: Query, mt: seq<bytes>, now: int): Visited
  {
    var needs := Needs(env, r, q, mt);
    if forall i :: 0 <= i < 4 ==> !needs[i] then Visited(r, true)
    else
      var f := Flush(r, now);
      if Addable(f, needs) then Visited(if Decides(r.kind) then Add(f, q, needs) else f, true)
      else Visited(f, false)
  }

  // ---------- rule lists ----------

  /** Links go forward, inside the list. */
  predicate Linked(rules: seq<Rule>)
  {
    forall i :: 0 <= i < |rules| ==> rules[i].link.Some? ==> i < rules[i].link.value < |rules|
  }

  /** What a visit does to a rule, given the measurement tags so far. */
  type Visitor = (Rule, seq<bytes>) -> Visited

  /** A visit changes nothing but tables and the time of the last flush. */
  ghost predicate Steady(visit: Visitor) { forall r, mt :: Kept(r, visit(r, mt).rule) }

  predicate KeptPart(p: Part, p': Part) { p.auto == p'.auto && p.pattern == p'.pattern && (p.table.Some? <==> p'.table.Some?) }

  predicate Kept(r: Rule, r': Rule)
  {
    && r.kind == r'.kind && r.id == r'.id && r.link == r'.link && r.stream == r'.stream && r.measure == r'.measure
    && r.interval == r'.interval && forall i :: 0 <= i < 4 ==> KeptPart(r.parts[i], r'.parts[i])
  }

  function Follow(r: Rule, i: nat): nat { if r.kind.SkipTo? && r.link.Some? then r.link.value else i + 1 }

  function Tagged(env: Env, k: Kind, mt: seq<bytes>): seq<bytes>
  {
    if k.AddTag? then env.addTag(k.cat, k.val, mt) else mt
  }

  /** The rules afterwards, the index of the rule that decided, and the measurement tags. */
  datatype Result = Result(rules: seq<Rule>, decider: Option<nat>, mt: seq<bytes>)
  {
    predicate Accepted() { decider.Some? && decider.value < |rules| && rules[decider.value].kind.Accept? }
  }

  /** The meaning of a rule list from a position on: visit the rule there, decide, jump or go on. */
  function Eval(env: Env, visit: Visitor, rules: seq<Rule>, i: nat, mt: seq<bytes>): (res: Result)
    requires Steady(visit) && Linked(rules) && i <= |rules|
    ensures |res.rules| == |rules| && (res.decider.Some? ==> i <= res.decider.value < |rules|)
    decreases |rules| - i
  {
    if i == |rules| then Result(rules, None, mt)
    else
      var v := visit(rules[i], mt);
      assert Kept(rules[i], v.rule);
      var rules' := rules[i := v.rule];
      if !v.acts then Eval(env, visit, rules', i + 1, mt)
      else if Decides(rules[i].kind) then Result(rules', Some(i), mt)
      else Eval(env, visit, rules', Follow(rules[i], i), Tagged(env, rules[i].kind, mt))
  }

  lemma KeptTransitive(a: Rule, b: Rule, c: Rule)
    requires Kept(a, b) && Kept(b, c)
    ensures Kept(a, c)
  {}

  lemma FlushKept(r: Rule, now: int)
    ensures Kept(r, Flush(r, now))
  {}

  lemma AddKept(r: Rule, q: Query, needs: seq<bool>)
    requires |needs| == 4
    ensures Kept(r, Add(r, q, needs))
  {}

  lemma VisitKept(env: Env, r: Rule, q: Query, mt: seq<bytes>, now: int)
    ensures Kept(r, Visit(env, r, q, mt, now).rule)
  {
    var f, needs := Flush(r, now), Needs(env, r, q, mt);
    FlushKept(r, now);
    AddKept(f, q, needs);
    KeptTransitive(r, f, Add(f, q, needs));
  }

  /** The visitor of one query at one time. */
  function Visiting(env: Env, q: Query, now: int): (visit: Visitor)
    ensures Steady(visit)
  {
    assert forall r: Rule, mt: seq<bytes> :: Kept(r, Visit(env, r, q, mt, now).rule) by {
      forall r: Rule, mt: seq<bytes> ensures Kept(r, Visit(env, r, q, mt, now).rule) {
        VisitKept(env, r, q, mt, now);
      }
    }
    (r: Rule, mt: seq<bytes>) => Visit(env, r, q, mt, now)
  }

  /** The meaning at a rule that acts and decides. */
  lemma EvalDecides(env: Env, visit: Visitor, rules: seq<Rule>, i: nat, mt: seq<bytes>)
    requires Steady(visit) && Linked(rules) && i < |rules|
    requires visit(rules[i], mt).acts && Decides(rules[i].kind)
    ensures var res := Eval(env, visit, rules, i, mt);
            res.rules == rules[i := visit(rules[i], mt).rule] && res.mt == mt && (res.Accepted() <==> rules[i].kind.Accept?)
  {
    assert Kept(rules[i], visit(rules[i], mt).rule);
  }

  /** One step of the meaning, where the rule does not decide. */
  lemma EvalStep(env: Env, visit: Visitor, rules: seq<Rule>, i: nat, mt: seq<bytes>)
    requires Steady(visit) && Linked(rules) && i < |rules|
    requires !visit(rules[i], mt).acts || !Decides(rules[i].kind)
    ensures var v := visit(rules[i], mt);
            && Linked(rules[i := v.rule])
            && i < (if v.acts then Follow(rules[i], i) else i + 1) <= |rules|
            && Eval(env, visit, rules, i, mt)
               == Eval(env, visit, rules[i := v.rule], if v.acts then Follow(rules[i], i) else i + 1,
                       if v.acts then Tagged(env, rules[i].kind, mt) else mt)
  {
    assert Kept(rules[i], visit(rules[i], mt).rule);
  }
}
