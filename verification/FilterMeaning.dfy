/** What a rule and a rule list decide, in terms of the query, the tables, and what expressions and
    searches say. */
module FilterMeaning {
  import opened Options
  import opened Bytes
  import opened FilterRule
  import opened FilterLaws

  // ---------- one part ----------

  /** Where a metric name is looked up: by its name before the tags, and by the whole name, to which an
      untagged name gets "|ST[]" appended, all within 4095 bytes. */
  ghost predicate Listed(q: Query, t: set<bytes>, i: nat)
    requires i < 4
  {
    if i < 3 then q.values[i] in t
    else
      var m := q.values[3];
      var long := m + [124, 83, 84, 91, 93];
      m[..q.base] in t || (if q.base < |m| then m else if |long| <= 4095 then long else long[..4095]) in t
  }

  /** A value passes an expression that is absent, or that compiles and matches it. */
  ghost predicate Passes(env: Env, e: Option<bytes>, v: bytes)
  {
    match e
    case None => true
    case Some(x) => env.compiles(x) && env.matches(x, v)
  }

  /** What an open metric part asks of the searches: each that parses must be met; one that does not
      parse is passed over beside an expression, and met by nothing without one. */
  ghost predicate Searched(env: Env, r: Rule, q: Query, mt: seq<bytes>)
  {
    && (r.stream.Some? && env.parses(r.stream.value) ==> env.search(r.stream.value, q.tags))
    && (r.measure.Some? && env.parses(r.measure.value) ==> env.search(r.measure.value, mt))
    && (r.parts[3].pattern.None? ==> (r.stream.Some? ==> env.parses(r.stream.value))
                                     && (r.measure.Some? ==> env.parses(r.measure.value)))
  }

  /** A part is met: by its table if it has one, or else by its expression and searches. */
  ghost predicate Met(env: Env, r: Rule, q: Query, mt: seq<bytes>, i: nat)
    requires i < 4
  {
    match r.parts[i].table
    case Some(t) => Listed(q, t, i)
    case None =>
      if i < 3 then Passes(env, r.parts[i].pattern, q.values[i])
      else Passes(env, r.parts[3].pattern, q.values[3][..q.base]) && Searched(env, r, q, mt)
  }

  lemma MatchesIsMet(env: Env, r: Rule, q: Query, mt: seq<bytes>, i: nat)
    requires i < 4
    ensures Matches(env, r, q, mt, i) <==> Met(env, r, q, mt, i)
  {}

  // ---------- one visit ----------

  /** The period of the rule has passed since its last flush. */
  predicate Elapsed(r: Rule, now: int) { r.interval > 0 && now - r.lastFlush >= r.interval }

  /** The entries of a table that remain when something is to be added: none after the period, if the
      table has a limit for additions. */
  function Remaining(r: Rule, now: int, i: nat): set<bytes>
    requires i < 4 && r.parts[i].table.Some?
  {
    if Elapsed(r, now) && r.parts[i].auto != 0 then {} else r.parts[i].table.value
  }

  /** There is a table with a positive limit that what remains does not fill. */
  predicate Roomy(r: Rule, now: int, i: nat)
    requires i < 4
  {
    r.parts[i].table.Some? && |Remaining(r, now, i)| < r.parts[i].auto
  }

  ghost predicate AllMet(env: Env, r: Rule, q: Query, mt: seq<bytes>)
  {
    forall i :: 0 <= i < 4 ==> Met(env, r, q, mt, i)
  }

  lemma NeedsIsMet(env: Env, r: Rule, q: Query, mt: seq<bytes>)
    ensures forall i :: 0 <= i < 4 ==> (Needs(env, r, q, mt)[i] <==> !Met(env, r, q, mt, i))
  {
    forall i | 0 <= i < 4 ensures Needs(env, r, q, mt)[i] <==> !Met(env, r, q, mt, i) { MatchesIsMet(env, r, q, mt, i); }
  }

  lemma RoomAfterFlush(r: Rule, now: int, i: nat)
    requires i < 4
    ensures Room(Flush(r, now).parts[i]) <==> Roomy(r, now, i)
    ensures Flush(r, now).parts[i].table.Some? <==> r.parts[i].table.Some?
    ensures r.parts[i].table.Some? ==> Flush(r, now).parts[i].table.value == Remaining(r, now, i)
  {}

  /** A rule acts exactly when each part is met, or has room to take the value in. */
  lemma ActsIff(env: Env, r: Rule, q: Query, mt: seq<bytes>, now: int)
    ensures Visit(env, r, q, mt, now).acts
       <==> forall i :: 0 <= i < 4 ==> Met(env, r, q, mt, i) || Roomy(r, now, i)
  {
    var needs, f := Needs(env, r, q, mt), Flush(r, now);
    NeedsIsMet(env, r, q, mt);
    forall i | 0 <= i < 4 ensures Room(f.parts[i]) <==> Roomy(r, now, i) { RoomAfterFlush(r, now, i); }
    if forall i :: 0 <= i < 4 ==> Met(env, r, q, mt, i) || Roomy(r, now, i) { assert Addable(f, needs); }
  }

  /** What becomes of a table: nothing while all parts are met; otherwise what remains, and the value
      too if the part was not met and the rule accepts or denies by adding. */
  lemma TableAfter(env: Env, r: Rule, q: Query, mt: seq<bytes>, now: int, i: nat)
    requires i < 4 && r.parts[i].table.Some?
    ensures var v := Visit(env, r, q, mt, now);
            && v.rule.parts[i].table.Some?
            && v.rule.parts[i].table.value
               == if AllMet(env, r, q, mt) then r.parts[i].table.value
                  else if v.acts && (r.kind.Accept? || r.kind.Deny?) && !Met(env, r, q, mt, i)
                    then Remaining(r, now, i) + {q.values[i]}
                  else Remaining(r, now, i)
  {
    NeedsIsMet(env, r, q, mt);
    RoomAfterFlush(r, now, i);
    assert AllMet(env, r, q, mt) <==> forall j :: 0 <= j < 4 ==> !Needs(env, r, q, mt)[j];
  }

  /** The time of the last flush moves to now exactly when some part is not met and the period is over. */
  lemma FlushedWhen(env: Env, r: Rule, q: Query, mt: seq<bytes>, now: int)
    ensures Visit(env, r, q, mt, now).rule.lastFlush
         == if !AllMet(env, r, q, mt) && Elapsed(r, now) then now else r.lastFlush
  {
    NeedsIsMet(env, r, q, mt);
    assert AllMet(env, r, q, mt) <==> forall j :: 0 <= j < 4 ==> !Needs(env, r, q, mt)[j];
  }

  // ---------- one rule ----------

  ghost predicate AcceptedBy(env: Env, rules: seq<Rule>, q: Query, mt: seq<bytes>, now: int)
    requires Linked(rules)
  {
    Eval(env, Visiting(env, q, now), rules, 0, mt).Accepted()
  }

  lemma OneRule(env: Env, r: Rule, q: Query, mt: seq<bytes>, now: int)
    requires r.link.None?
    ensures AcceptedBy(env, [r], q, mt, now) <==> r.kind.Accept? && Visit(env, r, q, mt, now).acts
  {
    var visit := Visiting(env, q, now);
    if Visit(env, r, q, mt, now).acts && Decides(r.kind) {
      EvalDecides(env, visit, [r], 0, mt);
    } else {
      EvalStep(env, visit, [r], 0, mt);
    }
  }

  /** A rule of expressions only accepts exactly when each that is present compiles and matches. */
  lemma ExpressionsAccept(env: Env, r: Rule, q: Query, mt: seq<bytes>, now: int)
    requires r.link.None? && r.stream.None? && r.measure.None? && forall i :: 0 <= i < 4 ==> r.parts[i].table.None?
    ensures AcceptedBy(env, [r], q, mt, now)
       <==> && r.kind.Accept?
            && (forall i :: 0 <= i < 3 && r.parts[i].pattern.Some? ==>
                  env.compiles(r.parts[i].pattern.value) && env.matches(r.parts[i].pattern.value, q.values[i]))
            && (r.parts[3].pattern.Some? ==>
                  env.compiles(r.parts[3].pattern.value) && env.matches(r.parts[3].pattern.value, q.values[3][..q.base]))
  {
    OneRule(env, r, q, mt, now);
    ActsIff(env, r, q, mt, now);
    forall i | 0 <= i < 3 ensures !Roomy(r, now, i) && (Met(env, r, q, mt, i) <==> Passes(env, r.parts[i].pattern, q.values[i])) {}
    assert !Roomy(r, now, 3) && (Met(env, r, q, mt, 3) <==> Passes(env, r.parts[3].pattern, q.values[3][..q.base]));
  }

  /** A rule of tables that take nothing in accepts exactly what is listed. */
  lemma TablesAccept(env: Env, r: Rule, q: Query, mt: seq<bytes>, now: int)
    requires r.link.None? && forall i :: 0 <= i < 4 ==> r.parts[i].table.Some? && r.parts[i].auto <= 0
    ensures AcceptedBy(env, [r], q, mt, now)
       <==> && r.kind.Accept? && (forall i :: 0 <= i < 3 ==> q.values[i] in r.parts[i].table.value)
            && Listed(q, r.parts[3].table.value, 3)
  {
    OneRule(env, r, q, mt, now);
    ActsIff(env, r, q, mt, now);
    forall i | 0 <= i < 4 ensures Met(env, r, q, mt, i) <==> Listed(q, r.parts[i].table.value, i) {}
  }

  /** A rule of searches only accepts exactly when each parses and is met. */
  lemma SearchesAccept(env: Env, r: Rule, q: Query, mt: seq<bytes>, now: int)
    requires r.link.None? && forall i :: 0 <= i < 4 ==> r.parts[i].table.None? && r.parts[i].pattern.None?
    ensures AcceptedBy(env, [r], q, mt, now)
       <==> && r.kind.Accept?
            && (r.stream.Some? ==> env.parses(r.stream.value) && env.search(r.stream.value, q.tags))
            && (r.measure.Some? ==> env.parses(r.measure.value) && env.search(r.measure.value, mt))
  {
    OneRule(env, r, q, mt, now);
    ActsIff(env, r, q, mt, now);
    forall i | 0 <= i < 4 ensures !Roomy(r, now, i) {}
    assert Met(env, r, q, mt, 3) <==> Searched(env, r, q, mt);
  }

  // ---------- a list ----------

  ghost predicate AllDecide(rules: seq<Rule>) { forall k :: 0 <= k < |rules| ==> rules[k].kind.Accept? || rules[k].kind.Deny? }

  /** The first rule, from a position on, that acts. */
  ghost predicate FirstActing(visit: Visitor, rules: seq<Rule>, mt: seq<bytes>, i: nat, d: nat)
  {
    i <= d < |rules| && visit(rules[d], mt).acts && forall j :: i <= j < d ==> !visit(rules[j], mt).acts
  }

  ghost predicate DecidedBy(visit: Visitor, rules: seq<Rule>, mt: seq<bytes>, i: nat, res: Result)
  {
    match res.decider
    case Some(d) => FirstActing(visit, rules, mt, i, d) && (res.Accepted() <==> rules[d].kind.Accept?)
    case None => !res.Accepted() && forall j :: i <= j < |rules| ==> !visit(rules[j], mt).acts
  }

  lemma DecidedLater(visit: Visitor, rules: seq<Rule>, rules': seq<Rule>, mt: seq<bytes>, i: nat, res: Result)
    requires i < |rules| == |rules'| && !visit(rules[i], mt).acts && rules' == rules[i := rules'[i]]
    requires DecidedBy(visit, rules', mt, i + 1, res)
    ensures DecidedBy(visit, rules, mt, i, res)
  {
    assert forall j :: i < j < |rules| ==> rules'[j] == rules[j];
  }

  lemma {:induction false} DecidedFrom(env: Env, visit: Visitor, rules: seq<Rule>, mt: seq<bytes>, i: nat)
    requires Steady(visit) && Linked(rules) && i <= |rules| && AllDecide(rules)
    ensures DecidedBy(visit, rules, mt, i, Eval(env, visit, rules, i, mt))
    decreases |rules| - i
  {
    if i < |rules| {
      var v := visit(rules[i], mt);
      assert Kept(rules[i], v.rule);
      if v.acts {
        EvalDecides(env, visit, rules, i, mt);
      } else {
        EvalStep(env, visit, rules, i, mt);
        var rules' := rules[i := v.rule];
        DecidedFrom(env, visit, rules', mt, i + 1);
        DecidedLater(visit, rules, rules', mt, i, Eval(env, visit, rules', i + 1, mt));
      }
    }
  }

  /** A list of accepts and denies accepts exactly when the first rule that acts is an accept; when none
      acts, it denies. */
  lemma FirstDecides(env: Env, rules: seq<Rule>, q: Query, mt: seq<bytes>, now: int)
    requires Linked(rules) && AllDecide(rules)
    ensures AcceptedBy(env, rules, q, mt, now)
       <==> exists d: nat :: FirstActing(Visiting(env, q, now), rules, mt, 0, d) && rules[d].kind.Accept?
  {
    var visit := Visiting(env, q, now);
    DecidedFrom(env, visit, rules, mt, 0);
    if d: nat :| FirstActing(visit, rules, mt, 0, d) && rules[d].kind.Accept? {
      assert Eval(env, visit, rules, 0, mt).decider == Some(d);
    }
  }

  /** Where it goes on: a jump that acts goes to its target, or to the next rule if it has none; a tag
      rule that acts adds its tag; everything else that does not decide just goes on. */
  lemma GoesOn(env: Env, rules: seq<Rule>, q: Query, mt: seq<bytes>, now: int, i: nat)
    requires Linked(rules) && i < |rules|
    requires var v := Visit(env, rules[i], q, mt, now); !(v.acts && (rules[i].kind.Accept? || rules[i].kind.Deny?))
    ensures var r, v, visit := rules[i], Visit(env, rules[i], q, mt, now), Visiting(env, q, now);
            var next := if v.acts && r.kind.SkipTo? && r.link.Some? then r.link.value else i + 1;
            var mt' := if v.acts && r.kind.AddTag? then env.addTag(r.kind.cat, r.kind.val, mt) else mt;
            var a, b := Eval(env, visit, rules, i, mt), Eval(env, visit, rules, next, mt');
            next <= |rules| && a.decider == b.decider && a.mt == b.mt
  {
    var r, v, visit := rules[i], Visit(env, rules[i], q, mt, now), Visiting(env, q, now);
    EvalStep(env, visit, rules, i, mt);
    var next := if v.acts && r.kind.SkipTo? && r.link.Some? then r.link.value else i + 1;
    assert rules[i := v.rule][next..] == rules[next..];
    EvalReads(env, visit, rules[i := v.rule], rules, next,
              if v.acts && r.kind.AddTag? then env.addTag(r.kind.cat, r.kind.val, mt) else mt);
  }
}
