/** Asking again gives the same answer: what a decision added or flushed does not undo it. */
module FilterRepeat {
  import opened Options
  import opened Bytes
  import opened FilterRule
  import opened FilterLaws

  predicate NonNegative(r: Rule) { forall i :: 0 <= i < 4 ==> r.parts[i].auto >= 0 }

  lemma KeptNonNegative(r: Rule, r': Rule)
    requires NonNegative(r) && Kept(r, r')
    ensures NonNegative(r')
  {
    assert forall i :: 0 <= i < 4 ==> KeptPart(r.parts[i], r'.parts[i]);
  }

  // ---------- one rule, visited twice ----------

  /** A table that lost values matches no more than it did; a part without a table matches as before. */
  lemma NeedKept(env: Env, r: Rule, r': Rule, q: Query, mt: seq<bytes>, i: nat)
    requires i < 4 && Kept(r, r') && !Matches(env, r, q, mt, i)
    requires r.parts[i].table.Some? ==> r'.parts[i].table.value <= r.parts[i].table.value
    ensures !Matches(env, r', q, mt, i)
  {
    assert forall j :: 0 <= j < 4 ==> KeptPart(r.parts[j], r'.parts[j]);
  }

  lemma MatchKept(env: Env, r: Rule, r': Rule, q: Query, mt: seq<bytes>, i: nat)
    requires i < 4 && Kept(r, r') && Matches(env, r, q, mt, i)
    requires r.parts[i] == r'.parts[i]
    ensures Matches(env, r', q, mt, i)
  {
    assert forall j :: 0 <= j < 4 ==> KeptPart(r.parts[j], r'.parts[j]);
  }

  /** A value just added is found, also a tagged or untagged metric name. */
  lemma AddedMatches(env: Env, r: Rule, q: Query, mt: seq<bytes>, i: nat)
    requires i < 4 && r.parts[i].table.Some? && q.values[i] in r.parts[i].table.value
    ensures Matches(env, r, q, mt, i)
  {
    if i == 3 && q.base == |q.values[3]| { assert q.values[3][..q.base] == q.values[3]; }
  }

  lemma FlushedTwice(r: Rule, now: int)
    ensures !Due(Flush(r, now), now)
  {}

  /** A rule all of whose parts match or have room acts, when no flush is due. */
  lemma ActsWhen(env: Env, r: Rule, q: Query, mt: seq<bytes>, now: int)
    requires !Due(r, now)
    ensures Visit(env, r, q, mt, now).acts
       <==> forall i :: 0 <= i < 4 ==> Matches(env, r, q, mt, i) || Room(r.parts[i])
  {
    var needs := Needs(env, r, q, mt);
    if forall i :: 0 <= i < 4 ==> Matches(env, r, q, mt, i) || Room(r.parts[i]) {
      assert Addable(Flush(r, now), needs);
    }
  }

  /** A visit that acts by adding right after a flush emptied a table it had matched, one that its
      negative limit never fills again. */
  ghost predicate Forgets(env: Env, r: Rule, q: Query, mt: seq<bytes>, now: int)
  {
    var needs := Needs(env, r, q, mt);
    && (exists i :: 0 <= i < 4 && needs[i]) && Due(r, now) && Addable(Flush(r, now), needs)
    && (exists i :: 0 <= i < 4 && !needs[i] && r.parts[i].table.Some? && r.parts[i].auto < 0)
  }

  lemma PartAgain(env: Env, r: Rule, q: Query, mt: seq<bytes>, now: int, i: nat)
    requires i < 4
    ensures var f := Flush(r, now);
            if !Matches(env, r, q, mt, i) then !Matches(env, f, q, mt, i)
            else (Matches(env, f, q, mt, i) || Room(f.parts[i])
                  <==> !(Due(r, now) && r.parts[i].table.Some? && r.parts[i].auto < 0))
  {
    var f := Flush(r, now);
    FlushKept(r, now);
    if !Matches(env, r, q, mt, i) {
      NeedKept(env, r, f, q, mt, i);
    } else if f.parts[i] == r.parts[i] {
      MatchKept(env, r, f, q, mt, i);
    }
  }

  lemma AddAgain(env: Env, f: Rule, q: Query, mt: seq<bytes>, needs: seq<bool>, i: nat)
    requires |needs| == 4 && i < 4 && Addable(f, needs)
    ensures var a := Add(f, q, needs);
            Matches(env, a, q, mt, i) || Room(a.parts[i]) <==> needs[i] || Matches(env, f, q, mt, i) || Room(f.parts[i])
  {
    var a := Add(f, q, needs);
    AddKept(f, q, needs);
    if needs[i] {
      assert Room(f.parts[i]);
      AddedMatches(env, a, q, mt, i);
    } else if Matches(env, f, q, mt, i) {
      MatchKept(env, f, a, q, mt, i);
    } else {
      NeedKept(env, f, a, q, mt, i);
    }
  }

  /** The second visit acts just as the first did, exactly when the first did not forget. */
  lemma VisitAgainIff(env: Env, r: Rule, q: Query, mt: seq<bytes>, now: int, then': int)
    requires var v := Visit(env, r, q, mt, now); Due(v.rule, then') ==> then' == now
    ensures var v := Visit(env, r, q, mt, now);
            Visit(env, v.rule, q, mt, then').acts == v.acts <==> !Forgets(env, r, q, mt, now)
  {
    var needs, f := Needs(env, r, q, mt), Flush(r, now);
    if exists i :: 0 <= i < 4 && needs[i] {
      FlushedTwice(r, now);
      forall i | 0 <= i < 4
        ensures needs[i] ==> !Matches(env, f, q, mt, i)
        ensures !needs[i] ==> (Matches(env, f, q, mt, i) || Room(f.parts[i])
                               <==> !(Due(r, now) && r.parts[i].table.Some? && r.parts[i].auto < 0))
      {
        PartAgain(env, r, q, mt, now, i);
      }
      if Addable(f, needs) && Decides(r.kind) {
        var a := Add(f, q, needs);
        forall i | 0 <= i < 4
          ensures Matches(env, a, q, mt, i) || Room(a.parts[i]) <==> needs[i] || Matches(env, f, q, mt, i) || Room(f.parts[i])
        {
          AddAgain(env, f, q, mt, needs, i);
        }
        ActsWhen(env, a, q, mt, then');
      } else {
        ActsWhen(env, f, q, mt, then');
      }
    }
  }

  /** A table with a negative limit is emptied by the flush and never filled again. */
  lemma NegativeLimitForgets(env: Env, a: bytes, b: bytes, mt: seq<bytes>)
    ensures var r := Rule(Accept, None, None, [Part(Some({a}), -1, None), Part(Some({}), 1, None), ANY, ANY],
                          None, None, 1, 0);
            var q: Query := Query([a, b, [], []], 0, []);
            var v := Visit(env, r, q, mt, 1);
            v.acts && !Visit(env, v.rule, q, mt, 1).acts
  {
    var r := Rule(Accept, None, None, [Part(Some({a}), -1, None), Part(Some({}), 1, None), ANY, ANY], None, None, 1, 0);
    var q: Query := Query([a, b, [], []], 0, []);
    var needs := Needs(env, r, q, mt);
    assert needs[1] && !needs[0] && !needs[2] && !needs[3];
    assert Addable(Flush(r, 1), needs);
    VisitAgainIff(env, r, q, mt, 1, 1);
  }

  // ---------- the whole list ----------

  /** A second visitor acts on what the first left exactly when the first acted. */
  ghost predicate Again(first: Visitor, second: Visitor, calm: (int, Rule) -> bool)
  {
    forall k, r, mt :: NonNegative(r) && calm(k, first(r, mt).rule) ==> second(first(r, mt).rule, mt).acts == first(r, mt).acts
  }

  lemma EvalLinked(env: Env, visit: Visitor, rules: seq<Rule>, i: nat, mt: seq<bytes>)
    requires Steady(visit) && Linked(rules) && i <= |rules|
    ensures Linked(Eval(env, visit, rules, i, mt).rules)
  {
    var ok := (k: int, r: Rule) => 0 <= k < |rules| && Kept(rules[k], r);
    forall k, r, t | ok(k, r) ensures ok(k, visit(r, t).rule) {
      KeptTransitive(rules[k], r, visit(r, t).rule);
    }
    EvalKeeps(env, visit, rules, i, mt, ok);
    assert Hold(Eval(env, visit, rules, i, mt).rules, ok);
  }

  lemma {:induction false} EvalAgain(env: Env, first: Visitor, second: Visitor, calm: (int, Rule) -> bool,
                                     rules: seq<Rule>, i: nat, mt: seq<bytes>)
    requires Steady(first) && Steady(second) && Again(first, second, calm) && Linked(rules) && i <= |rules|
    requires forall k :: 0 <= k < |rules| ==> NonNegative(rules[k])
    requires Hold(Eval(env, first, rules, i, mt).rules, calm)
    ensures Linked(Eval(env, first, rules, i, mt).rules)
    ensures var res := Eval(env, first, rules, i, mt);
            var res' := Eval(env, second, res.rules, i, mt);
            res'.decider == res.decider && res'.mt == res.mt
    decreases |rules| - i
  {
    var res := Eval(env, first, rules, i, mt);
    EvalLinked(env, first, rules, i, mt);
    if i < |rules| {
      var r, v := rules[i], first(rules[i], mt);
      assert Kept(r, v.rule);
      KeptNonNegative(r, v.rule);
      var rules' := rules[i := v.rule];
      if !v.acts || !Decides(r.kind) {
        var next := if v.acts then Follow(r, i) else i + 1;
        var mt' := if v.acts then Tagged(env, r.kind, mt) else mt;
        assert res == Eval(env, first, rules', next, mt');
        EvalFrame(env, first, rules', next, mt', i);
        EvalAgain(env, first, second, calm, rules', next, mt');
        assert res.rules[i] == v.rule && calm(i, res.rules[i]);
        SecondStep(env, second, res.rules, i, next, mt, mt');
      } else {
        assert res.rules[i] == v.rule && calm(i, res.rules[i]);
      }
    }
  }

  /** A step of the second run does not disturb what comes after it. */
  lemma SecondStep(env: Env, visit: Visitor, rules: seq<Rule>, i: nat, next: nat, mt: seq<bytes>, mt': seq<bytes>)
    requires Steady(visit) && Linked(rules) && i < next <= |rules|
    requires var v := visit(rules[i], mt);
             if v.acts then !Decides(rules[i].kind) && next == Follow(rules[i], i) && mt' == Tagged(env, rules[i].kind, mt)
             else next == i + 1 && mt' == mt
    ensures var a, b := Eval(env, visit, rules, i, mt), Eval(env, visit, rules, next, mt');
            a.decider == b.decider && a.mt == b.mt
  {
    var v := visit(rules[i], mt);
    assert Kept(rules[i], v.rule);
    var rules' := rules[i := v.rule];
    assert rules'[next..] == rules[next..];
    EvalReads(env, visit, rules', rules, next, mt');
  }

  /** With no negative limit, asking again at the same moment, or later while no flush is due, is
      answered by the same rule. */
  lemma AskedAgain(env: Env, rules: seq<Rule>, q: Query, mt: seq<bytes>, now: int, then': int)
    requires Linked(rules)
    requires forall k :: 0 <= k < |rules| ==> NonNegative(rules[k])
    requires var res := Eval(env, Visiting(env, q, now), rules, 0, mt);
             forall k :: 0 <= k < |rules| && Due(res.rules[k], then') ==> then' == now
    ensures Linked(Eval(env, Visiting(env, q, now), rules, 0, mt).rules)
    ensures var res := Eval(env, Visiting(env, q, now), rules, 0, mt);
            var res' := Eval(env, Visiting(env, q, then'), res.rules, 0, mt);
            res'.decider == res.decider && res'.mt == res.mt
  {
    var calm := (k: int, r: Rule) => Due(r, then') ==> then' == now;
    var first, second := Visiting(env, q, now), Visiting(env, q, then');
    forall k, r, t | NonNegative(r) && calm(k, first(r, t).rule)
      ensures second(first(r, t).rule, t).acts == first(r, t).acts {
      VisitAgainIff(env, r, q, t, now, then');
    }
    assert Again(first, second, calm);
    EvalAgain(env, first, second, calm, rules, 0, mt);
  }
}
