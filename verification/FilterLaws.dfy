/** What holds of every application of a rule list, and over every run of applications. */
module FilterLaws {
  import opened Bytes
  import opened FilterRule

  // ---------- frames ----------

  /** Rules before the start stay as they are, and so do rules after the one that decides. */
  lemma {:induction false} EvalFrame(env: Env, visit: Visitor, rules: seq<Rule>, i: nat, mt: seq<bytes>, j: nat)
    requires Steady(visit) && Linked(rules) && i <= |rules| && j < |rules|
    ensures var res := Eval(env, visit, rules, i, mt);
            j < i || (res.decider.Some? && res.decider.value < j) ==> res.rules[j] == rules[j]
    decreases |rules| - i
  {
    if i < |rules| {
      var r, v := rules[i], visit(rules[i], mt);
      assert Kept(r, v.rule);
      var rules' := rules[i := v.rule];
      if !v.acts { EvalFrame(env, visit, rules', i + 1, mt, j); }
      else if !Decides(r.kind) { EvalFrame(env, visit, rules', Follow(r, i), Tagged(env, r.kind, mt), j); }
    }
  }

  /** A taken jump leaves the rules it jumps over as they are. */
  lemma JumpedOver(env: Env, visit: Visitor, rules: seq<Rule>, i: nat, mt: seq<bytes>, j: nat)
    requires Steady(visit) && Linked(rules) && i < |rules| && rules[i].kind.SkipTo? && rules[i].link.Some?
    requires visit(rules[i], mt).acts && i < j < rules[i].link.value
    ensures Eval(env, visit, rules, i, mt).rules[j] == rules[j]
  {
    var v := visit(rules[i], mt);
    assert Kept(rules[i], v.rule);
    EvalFrame(env, visit, rules[i := v.rule], rules[i].link.value, mt, j);
  }

  predicate Hold(rules: seq<Rule>, ok: (int, Rule) -> bool)
  {
    forall k {:trigger rules[k]} :: 0 <= k < |rules| ==> ok(k, rules[k])
  }

  /** What every visit keeps of a rule, an application keeps of every rule. */
  lemma {:induction false} EvalKeeps(env: Env, visit: Visitor, rules: seq<Rule>, i: nat, mt: seq<bytes>,
                                     ok: (int, Rule) -> bool)
    requires Steady(visit) && Linked(rules) && i <= |rules|
    requires forall k, r, t :: ok(k, r) ==> ok(k, visit(r, t).rule)
    requires Hold(rules, ok)
    ensures Hold(Eval(env, visit, rules, i, mt).rules, ok)
    decreases |rules| - i
  {
    if i < |rules| {
      var r, v := rules[i], visit(rules[i], mt);
      assert Kept(r, v.rule) && ok(i, r);
      var rules' := rules[i := v.rule];
      if !v.acts { EvalKeeps(env, visit, rules', i + 1, mt, ok); }
      else if !Decides(r.kind) { EvalKeeps(env, visit, rules', Follow(r, i), Tagged(env, r.kind, mt), ok); }
    }
  }

  /** An application from a position on reads only the rules from there on. */
  lemma {:induction false} EvalReads(env: Env, visit: Visitor, a: seq<Rule>, b: seq<Rule>, i: nat, mt: seq<bytes>)
    requires Steady(visit) && Linked(a) && Linked(b) && |a| == |b| && i <= |a| && a[i..] == b[i..]
    ensures var ra, rb := Eval(env, visit, a, i, mt), Eval(env, visit, b, i, mt);
            ra.decider == rb.decider && ra.mt == rb.mt
    decreases |a| - i
  {
    if i < |a| {
      var r, v := a[i], visit(a[i], mt);
      SameFrom(a, b, i, i);
      assert Kept(r, v.rule);
      var a', b' := a[i := v.rule], b[i := v.rule];
      var next := if v.acts then Follow(r, i) else i + 1;
      SameFrom(a, b, i, next);
      assert a'[next..] == a[next..] && b'[next..] == b[next..];
      if !v.acts { EvalReads(env, visit, a', b', i + 1, mt); }
      else if !Decides(r.kind) { EvalReads(env, visit, a', b', next, Tagged(env, r.kind, mt)); }
    }
  }

  lemma SameFrom<T>(a: seq<T>, b: seq<T>, i: nat, j: nat)
    requires |a| == |b| && i <= j <= |a| && a[i..] == b[i..]
    ensures a[j..] == b[j..]
    ensures j < |a| ==> a[j] == b[j]
  {
    assert forall k :: j <= k < |a| ==> a[k] == a[i..][k - i] && b[k] == b[i..][k - i];
  }

  // ---------- table sizes over every run ----------

  function Size(p: Part): nat { if p.table.Some? then |p.table.value| else 0 }

  /** Not larger than the table it began with, or else than the limit for automatic additions. */
  predicate WithinPart(first: Part, p: Part)
  {
    p.auto == first.auto && (Size(p) <= Size(first) || Size(p) <= first.auto)
  }

  predicate Within(first: Rule, r: Rule) { forall i :: 0 <= i < 4 ==> WithinPart(first.parts[i], r.parts[i]) }

  lemma AddPartWithin(first: Part, p: Part, v: bytes)
    requires WithinPart(first, p)
    ensures Room(p) ==> WithinPart(first, AddPart(p, v))
    ensures WithinPart(first, FlushPart(p))
  {
    if Room(p) {
      if v in p.table.value { assert p.table.value + {v} == p.table.value; }
      assert |p.table.value + {v}| <= |p.table.value| + 1;
    }
  }

  lemma FlushWithin(first: Rule, r: Rule, now: int)
    requires Within(first, r)
    ensures Within(first, Flush(r, now))
  {
    forall i | 0 <= i < 4 ensures WithinPart(first.parts[i], Flush(r, now).parts[i]) {
      AddPartWithin(first.parts[i], r.parts[i], []);
    }
  }

  lemma AddWithin(first: Rule, r: Rule, q: Query, needs: seq<bool>)
    requires Within(first, r) && |needs| == 4 && Addable(r, needs)
    ensures Within(first, Add(r, q, needs))
  {
    forall i | 0 <= i < 4 ensures WithinPart(first.parts[i], Add(r, q, needs).parts[i]) {
      AddPartWithin(first.parts[i], r.parts[i], q.values[i]);
    }
  }

  lemma VisitWithin(env: Env, first: Rule, r: Rule, q: Query, mt: seq<bytes>, now: int)
    requires Within(first, r)
    ensures Within(first, Visit(env, r, q, mt, now).rule)
  {
    var f, needs := Flush(r, now), Needs(env, r, q, mt);
    FlushWithin(first, r, now);
    if Addable(f, needs) { AddWithin(first, f, q, needs); }
  }

  datatype Event = Event(q: Query, mt: seq<bytes>, now: int)

  ghost predicate AllWithin(first: seq<Rule>, rules: seq<Rule>)
  {
    |rules| == |first| && forall k :: 0 <= k < |rules| ==> Kept(first[k], rules[k]) && Within(first[k], rules[k])
  }

  /** Any number of applications, one after the other. */
  function Run(env: Env, rules: seq<Rule>, events: seq<Event>): seq<Rule>
    requires Linked(rules)
    decreases |events|
  {
    if events == [] then rules
    else
      var e := events[0];
      OneWithin(env, rules, rules, e);
      Run(env, Eval(env, Visiting(env, e.q, e.now), rules, 0, e.mt).rules, events[1..])
  }

  lemma OneWithin(env: Env, first: seq<Rule>, rules: seq<Rule>, e: Event)
    requires Linked(first)
    requires AllWithin(first, rules) || rules == first
    ensures Linked(rules)
    ensures var after := Eval(env, Visiting(env, e.q, e.now), rules, 0, e.mt).rules;
            Linked(after) && AllWithin(first, after)
  {
    if rules == first { SelfWithin(first); }
    var ok := (k: int, r: Rule) => 0 <= k < |first| && Kept(first[k], r) && Within(first[k], r);
    forall k, r, t | ok(k, r) ensures ok(k, Visiting(env, e.q, e.now)(r, t).rule) {
      VisitWithin(env, first[k], r, e.q, t, e.now);
      KeptTransitive(first[k], r, Visiting(env, e.q, e.now)(r, t).rule);
    }
    EvalKeeps(env, Visiting(env, e.q, e.now), rules, 0, e.mt, ok);
    var after := Eval(env, Visiting(env, e.q, e.now), rules, 0, e.mt).rules;
    assert Hold(after, ok);
  }

  lemma SelfWithin(rules: seq<Rule>)
    ensures AllWithin(rules, rules)
  {}

  /** Over every run, at any times, every table stays within the larger of its first size and its limit. */
  lemma {:induction false} TablesBounded(env: Env, first: seq<Rule>, rules: seq<Rule>, events: seq<Event>)
    requires Linked(first) && (AllWithin(first, rules) || rules == first) && Linked(rules)
    ensures AllWithin(first, Run(env, rules, events))
    decreases |events|
  {
    if events == [] {
      SelfWithin(first);
    } else {
      var e := events[0];
      OneWithin(env, first, rules, e);
      TablesBounded(env, first, Eval(env, Visiting(env, e.q, e.now), rules, 0, e.mt).rules, events[1..]);
    }
  }
}
