/** Applying a filter set: the single forward scan with a pending skip target. */
module FilterApply {
  import opened Options
  import opened Bytes
  import opened FilterRule

  class FilterSet {
    var rules: seq<Rule>
    var executions: bv32
    var denies: bv32

    constructor (compiled: seq<Rule>)
      requires Linked(compiled)
      ensures rules == compiled && executions == 0 && denies == 0
    {
      rules, executions, denies := compiled, 0, 0;
    }

    /** The rules are walked once; while a skip target is pending, others are passed over. */
    method Walk(env: Env, visit: Visitor, start: seq<bytes>) returns (accepted: bool, mt: seq<bytes>)
      requires Steady(visit) && Linked(rules)
      modifies this`rules
      ensures var res := Eval(env, visit, old(rules), 0, start);
              rules == res.rules && accepted == res.Accepted() && mt == res.mt
    {
      ghost var res := Eval(env, visit, rules, 0, start);
      mt := start;
      var skipto: Option<nat> := None;
      var i := 0;
      while i < |rules|
        invariant i <= |rules| && Linked(rules)
        invariant skipto.Some? ==> i <= skipto.value < |rules|
        invariant res == Eval(env, visit, rules, if skipto.Some? then skipto.value else i, mt)
      {
        if skipto == None || skipto.value == i {
          skipto := None;
          var r := rules[i];
          var v := visit(r, mt);
          if v.acts && Decides(r.kind) {
            EvalDecides(env, visit, rules, i, mt);
          } else {
            EvalStep(env, visit, rules, i, mt);
          }
          rules := rules[i := v.rule];
          if v.acts {
            match r.kind
            case SkipTo(_) => skipto := r.link;
            case AddTag(cat, val) => mt := env.addTag(cat, val, mt);
            case Accept => return true, mt;
            case Deny => return false, mt;
          }
        }
        i := i + 1;
      }
      accepted := false;
    }

    /** noit_apply_filterset, once the set has been found. */
    method Apply(env: Env, q: Query, start: seq<bytes>, now: int) returns (accepted: bool, mt: seq<bytes>)
      requires Linked(rules)
      modifies this
      ensures var res := Eval(env, Visiting(env, q, now), old(rules), 0, start);
              rules == res.rules && accepted == res.Accepted() && mt == res.mt
      ensures executions == old(executions) + 1
      ensures denies == if accepted then old(denies) else old(denies) + 1
    {
      executions := executions + 1;
      accepted, mt := Walk(env, Visiting(env, q, now), start);
      if !accepted { denies := denies + 1; }
    }
  }
}
