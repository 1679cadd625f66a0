/** When a check can come back to a node although tombstones of it are purged meanwhile. */
module ClusterPurge {
  import opened Options
  import opened ClusterLink
  import opened Cluster
  import opened ClusterLaws
  import opened ClusterReturn

  /** The nodes that may purge the check. */
  ghost function Purgeable(s: State, id: CheckId): set<NodeId>
    requires WellFormed(s)
  {
    set n | n in s.reg && Enabled(s, Purge(n, id))
  }

  /** Nodes along links, each below the sequence or free to purge. */
  ghost predicate OpenRoute(s: State, id: CheckId, c: int, path: seq<NodeId>, free: set<NodeId>)
  {
    && path != [] && (forall i :: 0 <= i < |path| ==> path[i] in s.reg && (path[i] in free || VersionAt(s, path[i], id) < c))
    && forall i :: 0 < i < |path| ==> (path[i - 1], path[i]) in s.link
  }

  ghost predicate ReturnsVia(s: State, n: NodeId, id: CheckId, free: set<NodeId>, k: Wire, c: int, path: seq<NodeId>)
  {
    Supplies(s, k, id, c) && OpenRoute(s, id, c, path, free) && k.1 == path[0] && path[|path| - 1] == n
  }

  ghost predicate CanReturn(s: State, n: NodeId, id: CheckId, free: set<NodeId>)
  {
    exists k, c, path :: ReturnsVia(s, n, id, free, k, c, path)
  }

  /** The node accepts the check at some step. */
  ghost predicate AcceptsIn(s: State, steps: seq<Step>, n: NodeId, id: CheckId)
    requires IsRun(s, steps)
    decreases steps
  {
    steps != [] && (Accepts(s, steps[0], n, id) || AcceptsIn(Do(s, steps[0]), steps[1..], n, id))
  }

  /** A step that is no edit or delete of the check, and purges it only at some nodes. */
  predicate Allowed(st: Step, id: CheckId, free: set<NodeId>)
  {
    !Operates(st, id) && (st.Purge? && st.id == id ==> st.n in free)
  }

  ghost predicate AllAllowed(steps: seq<Step>, id: CheckId, free: set<NodeId>)
  {
    forall st :: st in steps ==> Allowed(st, id, free)
  }

  ghost predicate ReturnsBy(s: State, steps: seq<Step>, n: NodeId, id: CheckId, free: set<NodeId>)
  {
    IsRun(s, steps) && Careful(s, steps) && AllAllowed(steps, id, free) && AcceptsIn(s, steps, n, id)
  }

  // ---------- what is accepted could come ----------

  lemma PurgeVersions(s: State, m: NodeId, id: CheckId, n: NodeId)
    requires WellFormed(s) && Enabled(s, Purge(m, id))
    ensures VersionAt(Do(s, Purge(m, id)), n, id) == if n == m then 0 else VersionAt(s, n, id)
    ensures SameShape(s, Do(s, Purge(m, id)))
  {}

  lemma OpenBefore(s: State, st: Step, id: CheckId, c: int, path: seq<NodeId>, free: set<NodeId>)
    requires Inv(s) && Enabled(s, st) && Allowed(st, id, free) && OpenRoute(Do(s, st), id, c, path, free)
    ensures OpenRoute(s, id, c, path, free)
  {
    InvPositive(s);
    SameNodes(s, st);
    forall i | 0 <= i < |path| ensures path[i] in free || VersionAt(s, path[i], id) < c {
      if Touches(st, id) { PurgeVersions(s, st.n, id, path[i]); } else { AcceptRaises(s, st, path[i], id); }
    }
  }

  lemma ReturnsEarlier(s: State, k: Wire, n: NodeId, id: CheckId, free: set<NodeId>, c: int, path: seq<NodeId>)
    requires Inv(s) && Enabled(s, Process(k)) && Accepts(s, Process(k), k.1, id)
    requires c == s.link[k].phase.docs[0].check.version
    requires OpenRoute(s, id, c, path, free) && path[|path| - 1] == n && (k.1, path[0]) in s.link
    ensures CanReturn(s, n, id, free)
  {
    FirstDocSupplies(s, k);
    assert ReturnsVia(s, n, id, free, k, c, [k.1] + path);
  }

  lemma ReturnsBefore(s: State, st: Step, n: NodeId, id: CheckId, free: set<NodeId>)
    requires Inv(s) && Enabled(s, st) && Allowed(st, id, free) && CanReturn(Do(s, st), n, id, free)
    ensures CanReturn(s, n, id, free)
  {
    var k, c, path :| ReturnsVia(Do(s, st), n, id, free, k, c, path);
    OpenBefore(s, st, id, c, path, free);
    if st.Process? && Accepts(s, st, st.k.1, id) {
      AcceptedSupplies(s, st.k, k, id, c);
      if !Supplies(s, k, id, c) { ReturnsEarlier(s, st.k, n, id, free, c, path); }
    } else {
      StepSupplies(s, st, k, id, c);
    }
    if Supplies(s, k, id, c) { assert ReturnsVia(s, n, id, free, k, c, path); }
  }

  lemma {:induction false} AcceptedThenCould(s: State, steps: seq<Step>, n: NodeId, id: CheckId, free: set<NodeId>)
    requires Inv(s) && ReturnsBy(s, steps, n, id, free)
    ensures CanReturn(s, n, id, free)
    decreases steps
  {
    var st := steps[0];
    assert Allowed(st, id, free);
    if Accepts(s, st, n, id) {
      FirstDocSupplies(s, st.k);
      assert ReturnsVia(s, n, id, free, st.k, s.link[st.k].phase.docs[0].check.version, [n]);
    } else {
      StepKeeps(s, st);
      AcceptedThenCould(Do(s, st), steps[1..], n, id, free);
      ReturnsBefore(s, st, n, id, free);
    }
  }

  // ---------- a route can be cleared ----------

  lemma SupplyPositive(s: State, k: Wire, id: CheckId, c: int)
    requires Inv(s) && Supplies(s, k, id, c)
    ensures c > 0
  {
    assert LinkInv(ViewOf(s, k));
  }

  /** No purge takes a supply away, because a check that a changelog mentions is not purged. */
  lemma PurgeKeepsSupply(s: State, m: NodeId, id: CheckId, k: Wire, c: int)
    requires Inv(s) && Enabled(s, Purge(m, id))
    ensures Supplies(Do(s, Purge(m, id)), k, id, c) <==> Supplies(s, k, id, c)
  {
    ForgetSupplies(s, m, id, k, id, c);
    if Supplies(s, k, id, c) && !InReply(s.link[k], id, c) {
      assert Mentions(s.link[k], id);
      assert k.0 != m;
    }
  }

  lemma OthersPurgeable(s: State, m: NodeId, id: CheckId, n: NodeId)
    requires Inv(s) && Enabled(s, Purge(m, id)) && n != m && Enabled(s, Purge(n, id))
    ensures WellFormed(Do(s, Purge(m, id))) && Enabled(Do(s, Purge(m, id)), Purge(n, id))
  {
    var s' := Do(s, Purge(m, id));
    forall k | k in s'.link && k.0 == n ensures !Mentions(s'.link[k], id) {
      assert !Mentions(s.link[k], id);
      assert s'.link[k].hist == s.link[k].hist && s'.link[k].dropped == s.link[k].dropped;
    }
  }

  /** The nodes of a path that are not below the sequence. */
  ghost function Closed(s: State, id: CheckId, c: int, path: seq<NodeId>): set<NodeId>
  {
    set n | n in path && VersionAt(s, n, id) >= c
  }

  lemma OpenAfterPurge(s: State, m: NodeId, id: CheckId, c: int, path: seq<NodeId>)
    requires Inv(s) && Enabled(s, Purge(m, id)) && c > 0 && m in Closed(s, id, c, path)
    requires OpenRoute(s, id, c, path, Purgeable(s, id))
    ensures var s' := Do(s, Purge(m, id));
            && WellFormed(s') && OpenRoute(s', id, c, path, Purgeable(s', id))
            && |Closed(s', id, c, path)| < |Closed(s, id, c, path)|
  {
    var s' := Do(s, Purge(m, id));
    forall n ensures VersionAt(s', n, id) == if n == m then 0 else VersionAt(s, n, id) { PurgeVersions(s, m, id, n); }
    forall i | 0 <= i < |path| ensures path[i] in s'.reg && (path[i] in Purgeable(s', id) || VersionAt(s', path[i], id) < c) {
      if path[i] != m && VersionAt(s, path[i], id) >= c { OthersPurgeable(s, m, id, path[i]); }
    }
    SubsetSize(Closed(s', id, c, path), Closed(s, id, c, path) - {m});
  }

  lemma FewerPurgeable(s: State, m: NodeId, id: CheckId)
    requires WellFormed(s) && Enabled(s, Purge(m, id))
    ensures WellFormed(Do(s, Purge(m, id))) && Purgeable(Do(s, Purge(m, id)), id) <= Purgeable(s, id)
  {
    var s' := Do(s, Purge(m, id));
    forall n | n in Purgeable(s', id) ensures n in Purgeable(s, id) {
      forall k | k in s.link && k.0 == n ensures !Mentions(s.link[k], id) {
        assert !Mentions(s'.link[k], id);
        assert s'.link[k].hist == s.link[k].hist && s'.link[k].dropped == s.link[k].dropped;
      }
    }
  }

  /** A run of allowed steps that keeps the supply and makes the route one of lower nodes. */
  ghost predicate Clears(s: State, steps: seq<Step>, k: Wire, id: CheckId, c: int, path: seq<NodeId>, free: set<NodeId>)
  {
    && IsRun(s, steps) && Careful(s, steps) && AllAllowed(steps, id, free)
    && Inv(After(s, steps)) && Supplies(After(s, steps), k, id, c) && Route(After(s, steps), id, c, path)
  }

  lemma ClearsCons(s: State, st: Step, rest: seq<Step>, k: Wire, id: CheckId, c: int, path: seq<NodeId>,
                   free: set<NodeId>, free': set<NodeId>)
    requires WellFormed(s) && Enabled(s, st) && !Loses(s, st) && Allowed(st, id, free) && free' <= free
    requires Clears(Do(s, st), rest, k, id, c, path, free')
    ensures Clears(s, [st] + rest, k, id, c, path, free)
  {
    RunCons(s, st, rest);
  }

  lemma ClearedAlready(s: State, k: Wire, id: CheckId, c: int, path: seq<NodeId>)
    requires Inv(s) && Supplies(s, k, id, c) && OpenRoute(s, id, c, path, Purgeable(s, id)) && Closed(s, id, c, path) == {}
    ensures Clears(s, [], k, id, c, path, Purgeable(s, id))
  {
    forall i | 0 <= i < |path| ensures VersionAt(s, path[i], id) < c { assert path[i] !in Closed(s, id, c, path); }
  }

  /** Purging what is purgeable clears an open route. */
  lemma {:induction false} ClearRoute(s: State, k: Wire, id: CheckId, c: int, path: seq<NodeId>) returns (steps: seq<Step>)
    requires Inv(s) && Supplies(s, k, id, c) && OpenRoute(s, id, c, path, Purgeable(s, id))
    ensures Clears(s, steps, k, id, c, path, Purgeable(s, id))
    decreases |Closed(s, id, c, path)|
  {
    if m :| m in Closed(s, id, c, path) {
      var st := Purge(m, id);
      SupplyPositive(s, k, id, c);
      OpenAfterPurge(s, m, id, c, path);
      PurgeKeepsSupply(s, m, id, k, c);
      StepKeeps(s, st);
      FewerPurgeable(s, m, id);
      var s' := Do(s, st);
      var rest := ClearRoute(s', k, id, c, path);
      ClearsCons(s, st, rest, k, id, c, path, Purgeable(s, id), Purgeable(s', id));
      steps := [st] + rest;
    } else {
      ClearedAlready(s, k, id, c, path);
      steps := [];
    }
  }

  // ---------- and what can come is accepted in some run ----------

  lemma {:induction false} RoseThenAccepted(s: State, steps: seq<Step>, n: NodeId, id: CheckId)
    requires Inv(s) && IsRun(s, steps) && Careful(s, steps) && n in s.reg && AllOnWire(steps)
    requires VersionAt(After(s, steps), n, id) > VersionAt(s, n, id)
    ensures AcceptsIn(s, steps, n, id)
    decreases steps
  {
    var st := steps[0];
    assert OnWire(st);
    InvPositive(s);
    SameNodes(s, st);
    StepKeeps(s, st);
    if !Accepts(s, st, n, id) {
      if st.Process? { ProcessShape(s, st.k, n, id); } else { WireShape(s, st); }
      RoseThenAccepted(Do(s, st), steps[1..], n, id);
    }
  }

  lemma {:induction false} AcceptsLater(s: State, a: seq<Step>, b: seq<Step>, n: NodeId, id: CheckId)
    requires IsRun(s, a) && IsRun(s, a + b) && IsRun(After(s, a), b) && AcceptsIn(After(s, a), b, n, id)
    ensures AcceptsIn(s, a + b, n, id)
    decreases a
  {
    if a == [] {
      assert a + b == b;
    } else {
      assert (a + b)[1..] == a[1..] + b;
      AcceptsLater(Do(s, a[0]), a[1..], b, n, id);
    }
  }

  lemma ReturnsAfter(s: State, a: seq<Step>, m: State, b: seq<Step>, n: NodeId, id: CheckId, free: set<NodeId>)
    requires IsRun(s, a) && Careful(s, a) && AllAllowed(a, id, free) && m == After(s, a)
    requires IsRun(m, b) && Careful(m, b) && AllOnWire(b) && AcceptsIn(m, b, n, id)
    ensures ReturnsBy(s, a + b, n, id, free)
  {
    RunAppend(s, a, m, b);
    AcceptsLater(s, a, b, n, id);
    forall st | st in a + b ensures Allowed(st, id, free) {
      if st in b { assert OnWire(st); }
    }
  }

  /** Some run without an edit or delete of the check, in which it is purged at nodes that could
      purge it at the outset, brings it to a node. */
  ghost predicate Returns(s: State, n: NodeId, id: CheckId)
    requires WellFormed(s)
  {
    exists steps :: ReturnsBy(s, steps, n, id, Purgeable(s, id))
  }

  lemma PushAccepted(s: State, k: Wire, id: CheckId, c: int, path: seq<NodeId>) returns (steps: seq<Step>)
    requires Inv(s) && Supplies(s, k, id, c) && Route(s, id, c, path) && k.1 == path[0]
    ensures IsRun(s, steps) && Careful(s, steps) && AllOnWire(steps) && AcceptsIn(s, steps, path[|path| - 1], id)
  {
    steps := Push(s, k, id, c, path);
    var n := path[|path| - 1];
    assert n in s.reg && VersionAt(s, n, id) < c;
    RoseThenAccepted(s, steps, n, id);
  }

  lemma ReturnIsRun(s: State, n: NodeId, id: CheckId)
    requires Inv(s) && CanReturn(s, n, id, Purgeable(s, id))
    ensures Returns(s, n, id)
  {
    var k, c, path :| ReturnsVia(s, n, id, Purgeable(s, id), k, c, path);
    var a := ClearRoute(s, k, id, c, path);
    var m := After(s, a);
    var b := PushAccepted(m, k, id, c, path);
    ReturnsAfter(s, a, m, b, n, id, Purgeable(s, id));
  }

  /** ... exactly when some link can deliver it and a route leads on to the node, each of whose nodes
      is below the sequence or free to purge. */
  lemma ReturnsIff(s: State, n: NodeId, id: CheckId)
    requires Inv(s)
    ensures Returns(s, n, id) <==> CanReturn(s, n, id, Purgeable(s, id))
  {
    if steps :| ReturnsBy(s, steps, n, id, Purgeable(s, id)) {
      AcceptedThenCould(s, steps, n, id, Purgeable(s, id));
    }
    if CanReturn(s, n, id, Purgeable(s, id)) { ReturnIsRun(s, n, id); }
  }
}
