/** What an operator's edit and delete leave behind, and that a deletion reaches the whole cluster. */
module ClusterDelete {
  import opened ClusterLog
  import opened ClusterLink
  import opened Cluster
  import opened ClusterLaws
  import opened ClusterReturn
  import opened ClusterQuiet

  ghost predicate OthersKept(s: State, s': State, n: NodeId, id: CheckId)
  {
    && s'.reg.Keys == s.reg.Keys
    && forall m, j :: m in s.reg && (m != n || j != id) ==>
         (j in s'.reg[m] <==> j in s.reg[m]) && (j in s.reg[m] ==> s'.reg[m][j] == s.reg[m][j])
  }

  /** An edit stores the check at the sequence it is given, unless that is below what is held: then the
      check goes. A negative sequence is stored as zero, and only where nothing is held. */
  lemma EditLeaves(s: State, n: NodeId, id: CheckId, v: int)
    requires WellFormed(s) && n in s.reg
    ensures OthersKept(s, Do(s, Edit(n, id, v)), n, id)
    ensures var reg := Do(s, Edit(n, id, v)).reg[n];
            if id in s.reg[n] && v < 0 then id !in reg
            else if id in s.reg[n] && s.reg[n][id].version > v then id !in reg
            else id in reg && !reg[id].deleted && reg[id].version == if v >= 0 then v else 0
  {
    if Backdated(s, n, id, v) {
      ForgetShape(s, n, id);
    } else {
      StoreShape(s, n, id, Check(if v < 0 then 0 else v, false));
    }
  }

  /** A delete of a check with a sequence leaves it marked as deleted at a higher sequence than before;
      a check without one goes at once, and one that is not held stays so. */
  lemma DeleteLeaves(s: State, n: NodeId, id: CheckId)
    requires WellFormed(s) && n in s.reg
    ensures OthersKept(s, Do(s, Delete(n, id)), n, id)
    ensures var reg := Do(s, Delete(n, id)).reg[n];
            if id !in s.reg[n] then id !in reg
            else if s.reg[n][id].version == 0 then id !in reg
            else id in reg && reg[id].deleted && reg[id].version > s.reg[n][id].version
  {
    if id in s.reg[n] && s.reg[n][id].version != 0 { StoreShape(s, n, id, Check(s.reg[n][id].version + 1, true)); }
  }

  lemma PurgeLeaves(s: State, n: NodeId, id: CheckId)
    requires WellFormed(s) && Enabled(s, Purge(n, id))
    ensures s.reg[n][id].deleted && id !in Do(s, Purge(n, id)).reg[n] && OthersKept(s, Do(s, Purge(n, id)), n, id)
  {
    ForgetShape(s, n, id);
  }

  /** A peer that is not above the sequence from before the deletion, and processes the document that
      the deletion made, holds the check deleted. */
  lemma DeletionTaken(s: State, n: NodeId, id: CheckId, t: State, k: Wire)
    requires WellFormed(s) && n in s.reg && id in s.reg[n] && s.reg[n][id].version > 0
    requires WellFormed(t) && Enabled(t, Process(k)) && t.link[k].phase.docs[0] == Doc(id, Do(s, Delete(n, id)).reg[n][id])
    requires VersionAt(t, k.1, id) <= s.reg[n][id].version
    ensures k.1 in Do(t, Process(k)).reg && id in Do(t, Process(k)).reg[k.1] && Do(t, Process(k)).reg[k.1][id].deleted
  {
    DeleteLeaves(s, n, id);
    ProcessIsApply(t, k);
    ApplyShape(t, k.1, t.link[k].phase.docs[0]);
  }

  // ---------- a deletion reaches every node ----------

  /** Wherever the check is at the sequence, it is deleted, and it is nowhere above. */
  ghost predicate DeadAt(s: State, id: CheckId, w: int)
  {
    && (forall n :: n in s.reg && id in s.reg[n] ==> DeadCheck(s.reg[n][id], w))
    && forall k :: k in s.link ==> DeadDocs(s.link[k], id, w)
  }

  predicate DeadCheck(c: Check, w: int) { c.version < w || c == Check(w, true) }

  ghost predicate DeadDocs(l: Link, id: CheckId, w: int)
  {
    l.phase.Replied? ==> forall d :: d in l.phase.docs && d.id == id ==> DeadCheck(d.check, w)
  }

  lemma ServeDead(l: Link, reg: Registry, self: set<CheckId>, id: CheckId, w: int)
    requires l.phase.Asked? && l.dropped <= |l.hist| && (id in reg ==> DeadCheck(reg[id], w))
    ensures DeadDocs(Serve(l, reg, self), id, w)
  {
    var docs := Serve(l, reg, self).phase.docs;
    var ids := Reply(Eaten(Live(l), l.phase.r.prev), l.phase.r.end, reg.Keys - self);
    forall j | 0 <= j < |docs| && docs[j].id == id ensures DeadCheck(docs[j].check, w) {
      assert ids[j] in ids;
      assert docs[j] == Doc(ids[j], reg[ids[j]]);
    }
  }

  lemma RepliesDead(s: State, st: Step, id: CheckId, w: int, k: Wire)
    requires WellFormed(s) && PositiveDocs(s) && Enabled(s, st) && OnWire(st) && DeadAt(s, id, w) && k in s.link
    ensures k in Do(s, st).link && DeadDocs(Do(s, st).link[k], id, w)
  {
    assert DeadDocs(s.link[k], id, w);
    if st.Process? {
      ProcessLink(s, st.k, k);
    } else {
      WireShape(s, st);
      if st == Answer(k) { ServeDead(s.link[k], s.reg[k.0], s.self, id, w); }
    }
  }

  lemma DeadKept(s: State, st: Step, id: CheckId, w: int)
    requires WellFormed(s) && PositiveDocs(s) && Enabled(s, st) && OnWire(st) && DeadAt(s, id, w)
    ensures DeadAt(Do(s, st), id, w)
  {
    SameNodes(s, st);
    if st.Process? {
      assert DeadDocs(s.link[st.k], id, w);
      ProcessIsApply(s, st.k);
      ApplyShape(s, st.k.1, s.link[st.k].phase.docs[0]);
    } else {
      WireShape(s, st);
    }
    forall k | k in Do(s, st).link ensures DeadDocs(Do(s, st).link[k], id, w) {
      RepliesDead(s, st, id, w, k);
    }
  }

  lemma {:induction false} RunDead(s: State, steps: seq<Step>, id: CheckId, w: int)
    requires Inv(s) && IsRun(s, steps) && AllOnWire(steps) && DeadAt(s, id, w)
    ensures DeadAt(After(s, steps), id, w)
    decreases steps
  {
    if steps != [] {
      assert OnWire(steps[0]);
      InvPositive(s);
      StepKeeps(s, steps[0]);
      DeadKept(s, steps[0], id, w);
      RunDead(Do(s, steps[0]), steps[1..], id, w);
    }
  }

  lemma DeleteIsStore(s: State, n: NodeId, id: CheckId) returns (c: Check)
    requires WellFormed(s) && n in s.reg && id in s.reg[n] && s.reg[n][id].version > 0
    ensures c == Do(s, Delete(n, id)).reg[n][id] && Do(s, Delete(n, id)) == Store(s, n, id, c)
    ensures c.deleted && c.version > s.reg[n][id].version
  {
    DeleteLeaves(s, n, id);
    c := Do(s, Delete(n, id)).reg[n][id];
    StoreShape(s, n, id, Check(s.reg[n][id].version + 1, true));
  }

  lemma StoreDead(s: State, n: NodeId, id: CheckId, c: Check)
    requires WellFormed(s) && n in s.reg && c.deleted && Bounded(s, id, c.version - 1)
    ensures DeadAt(Store(s, n, id, c), id, c.version)
  {
    var s' := Store(s, n, id, c);
    StoreShape(s, n, id, c);
    forall m | m in s'.reg && id in s'.reg[m] ensures DeadCheck(s'.reg[m][id], c.version) {
      assert VersionAt(s, m, id) <= c.version - 1;
    }
    forall k | k in s'.link ensures DeadDocs(s'.link[k], id, c.version) {
      StoreLink(s, n, id, c, k);
      assert DocsBounded(s.link[k], id, c.version - 1);
    }
  }

  lemma StoreAllTold(s: State, n: NodeId, id: CheckId, c: Check)
    requires Inv(s) && n in s.reg && id !in s.self && c.version > 0 && AllTold(s, id)
    ensures AllTold(Store(s, n, id, c), id)
  {
    StoreShape(s, n, id, c);
    forall k | k in Store(s, n, id, c).link && VersionAt(Store(s, n, id, c), k.0, id) > 0
      ensures ToldSince(Store(s, n, id, c), k, id)
    {
      StoreTold(s, n, id, c, k, id);
    }
  }

  lemma StoreDeadAbove(s: State, n: NodeId, id: CheckId, c: Check)
    requires WellFormed(s) && n in s.reg && id in s.reg[n] && c.deleted && c.version > s.reg[n][id].version
    requires Bounded(s, id, s.reg[n][id].version)
    ensures DeadAt(Store(s, n, id, c), id, c.version)
  {
    var v := s.reg[n][id].version;
    forall k | k in s.link ensures DocsBounded(s.link[k], id, c.version - 1) { assert DocsBounded(s.link[k], id, v); }
    StoreDead(s, n, id, c);
  }

  /** What the delete leaves to replication. */
  ghost predicate Doomed(s: State, n: NodeId, id: CheckId, w: int)
  {
    && Inv(s) && FullMesh(s) && id !in s.self && n in s.reg && AllTold(s, id) && DeadAt(s, id, w)
    && w > 0 && VersionAt(s, n, id) == w
  }

  lemma DeleteDooms(s: State, n: NodeId, id: CheckId) returns (w: int)
    requires Inv(s) && FullMesh(s) && n in s.reg && id in s.reg[n] && id !in s.self
    requires s.reg[n][id].version > 0 && Bounded(s, id, s.reg[n][id].version) && AllTold(s, id)
    ensures Doomed(Do(s, Delete(n, id)), n, id, w) && Do(s, Delete(n, id)).reg.Keys == s.reg.Keys
  {
    var c := DeleteIsStore(s, n, id);
    w := c.version;
    StepKeeps(s, Delete(n, id));
    StoreShape(s, n, id, c);
    StoreDeadAbove(s, n, id, c);
    StoreAllTold(s, n, id, c);
    SameSelf(s, Delete(n, id));
  }

  lemma DoomedSpreads(pick: Schedule, s: State, n: NodeId, id: CheckId, w: int) returns (steps: seq<Step>)
    requires Doomed(s, n, id, w) && GetsOn(pick)
    ensures IsRun(s, steps) && AllOnWire(steps) && Follows(pick, 0, s, steps)
    ensures WellFormed(After(s, steps)) && AllQuiet(After(s, steps)) && DeletedAt(After(s, steps), s.reg.Keys, id)
  {
    steps := ComesToAgree(pick, s);
    RunDead(s, steps, id, w);
    RunCarries(s, steps, Pairs(s));
    var e := After(s, steps);
    forall m | m in s.reg ensures m in e.reg && id in e.reg[m] && e.reg[m][id].deleted {
      assert VersionAt(e, m, id) == VersionAt(e, n, id) >= VersionAt(s, n, id);
    }
  }

  ghost predicate DeletedAt(s: State, nodes: set<NodeId>, id: CheckId)
  {
    forall m :: m in nodes ==> m in s.reg && id in s.reg[m] && s.reg[m][id].deleted
  }

  /** A node of a full mesh that holds a replicated check at the highest sequence around deletes it.
      Whatever the schedule, replication alone then comes to rest with the check deleted at every node. */
  lemma DeletionSpreads(pick: Schedule, s: State, n: NodeId, id: CheckId) returns (steps: seq<Step>)
    requires Inv(s) && FullMesh(s) && GetsOn(pick) && n in s.reg && id in s.reg[n] && id !in s.self
    requires s.reg[n][id].version > 0 && Bounded(s, id, s.reg[n][id].version) && AllTold(s, id)
    ensures var s' := Do(s, Delete(n, id));
            && IsRun(s', steps) && AllOnWire(steps) && Follows(pick, 0, s', steps)
            && WellFormed(After(s', steps)) && AllQuiet(After(s', steps)) && DeletedAt(After(s', steps), s.reg.Keys, id)
  {
    var w := DeleteDooms(s, n, id);
    steps := DoomedSpreads(pick, Do(s, Delete(n, id)), n, id, w);
  }
}
