/** What replication guarantees over every run: delivery before forgetting, when a peer is
    done, when a tombstone may go, convergence, and that re-announcement dies out. */
module ClusterLaws {
  import opened ClusterLog
  import opened ClusterLink
  import opened Cluster

  // What one step does, read off its definition: to the sets of nodes and links, to one
  // node's sequence of one check, and to one link's job and log front.

  predicate OnWire(st: Step) { !st.Edit? && !st.Delete? && !st.Purge? }

  lemma StoreShape(s: State, n: NodeId, id: CheckId, c: Check)
    requires WellFormed(s) && n in s.reg
    ensures var s' := Store(s, n, id, c);
            WellFormed(s') && s'.reg == s.reg[n := s.reg[n][id := c]] && s'.link.Keys == s.link.Keys
  {}

  lemma StoreLink(s: State, n: NodeId, id: CheckId, c: Check, k: Wire)
    requires WellFormed(s) && n in s.reg && k in s.link
    ensures var s' := Store(s, n, id, c);
            s'.link[k].phase == s.link[k].phase && s'.link[k].dropped == s.link[k].dropped
  {}

  lemma ForgetShape(s: State, n: NodeId, id: CheckId)
    requires WellFormed(s) && n in s.reg
    ensures SameShape(s, Forget(s, n, id)) && Forget(s, n, id).reg == s.reg[n := s.reg[n] - {id}]
  {}

  lemma EditShape(s: State, n: NodeId, id: CheckId, v: int)
    requires WellFormed(s) && n in s.reg
    ensures SameShape(s, Do(s, Edit(n, id, v)))
    ensures forall m, j :: j != id ==> VersionAt(Do(s, Edit(n, id, v)), m, j) == VersionAt(s, m, j)
  {
    if Backdated(s, n, id, v) {
      ForgetShape(s, n, id);
    } else {
      StoreShape(s, n, id, Check(if v < 0 then 0 else v, false));
    }
  }

  lemma DeleteShape(s: State, n: NodeId, id: CheckId)
    requires WellFormed(s) && n in s.reg
    ensures SameShape(s, Do(s, Delete(n, id)))
    ensures forall m, j :: j != id ==> VersionAt(Do(s, Delete(n, id)), m, j) == VersionAt(s, m, j)
  {
    if id in s.reg[n] && s.reg[n][id].version != 0 { StoreShape(s, n, id, Check(s.reg[n][id].version + 1, true)); }
  }

  ghost predicate SameShape(s: State, s': State)
  {
    WellFormed(s') && s'.reg.Keys == s.reg.Keys && s'.link.Keys == s.link.Keys
  }

  /** Steps off the wire change only the check they are about. */
  lemma OperatorShape(s: State, st: Step)
    requires WellFormed(s) && Enabled(s, st) && !OnWire(st)
    ensures SameShape(s, Do(s, st))
    ensures forall m, j :: j != st.id ==> VersionAt(Do(s, st), m, j) == VersionAt(s, m, j)
  {
    match st {
      case Edit(n, id, v) => EditShape(s, n, id, v);
      case Delete(n, id) => DeleteShape(s, n, id);
      case Purge(n, id) => ForgetShape(s, n, id);
    }
  }

  /** Steps off the wire leave every job and every log front alone. */
  lemma OperatorLink(s: State, st: Step, k: Wire)
    requires WellFormed(s) && Enabled(s, st) && !OnWire(st) && k in s.link
    ensures k in Do(s, st).link
    ensures Do(s, st).link[k].phase == s.link[k].phase && Do(s, st).link[k].dropped == s.link[k].dropped
  {
    match st {
      case Edit(n, id, v) =>
        if !Backdated(s, n, id, v) { StoreLink(s, n, id, Check(if v < 0 then 0 else v, false), k); }
      case Delete(n, id) =>
        if id in s.reg[n] && s.reg[n][id].version != 0 {
          StoreLink(s, n, id, Check(s.reg[n][id].version + 1, true), k);
        }
      case Purge(n, id) =>
    }
  }

  /** Steps on the wire other than processing change one link and no registry. */
  lemma WireShape(s: State, st: Step)
    requires WellFormed(s) && Enabled(s, st) && OnWire(st) && !st.Process?
    ensures SameShape(s, Do(s, st)) && Do(s, st).reg == s.reg
    ensures Do(s, st) == SetLink(s, st.k, Do(s, st).link[st.k])
  {}

  lemma ApplyShape(s: State, p: NodeId, d: Doc)
    requires WellFormed(s) && p in s.reg && d.check.version > 0
    ensures SameShape(s, ApplyDoc(s, p, d))
    ensures ApplyDoc(s, p, d).reg == if VersionAt(s, p, d.id) >= d.check.version then s.reg
                                     else s.reg[p := s.reg[p][d.id := d.check]]
  {
    StoreShape(s, p, d.id, d.check);
  }

  lemma ProcessIsApply(s: State, k: Wire)
    requires WellFormed(s) && Enabled(s, Process(k))
    ensures Do(s, Process(k)).reg == ApplyDoc(s, k.1, s.link[k].phase.docs[0]).reg
    ensures SameShape(s, ApplyDoc(s, k.1, s.link[k].phase.docs[0])) ==> SameShape(s, Do(s, Process(k)))
  {}

  lemma ProcessShape(s: State, k: Wire, n: NodeId, id: CheckId)
    requires WellFormed(s) && Enabled(s, Process(k)) && s.link[k].phase.docs[0].check.version > 0
    ensures SameShape(s, Do(s, Process(k)))
    ensures var d := s.link[k].phase.docs[0];
            VersionAt(Do(s, Process(k)), n, id)
              == if n == k.1 && id == d.id && VersionAt(s, n, id) < d.check.version then d.check.version
                 else VersionAt(s, n, id)
  {
    ProcessIsApply(s, k);
    ApplyShape(s, k.1, s.link[k].phase.docs[0]);
  }

  lemma ProcessLink(s: State, k: Wire, j: Wire)
    requires WellFormed(s) && Enabled(s, Process(k)) && s.link[k].phase.docs[0].check.version > 0 && j in s.link
    ensures j in Do(s, Process(k)).link
    ensures j == k ==> Do(s, Process(k)).link[j].phase == Take(s.link[k]).phase
    ensures j != k ==> Do(s, Process(k)).link[j].phase == s.link[j].phase
    ensures Do(s, Process(k)).link[j].dropped == s.link[j].dropped
  {
    var d := s.link[k].phase.docs[0];
    StoreLink(s, k.1, d.id, d.check, j);
    ApplyDocLink(s, k, d);
  }

  /** Every document in flight carries a sequence. */
  predicate PositiveDocs(s: State)
  {
    forall k :: k in s.link && s.link[k].phase.Replied? ==>
      forall j :: 0 <= j < |s.link[k].phase.docs| ==> s.link[k].phase.docs[j].check.version > 0
  }

  lemma InvPositive(s: State)
    requires Inv(s)
    ensures PositiveDocs(s)
  {
    forall k | k in s.link && s.link[k].phase.Replied?
      ensures forall j :: 0 <= j < |s.link[k].phase.docs| ==> s.link[k].phase.docs[j].check.version > 0
    {
      assert LinkInv(ViewOf(s, k));
    }
  }

  ghost predicate Reachable(s: State)
  {
    exists s0, steps :: Init(s0) && IsRun(s0, steps) && Careful(s0, steps) && After(s0, steps) == s
  }

  lemma ReachableInv(s: State)
    requires Reachable(s)
    ensures Inv(s)
  {
    var s0, steps :| Init(s0) && IsRun(s0, steps) && Careful(s0, steps) && After(s0, steps) == s;
    InitInv(s0);
    RunKeeps(s0, steps);
  }

  /** In every reachable state, the peer has processed, for every entry that has been dropped,
      a document of that check as new as the entry's edit. */
  lemma DroppedWasDelivered(s: State, k: Wire, i: nat)
    requires Reachable(s) && k in s.link && i < s.link[k].dropped
    ensures i < |s.link[k].hist| == |s.link[k].said|
    ensures Knows(s.link[k], i)
  {
    ReachableInv(s);
    assert LinkInv(ViewOf(s, k));
  }

  /** ... and had done so before the step that drops it. */
  lemma DeliveredBeforeDrop(s: State, st: Step, k: Wire, i: nat)
    requires Reachable(s) && WellFormed(s) && Enabled(s, st) && k in s.link && k in Do(s, st).link
    requires s.link[k].dropped <= i < Do(s, st).link[k].dropped
    ensures i < |s.link[k].hist| == |s.link[k].said|
    ensures st == Answer(k) && Knows(s.link[k], i)
  {
    ReachableInv(s);
    InvPositive(s);
    if st != Answer(k) { OnlyAnswerDrops(s, st, k); } else { AnswerDropsKnown(s, k, i); }
  }

  lemma OnlyAnswerDrops(s: State, st: Step, k: Wire)
    requires WellFormed(s) && PositiveDocs(s) && Enabled(s, st) && k in s.link && st != Answer(k)
    ensures k in Do(s, st).link && Do(s, st).link[k].dropped == s.link[k].dropped
  {
    if !OnWire(st) {
      OperatorLink(s, st, k);
    } else if st.Process? {
      ProcessLink(s, st.k, k);
    } else {
      WireShape(s, st);
    }
  }

  lemma AnswerDropsKnown(s: State, k: Wire, i: nat)
    requires Inv(s) && Enabled(s, Answer(k))
    requires s.link[k].dropped <= i < Do(s, Answer(k)).link[k].dropped
    ensures i < |s.link[k].hist| == |s.link[k].said|
    ensures Knows(s.link[k], i)
  {
    assert LinkInv(ViewOf(s, k));
    ServeDrops(s.link[k], s.produced[k.0], s.reg[k.0], s.self);
  }

  /** When a peer finds no work, the producer's log for it has nothing up to the announced
      sequence. */
  lemma NoWorkNoBacklog(s: State, k: Wire)
    requires Reachable(s) && k in s.link
    requires s.link[k].channel.prevFetched == s.link[k].channel.available
    ensures forall i :: s.link[k].dropped <= i < |s.link[k].hist| ==> s.link[k].hist[i].at > s.link[k].channel.available
  {
    ReachableInv(s);
    assert LinkInv(ViewOf(s, k));
  }

  /** What the peer knows of an entry it has not cut off, it holds. */
  lemma KnownIsHeld(v: View, i: nat)
    requires LinkInv(v) && i < |v.l.hist| && Knows(v.l, i) && CutOf(v.l, v.l.hist[i].key) <= i
    ensures VersionIn(v.peer, v.l.hist[i].key) >= v.l.said[i].version
  {
    var j :| AsNew(v.l, i, j) && Doc(v.l.hist[i].key, v.l.said[j]) in v.l.heard
             && (i < CutOf(v.l, v.l.hist[i].key) || Doc(v.l.hist[i].key, v.l.said[j]) in v.l.recent);
    assert Doc(v.l.hist[i].key, v.l.said[j]) in v.l.recent;
  }

  lemma LastKnown(l: Link, id: CheckId, c: Check, i: nat)
    requires |l.said| == |l.hist| && LastAt(l, id, c, i) && Knows(l, i)
    ensures Doc(id, c) in l.heard
  {
    var j :| AsNew(l, i, j) && Doc(l.hist[i].key, l.said[j]) in l.heard;
    assert j == i;
  }

  /** A check that no live entry mentions has been delivered as it is. */
  lemma NotMentionedDelivered(v: View, id: CheckId)
    requires LinkInv(v) && id in v.reg && id !in v.self && v.reg[id].version > 0 && !Mentions(v.l, id)
    ensures Doc(id, v.reg[id]) in v.l.heard
  {
    assert SaidOf(v.l, id, v.reg[id]);
    var i :| LastAt(v.l, id, v.reg[id], i);
    assert Knows(v.l, i);
    LastKnown(v.l, id, v.reg[id], i);
  }

  lemma NotMentionedHeld(v: View, id: CheckId, w: int)
    requires LinkInv(v) && !Mentions(v.l, id) && AnnouncedSince(v.l, id, w)
    ensures VersionIn(v.peer, id) >= w
  {
    var m :| CutOf(v.l, id) <= m < |v.l.hist| && m < |v.l.said| && v.l.hist[m].key == id && v.l.said[m].version >= w;
    assert Knows(v.l, m);
    KnownIsHeld(v, m);
  }

  /** A tombstone leaves the registry only once every peer has processed the very deletion, and then
      the peer, unless it has removed the check since it was announced, is as new. */
  lemma PurgeAfterDelivery(s: State, n: NodeId, id: CheckId, k: Wire)
    requires Reachable(s) && WellFormed(s) && Enabled(s, Purge(n, id))
    requires id !in s.self && s.reg[n][id].version > 0
    requires k in s.link && k.0 == n
    ensures s.reg[n][id].deleted && Doc(id, s.reg[n][id]) in s.link[k].heard
    ensures ToldSince(s, k, id) ==> VersionAt(s, k.1, id) >= s.reg[n][id].version
  {
    ReachableInv(s);
    assert LinkInv(ViewOf(s, k)) && !Mentions(s.link[k], id);
    NotMentionedDelivered(ViewOf(s, k), id);
    if ToldSince(s, k, id) { NotMentionedHeld(ViewOf(s, k), id, VersionAt(s, n, id)); }
  }

  /** The check has been announced, at a sequence or higher, since the peer last removed it. */
  ghost predicate AnnouncedSince(l: Link, id: CheckId, v: int)
  {
    exists i :: CutOf(l, id) <= i < |l.hist| && i < |l.said| && l.hist[i].key == id && l.said[i].version >= v
  }

  ghost predicate ToldSince(s: State, k: Wire, id: CheckId)
    requires k in s.link
  {
    AnnouncedSince(s.link[k], id, VersionAt(s, k.0, id))
  }

  /** A link with nothing left to do: everything produced is announced and acknowledged. */
  predicate Settled(s: State, k: Wire)
    requires WellFormed(s) && k in s.link
  {
    s.link[k].channel.prevFetched == s.link[k].channel.available == s.produced[k.0]
  }

  /** Over a settled link the peer holds every replicated check as new as the producer, if it has
      been told of it since it last removed it. */
  lemma SettledCatchesUp(s: State, k: Wire, id: CheckId)
    requires Inv(s) && k in s.link && Settled(s, k) && id !in s.self && ToldSince(s, k, id)
    requires VersionAt(s, k.0, id) > 0
    ensures VersionAt(s, k.1, id) >= VersionAt(s, k.0, id)
  {
    var l := s.link[k];
    assert LinkInv(ViewOf(s, k));
    var i :| CutOf(l, id) <= i < |l.hist| && l.hist[i].key == id && l.said[i].version >= VersionAt(s, k.0, id);
    assert l.hist[i].at <= l.channel.fetched;
    KnownIsHeld(ViewOf(s, k), i);
  }

  /** A peer that never removed the check has been told of it. */
  lemma NeverRemovedTold(s: State, k: Wire, id: CheckId)
    requires Inv(s) && k in s.link && id !in s.self && VersionAt(s, k.0, id) > 0 && id !in s.link[k].cut
    ensures ToldSince(s, k, id)
  {
    var l := s.link[k];
    assert LinkInv(ViewOf(s, k));
    assert SaidOf(l, id, s.reg[k.0][id]);
    var i :| LastAt(l, id, s.reg[k.0][id], i);
    assert CutOf(l, id) <= i;
  }

  ghost predicate FullMesh(s: State)
  {
    forall n, p :: n in s.reg && p in s.reg && n != p ==> (n, p) in s.link
  }

  lemma SettledIsEmpty(s: State, k: Wire)
    requires Inv(s) && k in s.link && Settled(s, k)
    ensures s.link[k].dropped == |s.link[k].hist|
  {
    assert LinkInv(ViewOf(s, k));
    EmptyLog(s.link[k], s.produced[k.0]);
  }

  lemma EmptyLog(l: Link, produced: nat)
    requires LogOk(l, produced) && l.channel.prevFetched == produced
    ensures l.dropped == |l.hist|
  {
    var last := |l.hist| - 1;
    assert last >= 0 ==> l.hist[last].at <= produced;
  }

  /** Nobody has removed the check since another node announced what it holds of it. */
  ghost predicate AllTold(s: State, id: CheckId)
  {
    forall k :: k in s.link && VersionAt(s, k.0, id) > 0 ==> ToldSince(s, k, id)
  }

  lemma SameEverywhere(s: State, id: CheckId, n: NodeId, p: NodeId)
    requires Inv(s) && FullMesh(s) && n in s.reg && p in s.reg && id !in s.self
    requires (forall k :: k in s.link ==> Settled(s, k)) && AllTold(s, id)
    ensures VersionAt(s, p, id) == VersionAt(s, n, id)
  {
    if n != p {
      assert (n, p) in s.link && (p, n) in s.link;
      if VersionAt(s, n, id) > 0 { SettledCatchesUp(s, (n, p), id); }
      if VersionAt(s, p, id) > 0 { SettledCatchesUp(s, (p, n), id); }
    }
  }

  /** Once every pair of a full mesh is settled, all nodes hold the same sequence of every replicated
      check that none of them has removed since another announced what it holds, and all changelogs
      are empty. */
  lemma Converged(s: State, id: CheckId, n: NodeId, p: NodeId)
    requires Reachable(s) && WellFormed(s) && FullMesh(s) && forall k :: k in s.link ==> Settled(s, k)
    requires n in s.reg && p in s.reg && id !in s.self && AllTold(s, id)
    ensures VersionAt(s, p, id) == VersionAt(s, n, id)
    ensures forall k :: k in s.link ==> s.link[k].dropped == |s.link[k].hist|
  {
    ReachableInv(s);
    SameEverywhere(s, id, n, p);
    forall k | k in s.link ensures s.link[k].dropped == |s.link[k].hist| {
      SettledIsEmpty(s, k);
    }
  }

  /** The steps that change a check other than by replication. */
  predicate Touches(st: Step, id: CheckId)
  {
    (st.Edit? || st.Delete? || st.Purge?) && st.id == id
  }

  /** The peer takes the document in: it is newer than what it holds. */
  predicate Accepts(s: State, st: Step, p: NodeId, id: CheckId)
    requires WellFormed(s) && Enabled(s, st)
  {
    st.Process? && st.k.1 == p && s.link[st.k].phase.docs[0].id == id
    && VersionAt(s, p, id) < s.link[st.k].phase.docs[0].check.version
  }

  ghost predicate DocsBounded(l: Link, id: CheckId, bound: int)
  {
    l.phase.Replied? ==>
      forall j :: 0 <= j < |l.phase.docs| && l.phase.docs[j].id == id ==> l.phase.docs[j].check.version <= bound
  }

  /** No registry and no reply in flight has the check at more than the bound. */
  ghost predicate Bounded(s: State, id: CheckId, bound: int)
  {
    && (forall n :: n in s.reg ==> VersionAt(s, n, id) <= bound)
    && (forall k :: k in s.link ==> DocsBounded(s.link[k], id, bound))
  }

  /** Every accepted replica strictly raises the node's sequence, and nothing but an operator
      or a purge lowers it. */
  lemma AcceptRaises(s: State, st: Step, p: NodeId, id: CheckId)
    requires WellFormed(s) && PositiveDocs(s) && Enabled(s, st) && !Touches(st, id) && p in s.reg
    ensures VersionAt(Do(s, st), p, id) >= VersionAt(s, p, id)
    ensures Accepts(s, st, p, id) ==> VersionAt(Do(s, st), p, id) > VersionAt(s, p, id)
  {
    if !OnWire(st) {
      OperatorShape(s, st);
    } else if st.Process? {
      ProcessShape(s, st.k, p, id);
    } else {
      WireShape(s, st);
    }
  }

  lemma VersionsBounded(s: State, st: Step, id: CheckId, bound: int, n: NodeId)
    requires WellFormed(s) && PositiveDocs(s) && Enabled(s, st) && !Touches(st, id) && Bounded(s, id, bound) && n in s.reg
    ensures VersionAt(Do(s, st), n, id) <= bound
  {
    assert VersionAt(s, n, id) <= bound;
    if !OnWire(st) {
      OperatorShape(s, st);
    } else if st.Process? {
      ProcessShape(s, st.k, n, id);
      assert DocsBounded(s.link[st.k], id, bound);
    } else {
      WireShape(s, st);
    }
  }

  lemma RepliesBounded(s: State, st: Step, id: CheckId, bound: int, k: Wire)
    requires WellFormed(s) && PositiveDocs(s) && Enabled(s, st) && !Touches(st, id) && Bounded(s, id, bound) && k in s.link
    ensures k in Do(s, st).link && DocsBounded(Do(s, st).link[k], id, bound)
  {
    assert DocsBounded(s.link[k], id, bound);
    if !OnWire(st) {
      OperatorLink(s, st, k);
    } else if st.Process? {
      ProcessLink(s, st.k, k);
      if k == st.k { TakeBounded(s.link[k], id, bound); }
    } else {
      WireShape(s, st);
      if st == Answer(k) {
        assert VersionAt(s, k.0, id) <= bound;
        ServeBounded(s.link[k], s.reg[k.0], s.self, id, bound);
      }
    }
  }

  lemma BoundKept(s: State, st: Step, id: CheckId, bound: int)
    requires WellFormed(s) && PositiveDocs(s) && Enabled(s, st) && !Touches(st, id) && Bounded(s, id, bound)
    ensures Bounded(Do(s, st), id, bound)
  {
    SameNodes(s, st);
    forall n | n in Do(s, st).reg ensures VersionAt(Do(s, st), n, id) <= bound {
      VersionsBounded(s, st, id, bound, n);
    }
    forall k | k in Do(s, st).link ensures DocsBounded(Do(s, st).link[k], id, bound) {
      RepliesBounded(s, st, id, bound, k);
    }
  }

  lemma TakeBounded(l: Link, id: CheckId, bound: int)
    requires l.phase.Replied? && l.phase.docs != [] && DocsBounded(l, id, bound)
    ensures DocsBounded(Take(l), id, bound)
  {
    assert forall j :: 0 <= j < |l.phase.docs[1..]| ==> l.phase.docs[1..][j] == l.phase.docs[j + 1];
  }

  lemma ServeBounded(l: Link, reg: Registry, self: set<CheckId>, id: CheckId, bound: int)
    requires l.phase.Asked? && l.dropped <= |l.hist| && VersionIn(reg, id) <= bound
    ensures DocsBounded(Serve(l, reg, self), id, bound)
  {
    var docs := Serve(l, reg, self).phase.docs;
    var ids := Reply(Eaten(Live(l), l.phase.r.prev), l.phase.r.end, reg.Keys - self);
    forall j | 0 <= j < |docs| && docs[j].id == id ensures docs[j].check.version <= bound {
      assert ids[j] in ids;
      assert docs[j] == Doc(ids[j], reg[ids[j]]);
    }
  }

  lemma SameNodes(s: State, st: Step)
    requires WellFormed(s) && PositiveDocs(s) && Enabled(s, st)
    ensures SameShape(s, Do(s, st))
  {
    if !OnWire(st) {
      OperatorShape(s, st);
    } else if st.Process? {
      ProcessShape(s, st.k, st.k.1, 0);
    } else {
      WireShape(s, st);
    }
  }

  ghost function CountAccepts(s: State, steps: seq<Step>, p: NodeId, id: CheckId): nat
    requires IsRun(s, steps)
    decreases steps
  {
    if steps == [] then 0
    else (if Accepts(s, steps[0], p, id) then 1 else 0) + CountAccepts(Do(s, steps[0]), steps[1..], p, id)
  }

  /** Re-announcement dies out: with no operator touching a check, each node accepts it at most
      as many times as the highest sequence around exceeds its own. */
  lemma {:induction false} AcceptancesEnd(s: State, steps: seq<Step>, p: NodeId, id: CheckId, bound: int)
    requires Inv(s) && IsRun(s, steps) && p in s.reg && Bounded(s, id, bound)
    requires Careful(s, steps) && forall st :: st in steps ==> !Touches(st, id)
    ensures CountAccepts(s, steps, p, id) <= bound - VersionAt(s, p, id)
    decreases steps
  {
    if steps != [] {
      var st := steps[0];
      assert st in steps;
      InvPositive(s);
      StepKeeps(s, st);
      BoundKept(s, st, id, bound);
      AcceptRaises(s, st, p, id);
      SameNodes(s, st);
      AcceptancesEnd(Do(s, st), steps[1..], p, id, bound);
    }
  }

  // ---------- backdated edits ----------

  ghost predicate HeldAt(s: State, k: Wire)
    requires k in s.link && k.0 in s.reg
  {
    |s.link[k].said| == |s.link[k].hist| && Held(s.link[k], s.reg[k.0], s.self)
  }

  /** Every live entry in a node's changelogs names a check it holds as new as announced. */
  ghost predicate AllHeld(s: State, n: NodeId)
    requires n in s.reg
  {
    forall k :: k in s.link && k.0 == n ==> HeldAt(s, k)
  }

  lemma InvHeld(s: State, k: Wire)
    requires Inv(s) && k in s.link
    ensures HeldAt(s, k)
  {
    assert LinkInv(ViewOf(s, k));
  }

  lemma ForgotHeldIff(l: Link, reg: Registry, self: set<CheckId>, id: CheckId)
    requires |l.said| == |l.hist| && Held(l, reg, self)
    ensures Held(l, reg - {id}, self) <==> !Mentions(l, id)
  {}

  /** An edit leaves every live entry's check as new as announced exactly when it is not backdated
      for a check that some changelog still mentions. */
  lemma EditKeepsAnnouncedIff(s: State, n: NodeId, id: CheckId, v: int)
    requires Inv(s) && n in s.reg
    ensures AllHeld(Do(s, Edit(n, id, v)), n) <==> !(Backdated(s, n, id, v) && Pending(s, n, id))
  {
    var s' := Do(s, Edit(n, id, v));
    EditShape(s, n, id, v);
    if !Loses(s, Edit(n, id, v)) { StepKeeps(s, Edit(n, id, v)); }
    forall k | k in s.link && k.0 == n
      ensures HeldAt(s', k) <==> !(Backdated(s, n, id, v) && Mentions(s.link[k], id))
    {
      InvHeld(s, k);
      if Backdated(s, n, id, v) {
        ForgotHeldIff(s.link[k], s.reg[n], s.self, id);
      } else {
        InvHeld(s', k);
      }
    }
  }
}
