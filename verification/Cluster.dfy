/** A cluster of nodes that replicate their checks to each other: every interleaving of
    operator edits and deletes, heartbeats, batched fetches, failures and purges, within one
    boot epoch. */
module Cluster {
  import opened ClusterChannel
  import opened ClusterLink

  type Wire = (NodeId, NodeId)

  /** self holds the ids of selfchecks, which are never replicated; link[(n, p)] is the
      replication from n to p. */
  datatype State = State(self: set<CheckId>, produced: map<NodeId, nat>, reg: map<NodeId, Registry>,
                         link: map<Wire, Link>)

  predicate WellFormed(s: State)
  {
    && s.produced.Keys == s.reg.Keys
    && forall k :: k in s.link ==> k.0 in s.reg && k.1 in s.reg && k.0 != k.1
  }

  datatype Step =
    | Edit(n: NodeId, id: CheckId, v: int)
    | Delete(n: NodeId, id: CheckId)
    | Purge(n: NodeId, id: CheckId)
    | Beat(k: Wire, seen: int)
    | Begin(k: Wire, batchSize: nat)
    | Answer(k: Wire)
    | Process(k: Wire)
    | Complete(k: Wire)
    | Lose(k: Wire, o: Outcome)
    | Record(k: Wire)

  function VersionAt(s: State, n: NodeId, id: CheckId): int
  {
    if n in s.reg && id in s.reg[n] then s.reg[n][id].version else 0
  }

  /** noit_poller_check_found_and_backdated: the check is there with a higher sequence, or the
      configured sequence is negative. */
  predicate Backdated(s: State, n: NodeId, id: CheckId, v: int)
  {
    n in s.reg && id in s.reg[n] && (v < 0 || v < s.reg[n][id].version)
  }

  /** noit_cluster_mark_check_changed: a new entry for every peer, unless the check is a
      selfcheck or carries no sequence. */
  function Announce(s: State, n: NodeId, id: CheckId, c: Check): State
    requires WellFormed(s) && n in s.reg
  {
    if id in s.self || c.version <= 0 then s
    else
      var at := s.produced[n] + 1;
      s.(produced := s.produced[n := at],
         link := map k | k in s.link :: if k.0 == n then Append(s.link[k], id, c, at) else s.link[k])
  }

  function Store(s: State, n: NodeId, id: CheckId, c: Check): State
    requires WellFormed(s) && n in s.reg
  {
    Announce(s.(reg := s.reg[n := s.reg[n][id := c]]), n, id, c)
  }

  function Remove(s: State, n: NodeId, id: CheckId): State
    requires n in s.reg
  {
    s.(reg := s.reg[n := s.reg[n] - {id}])
  }

  /** A check leaves the registry; if it carried a sequence, the links to the node note it. */
  function Forget(s: State, n: NodeId, id: CheckId): State
    requires WellFormed(s) && n in s.reg
  {
    if VersionAt(s, n, id) <= 0 then Remove(s, n, id)
    else Remove(s, n, id).(link := map k | k in s.link :: if k.1 == n then CutOff(s.link[k], id) else s.link[k])
  }

  predicate Mentions(l: Link, id: CheckId)
  {
    exists i :: l.dropped <= i < |l.hist| && l.hist[i].key == id
  }

  /** noit_cluster_checkid_replication_pending. */
  predicate Pending(s: State, n: NodeId, id: CheckId)
  {
    exists k :: k in s.link && k.0 == n && Mentions(s.link[k], id)
  }

  predicate Enabled(s: State, st: Step)
    requires WellFormed(s)
  {
    match st
    case Edit(n, id, v) => n in s.reg
    case Delete(n, id) => n in s.reg
    case Purge(n, id) => n in s.reg && id in s.reg[n] && s.reg[n][id].deleted && !Pending(s, n, id)
    case Beat(k, seen) => k in s.link && s.link[k].channel.available <= seen <= s.produced[k.0]
    case Begin(k, batchSize) => k in s.link && s.link[k].phase.Idle?
    case Answer(k) => k in s.link && s.link[k].phase.Asked? && s.link[k].phase.r.end != 0 && s.link[k].dropped <= |s.link[k].hist|
    case Process(k) => k in s.link && s.link[k].phase.Replied? && s.link[k].phase.docs != []
    case Complete(k) => k in s.link && s.link[k].phase.Replied? && s.link[k].phase.docs == []
    case Lose(k, o) => k in s.link && (s.link[k].phase.Asked? || s.link[k].phase.Replied?)
                       && !o.success && Possible(s.link[k].phase.r, o)
    case Record(k) => k in s.link && s.link[k].phase.Done?
  }

  /** The peer applies a document only if it is newer than what it holds; a deleted check that
      carries no sequence does not stay as a tombstone. */
  function ApplyDoc(s: State, p: NodeId, d: Doc): State
    requires WellFormed(s) && p in s.reg
  {
    if d.id in s.reg[p] && s.reg[p][d.id].version >= d.check.version then s
    else if d.check.deleted && d.check.version == 0 then Remove(s, p, d.id)
    else Store(s, p, d.id, d.check)
  }

  function SetLink(s: State, k: Wire, l: Link): State { s.(link := s.link[k := l]) }

  function Do(s: State, st: Step): State
    requires WellFormed(s) && Enabled(s, st)
  {
    match st
    case Edit(n, id, v) =>
      if Backdated(s, n, id, v) then Forget(s, n, id) else Store(s, n, id, Check(if v < 0 then 0 else v, false))
    case Delete(n, id) =>
      if id !in s.reg[n] then s
      else if s.reg[n][id].version == 0 then Remove(s, n, id)
      else Store(s, n, id, Check(s.reg[n][id].version + 1, true))
    case Purge(n, id) => Forget(s, n, id)
    case Beat(k, seen) => SetLink(s, k, Announced(s.link[k], seen))
    case Begin(k, batchSize) => SetLink(s, k, Start(s.link[k], batchSize))
    case Answer(k) => SetLink(s, k, Serve(s.link[k], s.reg[k.0], s.self))
    case Process(k) =>
      var s' := ApplyDoc(s, k.1, s.link[k].phase.docs[0]);
      SetLink(s', k, Take(s'.link[k]))
    case Complete(k) => SetLink(s, k, Close(s.link[k]))
    case Lose(k, o) => SetLink(s, k, Fail(s.link[k], o))
    case Record(k) => SetLink(s, k, FinishJob(s.link[k]))
  }

  function ViewOf(s: State, k: Wire): View
    requires WellFormed(s) && k in s.link
  {
    View(s.link[k], s.produced[k.0], s.reg[k.0], s.reg[k.1], s.self)
  }

  ghost predicate Inv(s: State)
  {
    && WellFormed(s)
    && (forall n, id :: n in s.reg && id in s.reg[n] ==> s.reg[n][id].version >= 0)
    && forall k {:trigger ViewOf(s, k)} :: k in s.link ==> LinkInv(ViewOf(s, k))
  }

  lemma ReplaceLink(s: State, k: Wire, l: Link)
    requires Inv(s) && k in s.link
    requires LinkInv(ViewOf(s, k).(l := l))
    ensures Inv(SetLink(s, k, l))
  {
    var s' := SetLink(s, k, l);
    forall j | j in s'.link ensures LinkInv(ViewOf(s', j)) {
      assert j == k || LinkInv(ViewOf(s, j));
    }
  }

  /** A check that no live entry can name, because it carries no sequence. */
  lemma NotNamed(s: State, k: Wire, id: CheckId)
    requires Inv(s) && k in s.link && VersionAt(s, k.0, id) == 0
    ensures forall i :: s.link[k].dropped <= i < |s.link[k].hist| ==> s.link[k].hist[i].key != id
  {
    assert LinkInv(ViewOf(s, k));
  }

  function RoleOf(n: NodeId, k: Wire): Role
  {
    if k.0 == n then Producer else if k.1 == n then Consumer else Neither
  }

  /** What storing a check changes as one link sees it. */
  lemma StoreView(s: State, n: NodeId, id: CheckId, c: Check, k: Wire)
    requires WellFormed(s) && n in s.reg && k in s.link
    ensures ViewOf(Store(s, n, id, c), k) == Stored(ViewOf(s, k), RoleOf(n, k), id, c)
  {}

  lemma StoreOver(s: State, n: NodeId, id: CheckId, c: Check, k: Wire)
    requires Inv(s) && n in s.reg && k in s.link && 0 <= VersionAt(s, n, id) <= c.version
    ensures LinkInv(ViewOf(Store(s, n, id, c), k))
  {
    StoredKeeps(ViewOf(s, k), RoleOf(n, k), id, c);
    StoreView(s, n, id, c, k);
  }

  /** Storing a check as new as what was there keeps everything. */
  lemma StoreKeeps(s: State, n: NodeId, id: CheckId, c: Check)
    requires Inv(s) && n in s.reg
    requires 0 <= VersionAt(s, n, id) <= c.version
    ensures Inv(Store(s, n, id, c))
  {
    var s' := Store(s, n, id, c);
    forall k | k in s'.link ensures LinkInv(ViewOf(s', k)) {
      StoreOver(s, n, id, c, k);
    }
  }

  /** Dropping a check that carries no sequence keeps everything. */
  lemma RemoveKeeps(s: State, n: NodeId, id: CheckId)
    requires Inv(s) && n in s.reg && VersionAt(s, n, id) == 0
    ensures Inv(Remove(s, n, id))
  {
    var s' := Remove(s, n, id);
    forall k | k in s'.link ensures LinkInv(ViewOf(s', k)) {
      var v := ViewOf(s, k);
      if k.0 == n {
        NotNamed(s, k, id);
        QuietKeeps(v, v.reg - {id}, id);
      } else if k.1 == n {
        PeerKeeps(v, v.peer - {id});
      }
    }
  }

  lemma ForgetKeeps(s: State, n: NodeId, id: CheckId)
    requires Inv(s) && n in s.reg && !Pending(s, n, id)
    ensures Inv(Forget(s, n, id))
  {
    var s' := Forget(s, n, id);
    if VersionAt(s, n, id) == 0 {
      RemoveKeeps(s, n, id);
    } else {
      forall k | k in s'.link ensures LinkInv(ViewOf(s', k)) {
        var v := ViewOf(s, k);
        if k.0 == n {
          QuietKeeps(v, v.reg - {id}, id);
        } else if k.1 == n {
          CutKeeps(v, id);
        }
      }
    }
  }

  lemma ApplyDocLink(s: State, k: Wire, d: Doc)
    requires WellFormed(s) && k in s.link
    ensures var s' := ApplyDoc(s, k.1, d);
            && WellFormed(s') && k in s'.link && s'.link[k] == s.link[k]
            && (d.check.version > 0 ==> VersionAt(s', k.1, d.id) >= d.check.version)
  {}

  /** What applying a document leaves: the peer holds something as new, and the link it came
      over is as it was. */
  lemma ApplyDocKeeps(s: State, k: Wire)
    requires Inv(s) && Enabled(s, Process(k))
    ensures var s' := ApplyDoc(s, k.1, s.link[k].phase.docs[0]);
            && Inv(s') && k in s'.link && s'.link[k] == s.link[k]
            && VersionAt(s', k.1, s.link[k].phase.docs[0].id) >= s.link[k].phase.docs[0].check.version > 0
  {
    assert LinkInv(ViewOf(s, k));
    var d := s.link[k].phase.docs[0];
    ApplyDocLink(s, k, d);
    if !(d.id in s.reg[k.1] && s.reg[k.1][d.id].version >= d.check.version) {
      StoreKeeps(s, k.1, d.id, d.check);
    }
  }

  /** A backdated edit of a check that a changelog still mentions. */
  predicate Loses(s: State, st: Step)
  {
    st.Edit? && Backdated(s, st.n, st.id, st.v) && Pending(s, st.n, st.id)
  }

  lemma EditKeeps(s: State, n: NodeId, id: CheckId, v: int)
    requires Inv(s) && n in s.reg && !Loses(s, Edit(n, id, v))
    ensures Inv(Do(s, Edit(n, id, v)))
  {
    if Backdated(s, n, id, v) {
      ForgetKeeps(s, n, id);
    } else {
      StoreKeeps(s, n, id, Check(if v < 0 then 0 else v, false));
    }
  }

  /** Every step but a backdated edit of a pending check keeps the invariant. */
  lemma StepKeeps(s: State, st: Step)
    requires Inv(s) && Enabled(s, st) && !Loses(s, st)
    ensures Inv(Do(s, st))
  {
    match st {
      case Edit(n, id, v) => EditKeeps(s, n, id, v);
      case Delete(n, id) =>
        if id in s.reg[n] && s.reg[n][id].version == 0 {
          RemoveKeeps(s, n, id);
        } else if id in s.reg[n] {
          StoreKeeps(s, n, id, Check(s.reg[n][id].version + 1, true));
        }
      case Purge(n, id) => ForgetKeeps(s, n, id);
      case Process(k) =>
        ApplyDocKeeps(s, k);
        var s' := ApplyDoc(s, k.1, s.link[k].phase.docs[0]);
        TakeKeeps(ViewOf(s', k));
        ReplaceLink(s', k, Take(s'.link[k]));
      case _ => WireStepKeeps(s, st);
    }
  }

  /** The steps that change one link only. */
  lemma WireStepKeeps(s: State, st: Step)
    requires Inv(s) && Enabled(s, st)
    requires st.Beat? || st.Begin? || st.Answer? || st.Complete? || st.Lose? || st.Record?
    ensures Inv(Do(s, st))
  {
    var k := st.k;
    var v := ViewOf(s, k);
    match st {
      case Beat(_, seen) => AnnouncedKeeps(v, seen);
      case Begin(_, batchSize) => StartKeeps(v, batchSize);
      case Answer(_) => ServeKeeps(v);
      case Complete(_) => CloseKeeps(v);
      case Lose(_, o) => FailKeeps(v, o);
      case Record(_) => FinishKeeps(v);
    }
    ReplaceLink(s, k, Do(s, st).link[k]);
  }

  // Runs.

  ghost predicate IsRun(s: State, steps: seq<Step>)
    decreases steps
  {
    WellFormed(s) && (steps != [] ==> Enabled(s, steps[0]) && IsRun(Do(s, steps[0]), steps[1..]))
  }

  ghost function After(s: State, steps: seq<Step>): State
    requires IsRun(s, steps)
    decreases steps
  {
    if steps == [] then s else After(Do(s, steps[0]), steps[1..])
  }

  /** A start: every link fresh but for a changelog built from the producer's registry. */
  ghost predicate Init(s: State)
  {
    && WellFormed(s)
    && (forall n, id :: n in s.reg && id in s.reg[n] ==> s.reg[n][id].version >= 0)
    && forall k :: k in s.link ==>
         var l := s.link[k];
         && l == NEW_LINK.(hist := l.hist, said := l.said)
         && LogOk(l, s.produced[k.0]) && Held(l, s.reg[k.0], s.self) && Told(l, s.reg[k.0], s.self)
  }

  lemma InitInv(s: State)
    requires Init(s)
    ensures Inv(s)
  {
    forall k | k in s.link ensures LinkInv(ViewOf(s, k)) {}
  }

  /** A run without a backdated edit of a check that is pending at that moment. */
  ghost predicate Careful(s: State, steps: seq<Step>)
    requires IsRun(s, steps)
    decreases steps
  {
    steps != [] ==> !Loses(s, steps[0]) && Careful(Do(s, steps[0]), steps[1..])
  }

  /** Over every careful run the invariant holds in every state. */
  lemma {:induction false} RunKeeps(s: State, steps: seq<Step>)
    requires Inv(s) && IsRun(s, steps) && Careful(s, steps)
    ensures Inv(After(s, steps))
    decreases steps
  {
    if steps != [] {
      StepKeeps(s, steps[0]);
      RunKeeps(Do(s, steps[0]), steps[1..]);
    }
  }
}
