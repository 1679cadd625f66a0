/** When replication alone can raise a node's sequence of a check, and so when a check that a node
    has removed can come back to it. */
module ClusterReturn {
  import opened ClusterLog
  import opened ClusterChannel
  import opened ClusterLink
  import opened Cluster
  import opened ClusterLaws

  // ---------- what a link can still deliver ----------

  predicate InReply(l: Link, id: CheckId, c: int)
  {
    l.phase.Replied? && exists j :: 0 <= j < |l.phase.docs| && l.phase.docs[j].id == id && l.phase.docs[j].check.version == c
  }

  /** How far the link has come, or will have once a finished job is recorded. */
  function Ahead(l: Link): int
  {
    if l.phase.Done? && l.phase.o.success && l.phase.r.end != 0 then l.phase.r.end else l.channel.fetched
  }

  /** A live entry of the check lies ahead. */
  predicate Unserved(l: Link, id: CheckId)
  {
    exists i :: l.dropped <= i < |l.hist| && l.hist[i].key == id && l.hist[i].at > Ahead(l)
  }

  /** The link can deliver the check at a sequence: from a reply in flight, or from an entry ahead
      and the producer's registry. */
  predicate Supplies(s: State, k: Wire, id: CheckId, c: int)
  {
    k in s.link && (InReply(s.link[k], id, c)
                    || (Unserved(s.link[k], id) && k.0 in s.reg && id in s.reg[k.0] && s.reg[k.0][id].version == c))
  }

  /** Nodes along links, each below the sequence. */
  ghost predicate Route(s: State, id: CheckId, c: int, path: seq<NodeId>)
  {
    && path != [] && (forall i :: 0 <= i < |path| ==> path[i] in s.reg && VersionAt(s, path[i], id) < c)
    && forall i :: 0 < i < |path| ==> (path[i - 1], path[i]) in s.link
  }

  ghost predicate RisesVia(s: State, n: NodeId, id: CheckId, k: Wire, c: int, path: seq<NodeId>)
  {
    Supplies(s, k, id, c) && Route(s, id, c, path) && k.1 == path[0] && path[|path| - 1] == n
  }

  /** Some link can deliver the check at a sequence that a route of lower nodes takes on to n. */
  ghost predicate CanRise(s: State, n: NodeId, id: CheckId)
  {
    exists k, c, path :: RisesVia(s, n, id, k, c, path)
  }

  // ---------- no step but an acceptance adds to it ----------

  lemma ServeSupplies(l: Link, produced: nat, reg: Registry, self: set<CheckId>, id: CheckId)
    requires LogOk(l, produced) && l.phase.Asked? && Requested(l.channel, l.phase.r) && l.phase.r.end != 0
    ensures Unserved(Serve(l, reg, self), id) ==> Unserved(l, id)
    ensures forall c :: InReply(Serve(l, reg, self), id, c) ==> Unserved(l, id) && id in reg && reg[id].version == c
  {
    var l', r := Serve(l, reg, self), l.phase.r;
    forall c | InReply(l', id, c) ensures Unserved(l, id) && id in reg && reg[id].version == c {
      var rest := Eaten(Live(l), r.prev);
      var ids := Reply(rest, r.end, reg.Keys - self);
      var j :| 0 <= j < |l'.phase.docs| && l'.phase.docs[j].id == id && l'.phase.docs[j].check.version == c;
      assert ids[j] in ids;
      var i := ReplyIsFrom(rest, r.end, reg.Keys - self, id);
      RestIsAhead(l, produced, i, id);
    }
  }

  lemma ReplyIsFrom<K>(rest: seq<Entry<K>>, end: int, has: set<K>, k: K) returns (i: nat)
    requires k in Reply(rest, end, has)
    ensures i < |rest| && rest[i].key == k
  {
    var front := rest[..Upto(rest, end)];
    CarriedIs(front, has, k);
    i :| 0 <= i < |front| && front[i].key == k;
    assert rest[i] == front[i];
  }

  lemma EatenIsAhead(l: Link, produced: nat, prev: int, i: nat) returns (j: nat)
    requires LogOk(l, produced) && i < |Eaten(Live(l), prev)|
    ensures l.dropped <= j < |l.hist| && l.hist[j] == Eaten(Live(l), prev)[i] && l.hist[j].at > prev
  {
    var n := Upto(Live(l), prev);
    j := l.dropped + n + i;
    assert l.hist[j] == Live(l)[n + i] == Eaten(Live(l), prev)[i];
    UptoSplits(Live(l), prev, n + i);
  }

  lemma UnservedAt(l: Link, id: CheckId, j: nat)
    requires l.dropped <= j < |l.hist| && l.hist[j].key == id && l.hist[j].at > Ahead(l)
    ensures Unserved(l, id)
  {}

  lemma RestIsAhead(l: Link, produced: nat, i: nat, id: CheckId)
    requires LogOk(l, produced) && l.phase.Asked?
    requires i < |Eaten(Live(l), l.channel.fetched)| && Eaten(Live(l), l.channel.fetched)[i].key == id
    ensures Unserved(l, id)
  {
    var j := EatenIsAhead(l, produced, l.channel.fetched, i);
    UnservedAt(l, id, j);
  }

  lemma TakeSupplies(l: Link, id: CheckId)
    requires l.phase.Replied? && l.phase.docs != []
    ensures Unserved(Take(l), id) ==> Unserved(l, id)
    ensures forall c :: InReply(Take(l), id, c) ==> InReply(l, id, c)
  {
    assert forall j :: 0 <= j < |l.phase.docs[1..]| ==> l.phase.docs[1..][j] == l.phase.docs[j + 1];
  }

  lemma AppendSupplies(l: Link, other: CheckId, v: Check, at: nat, id: CheckId)
    requires other != id
    ensures Unserved(Append(l, other, v, at), id) ==> Unserved(l, id)
    ensures forall c :: InReply(Append(l, other, v, at), id, c) ==> InReply(l, id, c)
  {}

  lemma RecordSupplies(l: Link, id: CheckId)
    requires l.phase.Done?
    ensures Unserved(FinishJob(l), id) ==> Unserved(l, id)
  {}

  lemma CloseSupplies(l: Link, id: CheckId)
    requires l.phase.Replied? && l.channel.fetched <= l.phase.r.end
    ensures Unserved(Close(l), id) ==> Unserved(l, id)
  {}

  /** Storing another check, on any node. */
  lemma StoreSupplies(s: State, n: NodeId, other: CheckId, v: Check, k: Wire, id: CheckId, c: int)
    requires WellFormed(s) && n in s.reg && other != id
    ensures Supplies(Store(s, n, other, v), k, id, c) ==> Supplies(s, k, id, c)
  {
    if k in s.link {
      AppendSupplies(s.link[k], other, v, s.produced[n] + 1, id);
      StoreShape(s, n, other, v);
    }
  }

  lemma ForgetSupplies(s: State, n: NodeId, other: CheckId, k: Wire, id: CheckId, c: int)
    requires WellFormed(s) && n in s.reg
    ensures Supplies(Forget(s, n, other), k, id, c) ==> Supplies(s, k, id, c)
    ensures Supplies(Remove(s, n, other), k, id, c) ==> Supplies(s, k, id, c)
  {}

  predicate Operates(st: Step, id: CheckId) { (st.Edit? || st.Delete?) && st.id == id }

  lemma OperatorSupplies(s: State, st: Step, k: Wire, id: CheckId, c: int)
    requires WellFormed(s) && Enabled(s, st) && !OnWire(st) && !Operates(st, id)
    ensures Supplies(Do(s, st), k, id, c) ==> Supplies(s, k, id, c)
  {
    match st {
      case Edit(n, other, v) =>
        ForgetSupplies(s, n, other, k, id, c);
        StoreSupplies(s, n, other, Check(if v < 0 then 0 else v, false), k, id, c);
      case Delete(n, other) =>
        ForgetSupplies(s, n, other, k, id, c);
        if other in s.reg[n] { StoreSupplies(s, n, other, Check(s.reg[n][other].version + 1, true), k, id, c); }
      case Purge(n, other) => ForgetSupplies(s, n, other, k, id, c);
    }
  }

  lemma WireSupplies(s: State, st: Step, k: Wire, id: CheckId, c: int)
    requires Inv(s) && Enabled(s, st) && OnWire(st) && !st.Process?
    ensures Supplies(Do(s, st), k, id, c) ==> Supplies(s, k, id, c)
  {
    WireShape(s, st);
    if k == st.k {
      var l := s.link[k];
      assert LinkInv(ViewOf(s, k));
      match st {
        case Answer(_) => ServeSupplies(l, s.produced[k.0], s.reg[k.0], s.self, id);
        case Complete(_) => CloseSupplies(l, id);
        case Record(_) => RecordSupplies(l, id);
        case _ =>
      }
    }
  }

  /** A document is processed and the check is not accepted from it. */
  lemma ProcessSupplies(s: State, k0: Wire, k: Wire, id: CheckId, c: int)
    requires Inv(s) && Enabled(s, Process(k0)) && !Accepts(s, Process(k0), k0.1, id)
    ensures Supplies(Do(s, Process(k0)), k, id, c) ==> Supplies(s, k, id, c)
  {
    InvPositive(s);
    var d := s.link[k0].phase.docs[0];
    var s1 := ApplyDoc(s, k0.1, d);
    ApplyDocLink(s, k0, d);
    if d.id != id { StoreSupplies(s, k0.1, d.id, d.check, k, id, c); }
    assert Supplies(s1, k, id, c) ==> Supplies(s, k, id, c);
    TakeSupplies(s1.link[k0], id);
  }

  lemma StepSupplies(s: State, st: Step, k: Wire, id: CheckId, c: int)
    requires Inv(s) && Enabled(s, st) && !Operates(st, id)
    requires st.Process? ==> !Accepts(s, st, st.k.1, id)
    ensures Supplies(Do(s, st), k, id, c) ==> Supplies(s, k, id, c)
  {
    if !OnWire(st) {
      OperatorSupplies(s, st, k, id, c);
    } else if st.Process? {
      ProcessSupplies(s, st.k, k, id, c);
    } else {
      WireSupplies(s, st, k, id, c);
    }
  }

  // ---------- without a supply nothing comes back ----------

  ghost predicate NoSupply(s: State, id: CheckId) { forall k, c :: !Supplies(s, k, id, c) }

  lemma NoSupplyNoAccept(s: State, st: Step, id: CheckId)
    requires Inv(s) && Enabled(s, st) && NoSupply(s, id)
    ensures st.Process? ==> s.link[st.k].phase.docs[0].id != id
  {
    if st.Process? { FirstDocSupplies(s, st.k); }
  }

  lemma FirstDocSupplies(s: State, k: Wire)
    requires WellFormed(s) && Enabled(s, Process(k))
    ensures var d := s.link[k].phase.docs[0]; Supplies(s, k, d.id, d.check.version)
  {}

  lemma ProcessOther(s: State, k: Wire, n: NodeId, id: CheckId)
    requires Inv(s) && Enabled(s, Process(k)) && s.link[k].phase.docs[0].id != id && n in s.reg
    ensures n in Do(s, Process(k)).reg && (id in Do(s, Process(k)).reg[n] <==> id in s.reg[n])
  {
    InvPositive(s);
    ProcessIsApply(s, k);
    ApplyShape(s, k.1, s.link[k].phase.docs[0]);
  }

  lemma StillAbsent(s: State, st: Step, n: NodeId, id: CheckId)
    requires Inv(s) && Enabled(s, st) && !Operates(st, id) && NoSupply(s, id) && n in s.reg && id !in s.reg[n]
    ensures n in Do(s, st).reg && id !in Do(s, st).reg[n]
  {
    NoSupplyNoAccept(s, st, id);
    if st.Process? {
      ProcessOther(s, st.k, n, id);
    } else if OnWire(st) {
      WireShape(s, st);
    }
  }

  /** A check that no link can deliver any more never comes back to a node that does not hold it, in
      any careful run without an operator's edit or delete of it, whatever is purged meanwhile. */
  lemma {:induction false} StaysGone(s: State, steps: seq<Step>, n: NodeId, id: CheckId)
    requires Inv(s) && IsRun(s, steps) && Careful(s, steps) && NoSupply(s, id) && n in s.reg && id !in s.reg[n]
    requires forall st :: st in steps ==> !Operates(st, id)
    ensures n in After(s, steps).reg && id !in After(s, steps).reg[n]
    decreases steps
  {
    if steps != [] {
      var st := steps[0];
      assert st in steps;
      StillAbsent(s, st, n, id);
      NoSupplyNoAccept(s, st, id);
      forall k, c ensures !Supplies(Do(s, st), k, id, c) {
        StepSupplies(s, st, k, id, c);
      }
      StepKeeps(s, st);
      StaysGone(Do(s, st), steps[1..], n, id);
    }
  }

  // ---------- what rises could have risen before ----------

  lemma RouteBefore(s: State, st: Step, id: CheckId, c: int, path: seq<NodeId>)
    requires Inv(s) && Enabled(s, st) && !Touches(st, id) && Route(Do(s, st), id, c, path)
    ensures Route(s, id, c, path)
  {
    InvPositive(s);
    SameNodes(s, st);
    forall i | 0 <= i < |path| ensures path[i] in s.reg && VersionAt(s, path[i], id) < c {
      AcceptRaises(s, st, path[i], id);
    }
  }

  /** After an acceptance, a supply was there before or comes from the node that accepted, at the
      sequence it accepted. */
  lemma AcceptedSupplies(s: State, k0: Wire, k: Wire, id: CheckId, c: int)
    requires Inv(s) && Enabled(s, Process(k0)) && Accepts(s, Process(k0), k0.1, id)
    requires Supplies(Do(s, Process(k0)), k, id, c)
    ensures Supplies(s, k, id, c) || (k.0 == k0.1 && k in s.link && c == s.link[k0].phase.docs[0].check.version)
  {
    InvPositive(s);
    var d := s.link[k0].phase.docs[0];
    var s1 := ApplyDoc(s, k0.1, d);
    ApplyDocLink(s, k0, d);
    assert s1 == Store(s, k0.1, id, d.check);
    TakeSupplies(s1.link[k0], id);
    assert Supplies(s1, k, id, c);
    SuppliesAfterStore(s, k0.1, id, d.check, k, c);
  }

  lemma SuppliesAfterStore(s: State, n: NodeId, id: CheckId, v: Check, k: Wire, c: int)
    requires WellFormed(s) && n in s.reg && Supplies(Store(s, n, id, v), k, id, c)
    ensures Supplies(s, k, id, c) || (k.0 == n && k in s.link && c == v.version)
  {
    StoreShape(s, n, id, v);
    if k.0 == n { StoreLink(s, n, id, v, k); }
  }

  lemma RisesBefore(s: State, st: Step, n: NodeId, id: CheckId)
    requires Inv(s) && Enabled(s, st) && !Touches(st, id) && CanRise(Do(s, st), n, id)
    ensures CanRise(s, n, id)
  {
    var k, c, path :| RisesVia(Do(s, st), n, id, k, c, path);
    RouteBefore(s, st, id, c, path);
    if st.Process? && Accepts(s, st, st.k.1, id) {
      AcceptedSupplies(s, st.k, k, id, c);
      if !Supplies(s, k, id, c) { RisesEarlier(s, st.k, n, id, c, path); }
    } else {
      StepSupplies(s, st, k, id, c);
    }
    if Supplies(s, k, id, c) { assert RisesVia(s, n, id, k, c, path); }
  }

  lemma RisesEarlier(s: State, k: Wire, n: NodeId, id: CheckId, c: int, path: seq<NodeId>)
    requires Inv(s) && Enabled(s, Process(k)) && Accepts(s, Process(k), k.1, id)
    requires c == s.link[k].phase.docs[0].check.version
    requires Route(s, id, c, path) && path[|path| - 1] == n && (k.1, path[0]) in s.link
    ensures CanRise(s, n, id)
  {
    FirstDocSupplies(s, k);
    assert RisesVia(s, n, id, k, c, [k.1] + path);
  }

  lemma AcceptedHere(s: State, st: Step, n: NodeId, id: CheckId)
    requires Inv(s) && Enabled(s, st) && !Touches(st, id) && n in s.reg
    requires VersionAt(Do(s, st), n, id) > VersionAt(s, n, id)
    ensures CanRise(s, n, id)
  {
    InvPositive(s);
    if !OnWire(st) {
      OperatorShape(s, st);
    } else if st.Process? {
      ProcessShape(s, st.k, n, id);
      var c := s.link[st.k].phase.docs[0].check.version;
      assert RisesVia(s, n, id, st.k, c, [n]);
    } else {
      WireShape(s, st);
    }
  }

  /** Whatever rises by replication alone could have risen by the condition. */
  lemma {:induction false} RoseThenCould(s: State, steps: seq<Step>, n: NodeId, id: CheckId)
    requires Inv(s) && IsRun(s, steps) && Careful(s, steps) && n in s.reg
    requires forall st :: st in steps ==> !Touches(st, id)
    requires VersionAt(After(s, steps), n, id) > VersionAt(s, n, id)
    ensures CanRise(s, n, id)
    decreases steps
  {
    if steps != [] {
      var st := steps[0];
      assert st in steps;
      InvPositive(s);
      SameNodes(s, st);
      StepKeeps(s, st);
      AcceptRaises(s, st, n, id);
      if VersionAt(Do(s, st), n, id) > VersionAt(s, n, id) {
        AcceptedHere(s, st, n, id);
      } else {
        RoseThenCould(Do(s, st), steps[1..], n, id);
        RisesBefore(s, st, n, id);
      }
    }
  }

  // ---------- and a supply can be delivered ----------

  lemma RunCons(s: State, st: Step, rest: seq<Step>)
    requires WellFormed(s) && Enabled(s, st) && !Loses(s, st) && IsRun(Do(s, st), rest) && Careful(Do(s, st), rest)
    ensures IsRun(s, [st] + rest) && Careful(s, [st] + rest)
    ensures After(s, [st] + rest) == After(Do(s, st), rest)
  {
    assert ([st] + rest)[1..] == rest;
  }

  lemma RunUncons(s: State, a: seq<Step>)
    requires IsRun(s, a) && Careful(s, a) && a != []
    ensures WellFormed(s) && Enabled(s, a[0]) && !Loses(s, a[0])
    ensures IsRun(Do(s, a[0]), a[1..]) && Careful(Do(s, a[0]), a[1..])
    ensures After(s, a) == After(Do(s, a[0]), a[1..])
  {}

  lemma ConsAppend<T>(a: seq<T>, b: seq<T>)
    requires a != []
    ensures [a[0]] + (a[1..] + b) == a + b
  {}

  lemma {:induction false} RunAppend(s: State, a: seq<Step>, m: State, b: seq<Step>)
    requires IsRun(s, a) && Careful(s, a) && m == After(s, a) && IsRun(m, b) && Careful(m, b)
    ensures IsRun(s, a + b) && Careful(s, a + b)
    ensures After(s, a + b) == After(m, b)
    decreases a
  {
    if a == [] {
      assert a + b == b;
    } else {
      RunUncons(s, a);
      var s1 := Do(s, a[0]);
      RunAppend(s1, a[1..], m, b);
      RunConsTo(s, a[0], s1, a[1..] + b);
      ConsAppend(a, b);
    }
  }

  lemma RunConsTo(s: State, st: Step, s1: State, rest: seq<Step>)
    requires WellFormed(s) && Enabled(s, st) && !Loses(s, st) && s1 == Do(s, st) && IsRun(s1, rest) && Careful(s1, rest)
    ensures IsRun(s, [st] + rest) && Careful(s, [st] + rest)
    ensures After(s, [st] + rest) == After(s1, rest)
  {
    RunCons(s, st, rest);
  }

  ghost predicate AllOnWire(steps: seq<Step>) { forall st :: st in steps ==> OnWire(st) }

  /** A node that has just accepted the check can pass it on along each of its links. */
  lemma PassesOn(s: State, k: Wire, x: NodeId, id: CheckId)
    requires Inv(s) && Enabled(s, Process(k)) && Accepts(s, Process(k), k.1, id) && (k.1, x) in s.link
    ensures Supplies(Do(s, Process(k)), (k.1, x), id, s.link[k].phase.docs[0].check.version)
  {
    var d, j := s.link[k].phase.docs[0], (k.1, x);
    assert LinkInv(ViewOf(s, k)) && LinkInv(ViewOf(s, j));
    StoredSupplies(s, j, id, d.check);
    assert ApplyDoc(s, k.1, d) == Store(s, k.1, id, d.check);
  }

  lemma AppendedUnserved(l: Link, produced: nat, self: set<CheckId>, id: CheckId, c: Check)
    requires LinkOk(l, produced, self)
    ensures Unserved(Append(l, id, c, produced + 1), id)
  {
    var l' := Append(l, id, c, produced + 1);
    AheadIsBehind(l, produced, self);
    assert l'.hist[|l.hist|].key == id && l'.hist[|l.hist|].at == produced + 1;
  }

  lemma StoredSupplies(s: State, j: Wire, id: CheckId, c: Check)
    requires Inv(s) && j in s.link && id !in s.self && c.version > 0
    ensures Supplies(Store(s, j.0, id, c), j, id, c.version)
  {
    assert LinkInv(ViewOf(s, j));
    AppendedUnserved(s.link[j], s.produced[j.0], s.self, id, c);
  }

  lemma AheadIsBehind(l: Link, produced: nat, self: set<CheckId>)
    requires LinkOk(l, produced, self)
    ensures Ahead(l) <= produced
  {}

  /** What a delivery of the check over a link does. */
  ghost predicate Delivers(s: State, s': State, k: Wire, id: CheckId, c: int)
  {
    && Inv(s') && s'.reg.Keys == s.reg.Keys && s'.link.Keys == s.link.Keys && VersionAt(s', k.1, id) >= c
    && (forall m :: m != k.1 ==> VersionAt(s', m, id) == VersionAt(s, m, id))
    && forall x :: (k.1, x) in s.link ==> Supplies(s', (k.1, x), id, VersionAt(s', k.1, id))
  }

  lemma ProcessVersions(s: State, k: Wire, id: CheckId)
    requires Inv(s) && Enabled(s, Process(k))
    ensures SameShape(s, Do(s, Process(k)))
    ensures forall m :: m != k.1 ==> VersionAt(Do(s, Process(k)), m, id) == VersionAt(s, m, id)
    ensures var d := s.link[k].phase.docs[0];
            VersionAt(Do(s, Process(k)), k.1, id)
              == if id == d.id && VersionAt(s, k.1, id) < d.check.version then d.check.version else VersionAt(s, k.1, id)
  {
    InvPositive(s);
    forall m ensures m != k.1 ==> VersionAt(Do(s, Process(k)), m, id) == VersionAt(s, m, id) {
      ProcessShape(s, k, m, id);
    }
    ProcessShape(s, k, k.1, id);
  }

  lemma StillInReply(s: State, k: Wire, id: CheckId, c: int)
    requires Inv(s) && Enabled(s, Process(k)) && InReply(s.link[k], id, c)
    requires s.link[k].phase.docs[0].id != id || s.link[k].phase.docs[0].check.version != c
    ensures k in Do(s, Process(k)).link && InReply(Do(s, Process(k)).link[k], id, c)
    ensures |Do(s, Process(k)).link[k].phase.docs| < |s.link[k].phase.docs|
  {
    InvPositive(s);
    ProcessLink(s, k, k);
    var docs := s.link[k].phase.docs;
    var j :| 0 <= j < |docs| && docs[j].id == id && docs[j].check.version == c;
    assert docs[1..][j - 1] == docs[j];
  }

  /** Processing a reply that carries the check. */
  lemma {:induction false} DeliverReply(s: State, k: Wire, id: CheckId, c: int) returns (steps: seq<Step>)
    requires Inv(s) && k in s.link && InReply(s.link[k], id, c) && VersionAt(s, k.1, id) < c
    ensures IsRun(s, steps) && Careful(s, steps) && AllOnWire(steps) && Delivers(s, After(s, steps), k, id, c)
    decreases |s.link[k].phase.docs|
  {
    var s', d := Do(s, Process(k)), s.link[k].phase.docs[0];
    StepKeeps(s, Process(k));
    ProcessVersions(s, k, id);
    if d.id == id && d.check.version >= c {
      forall x | (k.1, x) in s.link ensures Supplies(s', (k.1, x), id, VersionAt(s', k.1, id)) {
        PassesOn(s, k, x, id);
      }
      steps := [Process(k)];
      RunCons(s, Process(k), []);
    } else {
      StillInReply(s, k, id, c);
      var rest := DeliverReply(s', k, id, c);
      RunCons(s, Process(k), rest);
      steps := [Process(k)] + rest;
    }
  }

  /** Steps on one link only, that lead to another state of it. */
  ghost predicate LeadsTo(s: State, k: Wire, steps: seq<Step>, l: Link)
  {
    && IsRun(s, steps) && Careful(s, steps) && AllOnWire(steps)
    && After(s, steps) == SetLink(s, k, l) && Inv(SetLink(s, k, l))
  }

  lemma LeadsNowhere(s: State, k: Wire)
    requires Inv(s) && k in s.link
    ensures LeadsTo(s, k, [], s.link[k])
  {
    assert SetLink(s, k, s.link[k]) == s;
  }

  lemma LeadsByOne(s: State, st: Step, rest: seq<Step>, l: Link)
    requires Inv(s) && Enabled(s, st) && OnWire(st) && !st.Process? && LeadsTo(Do(s, st), st.k, rest, l)
    ensures LeadsTo(s, st.k, [st] + rest, l)
  {
    WireShape(s, st);
    RunCons(s, st, rest);
    SetTwice(s, st.k, Do(s, st).link[st.k], l);
  }

  lemma SetTwice(s: State, k: Wire, l: Link, l': Link)
    ensures SetLink(SetLink(s, k, l), k, l') == SetLink(s, k, l')
  {}

  lemma LeadsLast(s: State, st: Step)
    requires Inv(s) && Enabled(s, st) && OnWire(st) && !st.Process?
    ensures st.k in Do(s, st).link && LeadsTo(s, st.k, [st], Do(s, st).link[st.k])
  {
    WireShape(s, st);
    StepKeeps(s, st);
    LeadsNowhere(Do(s, st), st.k);
    LeadsByOne(s, st, [], Do(s, st).link[st.k]);
  }

  /** The job in flight, if any, fails or is recorded. */
  lemma ToIdle(s: State, k: Wire) returns (steps: seq<Step>, l: Link)
    requires Inv(s) && k in s.link
    ensures LeadsTo(s, k, steps, l) && l.phase.Idle?
    ensures l.hist == s.link[k].hist && l.dropped == s.link[k].dropped && Ahead(l) == Ahead(s.link[k])
  {
    match s.link[k].phase
    case Idle =>
      LeadsNowhere(s, k);
      steps, l := [], s.link[k];
    case Done(_, _) =>
      LeadsLast(s, Record(k));
      steps, l := [Record(k)], FinishJob(s.link[k]);
    case _ =>
      var lose := Lose(k, Outcome(0, false));
      var s' := Do(s, lose);
      StepKeeps(s, lose);
      LeadsLast(s', Record(k));
      LeadsByOne(s, lose, [Record(k)], FinishJob(s'.link[k]));
      steps, l := [lose] + [Record(k)], FinishJob(s'.link[k]);
  }

  /** Everything produced is announced and asked for. */
  function AskedForAll(l: Link, produced: nat): Link { Start(Announced(l, produced), 0) }

  lemma AskedKeeps(v: View)
    requires LinkInv(v) && v.l.phase.Idle? && v.l.channel.fetched < v.produced
    ensures LinkInv(v.(l := AskedForAll(v.l, v.produced)))
    ensures AskedForAll(v.l, v.produced).phase == Asked(Request(v.l.channel.fetched, v.produced))
  {
    AnnouncedKeeps(v, v.produced);
    StartKeeps(v.(l := Announced(v.l, v.produced)), 0);
  }

  /** The reply to a request that covers an entry carries its check as the registry has it. */
  lemma ServeCarries(l: Link, produced: nat, reg: Registry, self: set<CheckId>, i: nat)
    requires LogOk(l, produced) && Held(l, reg, self) && l.phase.Asked?
    requires l.dropped <= i < |l.hist| && l.phase.r.prev < l.hist[i].at <= l.phase.r.end
    ensures l.hist[i].key in reg && InReply(Serve(l, reg, self), l.hist[i].key, reg[l.hist[i].key].version)
  {
    ServeCarriesKey(l, reg, self, i);
  }

  lemma AskedCovers(v: View, id: CheckId)
    requires LinkInv(v) && v.l.phase.Idle? && Unserved(v.l, id)
    ensures var l := AskedForAll(v.l, v.produced);
            && l.phase.Asked? && l.phase.r.end != 0 && LinkInv(v.(l := l)) && id in v.reg
            && InReply(Serve(l, v.reg, v.self), id, v.reg[id].version)
  {
    var i :| v.l.dropped <= i < |v.l.hist| && v.l.hist[i].key == id && v.l.hist[i].at > Ahead(v.l);
    AskedKeeps(v);
    ServeCarries(AskedForAll(v.l, v.produced), v.produced, v.reg, v.self, i);
  }

  lemma AskAll(s: State, k: Wire, id: CheckId) returns (steps: seq<Step>, l: Link)
    requires Inv(s) && k in s.link && s.link[k].phase.Idle? && Unserved(s.link[k], id)
    ensures LeadsTo(s, k, steps, l) && id in s.reg[k.0] && InReply(l, id, s.reg[k.0][id].version)
  {
    var v := ViewOf(s, k);
    assert LinkInv(v);
    AskedCovers(v, id);
    var beat, begin, answer := Beat(k, s.produced[k.0]), Begin(k, 0), Answer(k);
    StepKeeps(s, beat);
    var s1 := Do(s, beat);
    StepKeeps(s1, begin);
    var s2 := Do(s1, begin);
    assert s2.link[k] == AskedForAll(s.link[k], s.produced[k.0]);
    l := Serve(s2.link[k], s.reg[k.0], s.self);
    LeadsLast(s2, answer);
    LeadsByOne(s1, begin, [answer], l);
    LeadsByOne(s, beat, [begin] + [answer], l);
    steps := [beat] + ([begin] + [answer]);
  }

  lemma LeadsCompose(s: State, k: Wire, a: seq<Step>, l: Link, b: seq<Step>)
    requires LeadsTo(s, k, a, l) && IsRun(SetLink(s, k, l), b) && Careful(SetLink(s, k, l), b) && AllOnWire(b)
    ensures IsRun(s, a + b) && Careful(s, a + b) && AllOnWire(a + b)
    ensures After(s, a + b) == After(SetLink(s, k, l), b)
  {
    RunAppend(s, a, SetLink(s, k, l), b);
  }

  lemma LinkOnly(s: State, k: Wire, l: Link, m: NodeId, id: CheckId)
    ensures VersionAt(SetLink(s, k, l), m, id) == VersionAt(s, m, id)
  {}

  lemma DeliversAfter(s: State, k: Wire, l: Link, s': State, id: CheckId, c: int)
    requires k in s.link && Delivers(SetLink(s, k, l), s', k, id, c)
    ensures Delivers(s, s', k, id, c)
  {
    forall m ensures VersionAt(SetLink(s, k, l), m, id) == VersionAt(s, m, id) { LinkOnly(s, k, l, m, id); }
    assert SetLink(s, k, l).link.Keys == s.link.Keys;
  }

  /** From an idle link with an entry ahead. */
  lemma DeliverIdle(s: State, k: Wire, id: CheckId, c: int) returns (steps: seq<Step>)
    requires Inv(s) && k in s.link && s.link[k].phase.Idle? && Unserved(s.link[k], id)
    requires id in s.reg[k.0] && s.reg[k.0][id].version == c && VersionAt(s, k.1, id) < c
    ensures IsRun(s, steps) && Careful(s, steps) && AllOnWire(steps) && Delivers(s, After(s, steps), k, id, c)
  {
    var a, l := AskAll(s, k, id);
    LinkOnly(s, k, l, k.1, id);
    var b := DeliverReply(SetLink(s, k, l), k, id, c);
    LeadsCompose(s, k, a, l, b);
    steps := a + b;
    DeliversAfter(s, k, l, After(s, steps), id, c);
  }

  /** Whatever a link supplies, a run of its own steps delivers. */
  lemma Deliver(s: State, k: Wire, id: CheckId, c: int) returns (steps: seq<Step>)
    requires Inv(s) && Supplies(s, k, id, c) && VersionAt(s, k.1, id) < c
    ensures IsRun(s, steps) && Careful(s, steps) && AllOnWire(steps) && Delivers(s, After(s, steps), k, id, c)
  {
    if InReply(s.link[k], id, c) {
      steps := DeliverReply(s, k, id, c);
    } else {
      var a, l := ToIdle(s, k);
      LinkOnly(s, k, l, k.1, id);
      var b := DeliverIdle(SetLink(s, k, l), k, id, c);
      LeadsCompose(s, k, a, l, b);
      steps := a + b;
      DeliversAfter(s, k, l, After(s, steps), id, c);
    }
  }

  lemma ShorterRoute(s: State, id: CheckId, c: int, path: seq<NodeId>, j: nat)
    requires Route(s, id, c, path) && j < |path|
    ensures Route(s, id, c, path[j..]) && path[j..][0] == path[j] && path[j..][|path[j..]| - 1] == path[|path| - 1]
  {
    assert forall i :: 0 <= i < |path[j..]| ==> path[j..][i] == path[j + i];
  }

  lemma RouteAfter(s: State, s': State, k: Wire, id: CheckId, c: int, w: int, path: seq<NodeId>)
    requires Delivers(s, s', k, id, c) && Route(s, id, c, path) && k.1 !in path && c <= w
    ensures Route(s', id, w, path)
  {
    forall i | 0 <= i < |path| ensures path[i] in s'.reg && VersionAt(s', path[i], id) < w {
      assert path[i] in path;
    }
  }

  /** Once the first node of a route holds the check, the link to the second supplies it. */
  lemma RestOfRoute(s: State, s1: State, k: Wire, id: CheckId, c: int, path: seq<NodeId>) returns (w: int)
    requires Delivers(s, s1, k, id, c) && Route(s, id, c, path) && |path| > 1 && k.1 == path[0] && path[0] !in path[1..]
    ensures w >= c && Supplies(s1, (path[0], path[1]), id, w) && Route(s1, id, w, path[1..])
  {
    w := VersionAt(s1, k.1, id);
    ShorterRoute(s, id, c, path, 1);
    RouteAfter(s, s1, k, id, c, w, path[1..]);
  }

  /** A supply is taken along its route, link by link. */
  lemma {:induction false} Push(s: State, k: Wire, id: CheckId, c: int, path: seq<NodeId>) returns (steps: seq<Step>)
    requires Inv(s) && Supplies(s, k, id, c) && Route(s, id, c, path) && k.1 == path[0]
    ensures IsRun(s, steps) && Careful(s, steps) && AllOnWire(steps)
    ensures VersionAt(After(s, steps), path[|path| - 1], id) >= c
    decreases |path|
  {
    if j: int :| 0 < j < |path| && path[j] == path[0] {
      ShorterRoute(s, id, c, path, j);
      steps := Push(s, k, id, c, path[j..]);
    } else {
      var a := Deliver(s, k, id, c);
      if |path| == 1 {
        steps := a;
      } else {
        var s1 := After(s, a);
        var w := RestOfRoute(s, s1, k, id, c, path);
        var b := Push(s1, (path[0], path[1]), id, w, path[1..]);
        RunAppend(s, a, s1, b);
        steps := a + b;
      }
    }
  }

  /** Some run of replication alone raises a node's sequence of a check. */
  ghost predicate Rises(s: State, n: NodeId, id: CheckId)
  {
    exists steps :: IsRun(s, steps) && Careful(s, steps) && (forall st :: st in steps ==> !Touches(st, id))
                    && VersionAt(After(s, steps), n, id) > VersionAt(s, n, id)
  }

  /** ... exactly when some link can deliver it and a route of lower nodes leads on to the node.  For a
      node that has removed the check this says when it can come back. */
  lemma RisesIff(s: State, n: NodeId, id: CheckId)
    requires Inv(s) && n in s.reg
    ensures Rises(s, n, id) <==> CanRise(s, n, id)
  {
    if steps :| IsRun(s, steps) && Careful(s, steps) && (forall st :: st in steps ==> !Touches(st, id))
                && VersionAt(After(s, steps), n, id) > VersionAt(s, n, id) {
      RoseThenCould(s, steps, n, id);
    }
    if CanRise(s, n, id) { RiseIsRun(s, n, id); }
  }

  lemma RiseIsRun(s: State, n: NodeId, id: CheckId)
    requires Inv(s) && CanRise(s, n, id)
    ensures Rises(s, n, id)
  {
    var k, c, path :| RisesVia(s, n, id, k, c, path);
    var steps := Push(s, k, id, c, path);
    assert VersionAt(s, path[|path| - 1], id) < c;
  }
}
