/** Replication comes to rest: whatever the order in which the links of a whole cluster get on with
    their work, without edits and failures all work ends, and then the nodes of a full mesh agree. */
module ClusterQuiet {
  import opened Options
  import opened ClusterLog
  import opened ClusterChannel
  import opened ClusterLink
  import opened Cluster
  import opened ClusterLaws
  import opened ClusterReturn

  /** No job, and everything produced is announced and acknowledged. */
  predicate Quiet(s: State, k: Wire)
    requires WellFormed(s) && k in s.link
  {
    s.link[k].phase.Idle? && Settled(s, k)
  }

  predicate AllQuiet(s: State)
    requires WellFormed(s)
  {
    forall k :: k in s.link ==> Quiet(s, k)
  }

  /** A step that gets on with the work of its link: a heartbeat with news, a job that asks for
      something, an answer, a document, the end of a job. A job that asked for nothing does nothing. */
  predicate Useful(s: State, st: Step)
    requires WellFormed(s)
  {
    && OnWire(st) && Enabled(s, st)
    && match st
       case Beat(k, seen) => seen > s.link[k].channel.available
       case Begin(k, _) => s.link[k].channel.prevFetched != s.link[k].channel.available
       case Lose(k, _) => s.link[k].phase.r.end == 0
       case _ => true
  }

  /** While a link is not quiet there is such a step. */
  lemma WorkGoesOn(s: State, k: Wire) returns (st: Step)
    requires Inv(s) && k in s.link && !Quiet(s, k)
    ensures Useful(s, st)
  {
    assert LinkInv(ViewOf(s, k));
    var l := s.link[k];
    match l.phase
    case Idle => st := if l.channel.available < s.produced[k.0] then Beat(k, s.produced[k.0]) else Begin(k, 0);
    case Asked(r) => st := if r.end != 0 then Answer(k) else Lose(k, Outcome(0, false));
    case Replied(_, docs, _) => st := if docs == [] then Complete(k) else Process(k);
    case Done(_, _) => st := Record(k);
  }

  // ---------- what is left to do on one link ----------

  /** What is not announced, not fetched and not acknowledged. */
  function JobsLeft(l: Link, produced: nat): int
  {
    var c := l.channel;
    produced - c.available + 2 * (produced - c.fetched) + if c.prevFetched < c.fetched then 1 else 0
  }

  /** What is left of the job in flight, or of the next one. */
  function StepsLeft(l: Link): int
  {
    match l.phase
    case Idle => |l.hist| + 4
    case Asked(r) => if r.end != 0 then |l.hist| + 3 else |l.hist| + 6
    case Replied(_, docs, _) => |docs| + 2
    case Done(_, o) => if o.success then 1 else |l.hist| + 5
  }

  predicate LessLeft(l': Link, l: Link, produced: nat)
  {
    JobsLeft(l', produced) < JobsLeft(l, produced)
    || (JobsLeft(l', produced) == JobsLeft(l, produced) && StepsLeft(l') < StepsLeft(l))
  }

  lemma {:induction false} CarriedLength<K>(log: seq<Entry<K>>, has: set<K>)
    ensures |Carried(log, has)| <= |log|
  {
    if log != [] { CarriedLength(log[..|log| - 1], has); }
  }

  lemma ServeLess(l: Link, produced: nat, reg: Registry, self: set<CheckId>)
    requires l.phase.Asked? && l.phase.r.end != 0 && l.dropped <= |l.hist|
    ensures LessLeft(Serve(l, reg, self), l, produced)
  {
    var rest := Eaten(Live(l), l.phase.r.prev);
    CarriedLength(rest[..Upto(rest, l.phase.r.end)], reg.Keys - self);
  }

  lemma RecordLess(l: Link, produced: nat, self: set<CheckId>)
    requires LinkOk(l, produced, self) && l.phase.Done?
    ensures LessLeft(FinishJob(l), l, produced)
  {}

  /** Every such step but an acceptance leaves less to do on its link, and changes nothing else. */
  lemma UsefulLess(s: State, st: Step)
    requires Inv(s) && Useful(s, st) && !st.Process?
    ensures Do(s, st) == SetLink(s, st.k, Do(s, st).link[st.k])
    ensures LessLeft(Do(s, st).link[st.k], s.link[st.k], s.produced[st.k.0])
  {
    WireShape(s, st);
    var k := st.k;
    assert LinkInv(ViewOf(s, k));
    match st {
      case Answer(_) => ServeLess(s.link[k], s.produced[k.0], s.reg[k.0], s.self);
      case Record(_) => RecordLess(s.link[k], s.produced[k.0], s.self);
      case Begin(_, batchSize) => NextRequestIs(s.link[k].channel, batchSize);
      case _ =>
    }
  }

  lemma RefusedLess(s: State, k: Wire)
    requires Inv(s) && Enabled(s, Process(k)) && !Accepts(s, Process(k), k.1, s.link[k].phase.docs[0].id)
    ensures Do(s, Process(k)) == SetLink(s, k, Do(s, Process(k)).link[k])
    ensures LessLeft(Do(s, Process(k)).link[k], s.link[k], s.produced[k.0])
  {
    InvPositive(s);
    var d := s.link[k].phase.docs[0];
    assert ApplyDoc(s, k.1, d) == s;
  }

  // ---------- what is left to do in a cluster ----------

  ghost function AllJobs(s: State): set<(Wire, int)>
    requires WellFormed(s)
  {
    set k, i: int | k in s.link && 0 <= i < JobsLeft(s.link[k], s.produced[k.0]) :: (k, i)
  }

  ghost function AllSteps(s: State): set<(Wire, int)>
  {
    set k, i: int | k in s.link && 0 <= i < StepsLeft(s.link[k]) :: (k, i)
  }

  lemma SmallerSet<T>(a: set<T>, b: set<T>, x: T)
    requires a <= b && x in b && x !in a
    ensures |a| < |b|
  {
    SubsetSize(a, b - {x});
  }

  /** Less to do on one link is less to do in the cluster. */
  lemma LessInAll(s: State, k: Wire, l: Link)
    requires WellFormed(s) && k in s.link && LessLeft(l, s.link[k], s.produced[k.0]) && StepsLeft(l) >= 0
    requires JobsLeft(l, s.produced[k.0]) >= 0
    ensures WellFormed(SetLink(s, k, l))
    ensures var s' := SetLink(s, k, l);
            |AllJobs(s')| < |AllJobs(s)| || (AllJobs(s') == AllJobs(s) && |AllSteps(s')| < |AllSteps(s)|)
  {
    var s', p := SetLink(s, k, l), s.produced[k.0];
    assert forall j :: j in s'.link && j != k ==> s'.link[j] == s.link[j];
    if JobsLeft(l, p) < JobsLeft(s.link[k], p) {
      SmallerSet(AllJobs(s'), AllJobs(s), (k, JobsLeft(l, p)));
    } else {
      SmallerSet(AllSteps(s'), AllSteps(s), (k, StepsLeft(l)));
    }
  }

  // ---------- what the nodes have not yet got ----------

  /** Every check in a registry or a reply is, at its sequence, among some pairs. */
  ghost predicate Around(s: State, ps: set<(CheckId, int)>)
  {
    && (forall n, id :: n in s.reg && id in s.reg[n] ==> (id, s.reg[n][id].version) in ps)
    && (forall k :: k in s.link ==> DocsAround(s.link[k], ps))
  }

  ghost predicate DocsAround(l: Link, ps: set<(CheckId, int)>)
  {
    l.phase.Replied? ==> forall j :: 0 <= j < |l.phase.docs| ==> (l.phase.docs[j].id, l.phase.docs[j].check.version) in ps
  }

  ghost function Pairs(s: State): (ps: set<(CheckId, int)>)
    ensures Around(s, ps)
  {
    (set n, id | n in s.reg && id in s.reg[n] :: (id, s.reg[n][id].version))
    + (set k, d | k in s.link && s.link[k].phase.Replied? && d in s.link[k].phase.docs :: (d.id, d.check.version))
  }

  /** The sequences around that a node is below. */
  ghost function Missing(s: State, ps: set<(CheckId, int)>): set<(NodeId, (CheckId, int))>
  {
    set n, x | n in s.reg && x in ps && VersionAt(s, n, x.0) < x.1 :: (n, x)
  }

  lemma ServeAround(l: Link, reg: Registry, self: set<CheckId>, ps: set<(CheckId, int)>)
    requires l.phase.Asked? && l.dropped <= |l.hist| && forall id :: id in reg ==> (id, reg[id].version) in ps
    ensures DocsAround(Serve(l, reg, self), ps)
  {
    var docs := Serve(l, reg, self).phase.docs;
    var ids := Reply(Eaten(Live(l), l.phase.r.prev), l.phase.r.end, reg.Keys - self);
    forall j | 0 <= j < |docs| ensures (docs[j].id, docs[j].check.version) in ps {
      assert ids[j] in ids;
      assert docs[j] == Doc(ids[j], reg[ids[j]]);
    }
  }

  lemma TakeAround(l: Link, ps: set<(CheckId, int)>)
    requires l.phase.Replied? && l.phase.docs != [] && DocsAround(l, ps)
    ensures DocsAround(Take(l), ps)
  {}

  lemma RepliesAround(s: State, st: Step, ps: set<(CheckId, int)>, k: Wire)
    requires WellFormed(s) && PositiveDocs(s) && Enabled(s, st) && OnWire(st) && Around(s, ps) && k in s.link
    ensures k in Do(s, st).link && DocsAround(Do(s, st).link[k], ps)
  {
    assert DocsAround(s.link[k], ps);
    if st.Process? {
      ProcessLink(s, st.k, k);
      if k == st.k { TakeAround(s.link[k], ps); }
    } else {
      WireShape(s, st);
      if st == Answer(k) { ServeAround(s.link[k], s.reg[k.0], s.self, ps); }
    }
  }

  /** Replication makes no sequence that was not around. */
  lemma AroundKept(s: State, st: Step, ps: set<(CheckId, int)>)
    requires WellFormed(s) && PositiveDocs(s) && Enabled(s, st) && OnWire(st) && Around(s, ps)
    ensures Around(Do(s, st), ps)
  {
    SameNodes(s, st);
    if st.Process? {
      assert DocsAround(s.link[st.k], ps);
      ProcessIsApply(s, st.k);
      ApplyShape(s, st.k.1, s.link[st.k].phase.docs[0]);
    } else {
      WireShape(s, st);
    }
    forall k | k in Do(s, st).link ensures DocsAround(Do(s, st).link[k], ps) {
      RepliesAround(s, st, ps, k);
    }
  }

  lemma MissingKept(s: State, st: Step, ps: set<(CheckId, int)>)
    requires WellFormed(s) && PositiveDocs(s) && Enabled(s, st) && OnWire(st)
    ensures Missing(Do(s, st), ps) <= Missing(s, ps)
  {
    SameNodes(s, st);
    forall n, x | (n, x) in Missing(Do(s, st), ps) ensures (n, x) in Missing(s, ps) {
      AcceptRaises(s, st, n, x.0);
    }
  }

  lemma AcceptedIsGot(s: State, k: Wire, ps: set<(CheckId, int)>)
    requires Inv(s) && Enabled(s, Process(k)) && Around(s, ps) && Accepts(s, Process(k), k.1, s.link[k].phase.docs[0].id)
    ensures |Missing(Do(s, Process(k)), ps)| < |Missing(s, ps)|
  {
    InvPositive(s);
    MissingKept(s, Process(k), ps);
    assert DocsAround(s.link[k], ps);
    var d := s.link[k].phase.docs[0];
    ProcessShape(s, k, k.1, d.id);
    SmallerSet(Missing(Do(s, Process(k)), ps), Missing(s, ps), (k.1, (d.id, d.check.version)));
  }

  // ---------- all work ends ----------

  /** Fewer acceptances to come, or as many and less to do. */
  ghost predicate LessWork(s': State, s: State, ps: set<(CheckId, int)>)
    requires WellFormed(s') && WellFormed(s)
  {
    || |Missing(s', ps)| < |Missing(s, ps)|
    || (|Missing(s', ps)| == |Missing(s, ps)|
        && (|AllJobs(s')| < |AllJobs(s)| || (|AllJobs(s')| == |AllJobs(s)| && |AllSteps(s')| < |AllSteps(s)|)))
  }

  lemma LinkLess(s: State, k: Wire, l: Link, ps: set<(CheckId, int)>)
    requires Inv(s) && k in s.link && Inv(SetLink(s, k, l)) && LessLeft(l, s.link[k], s.produced[k.0])
    ensures LessWork(SetLink(s, k, l), s, ps)
  {
    var s' := SetLink(s, k, l);
    assert LinkInv(ViewOf(s', k));
    LessInAll(s, k, l);
    assert Missing(s', ps) == Missing(s, ps);
  }

  lemma UsefulStepLess(s: State, st: Step, ps: set<(CheckId, int)>)
    requires Inv(s) && Useful(s, st) && Around(s, ps)
    ensures Inv(Do(s, st)) && Around(Do(s, st), ps) && LessWork(Do(s, st), s, ps)
  {
    InvPositive(s);
    StepKeeps(s, st);
    AroundKept(s, st, ps);
    if !st.Process? {
      UsefulLess(s, st);
      LinkLess(s, st.k, Do(s, st).link[st.k], ps);
    } else if Accepts(s, st, st.k.1, s.link[st.k].phase.docs[0].id) {
      AcceptedIsGot(s, st.k, ps);
    } else {
      RefusedLess(s, st.k);
      LinkLess(s, st.k, Do(s, st).link[st.k], ps);
    }
  }

  /** What is done when, as long as there is work: any useful step. */
  type Schedule = (nat, State) -> Step

  ghost predicate GetsOn(pick: Schedule)
  {
    forall i, s :: Inv(s) && !AllQuiet(s) ==> Useful(s, pick(i, s))
  }

  /** The steps that a schedule takes from its i-th on. */
  ghost predicate Follows(pick: Schedule, i: nat, s: State, steps: seq<Step>)
    requires IsRun(s, steps)
    decreases steps
  {
    steps != [] ==> steps[0] == pick(i, s) && Follows(pick, i + 1, Do(s, steps[0]), steps[1..])
  }

  /** Every schedule that gets on with the work comes to a state in which no link has any. */
  lemma {:induction false} WorkEnds(pick: Schedule, i: nat, s: State, ps: set<(CheckId, int)>) returns (steps: seq<Step>)
    requires Inv(s) && GetsOn(pick) && Around(s, ps)
    ensures IsRun(s, steps) && Careful(s, steps) && AllOnWire(steps) && Follows(pick, i, s, steps)
    ensures WellFormed(After(s, steps)) && AllQuiet(After(s, steps))
    decreases |Missing(s, ps)|, |AllJobs(s)|, |AllSteps(s)|
  {
    if AllQuiet(s) { return []; }
    var st := pick(i, s);
    assert Useful(s, st);
    UsefulStepLess(s, st, ps);
    var rest := WorkEnds(pick, i + 1, Do(s, st), ps);
    RunCons(s, st, rest);
    steps := [st] + rest;
    assert steps[1..] == rest;
  }

  /** There is such a schedule. */
  lemma WorkCanGoOn(s: State)
    requires Inv(s) && !AllQuiet(s)
    ensures exists st :: Useful(s, st)
  {
    var k :| k in s.link && !Quiet(s, k);
    var st := WorkGoesOn(s, k);
  }

  ghost function Next(s: State): Step
    requires Inv(s) && !AllQuiet(s)
  {
    WorkCanGoOn(s);
    var st :| Useful(s, st);
    st
  }

  lemma SomeScheduleGetsOn() returns (pick: Schedule)
    ensures GetsOn(pick)
  {
    pick := (i: nat, s: State) => if Inv(s) && !AllQuiet(s) then Next(s) else Purge(0, 0);
  }

  // ---------- and the nodes agree ----------

  lemma SameAnnounced(l: Link, l': Link, id: CheckId, v: int)
    requires AnnouncedSince(l, id, v) && l'.hist == l.hist && l'.said == l.said && l'.cut == l.cut
    ensures AnnouncedSince(l', id, v)
  {
    var i :| CutOf(l, id) <= i < |l.hist| && i < |l.said| && l.hist[i].key == id && l.said[i].version >= v;
    assert l'.hist[i].key == id;
  }

  lemma AppendAnnounces(l: Link, produced: nat, id: CheckId, c: Check, k: CheckId, w: int)
    requires LogOk(l, produced) && ((k == id && w <= c.version) || AnnouncedSince(l, k, w))
    ensures AnnouncedSince(Append(l, id, c, produced + 1), k, w)
  {
    var l' := Append(l, id, c, produced + 1);
    if k == id && w <= c.version {
      assert l'.hist[|l.hist|].key == k && l'.said[|l.hist|] == c;
    } else {
      var i :| CutOf(l, k) <= i < |l.hist| && i < |l.said| && l.hist[i].key == k && l.said[i].version >= w;
      assert l'.hist[i] == l.hist[i] && l'.said[i] == l.said[i];
    }
  }

  lemma StoreTold(s: State, n: NodeId, id: CheckId, c: Check, j: Wire, k: CheckId)
    requires Inv(s) && n in s.reg && id !in s.self && c.version > 0 && j in s.link
    requires VersionAt(s, j.0, k) > 0 ==> ToldSince(s, j, k)
    ensures j in Store(s, n, id, c).link
    ensures VersionAt(Store(s, n, id, c), j.0, k) > 0 ==> ToldSince(Store(s, n, id, c), j, k)
  {
    assert LinkInv(ViewOf(s, j));
    if j.0 == n && VersionAt(Store(s, n, id, c), j.0, k) > 0 {
      AppendAnnounces(s.link[j], s.produced[n], id, c, k, VersionAt(Store(s, n, id, c), j.0, k));
    }
  }

  lemma ApplyTold(s: State, k: Wire, j: Wire, id: CheckId)
    requires Inv(s) && Enabled(s, Process(k)) && j in s.link && (VersionAt(s, j.0, id) > 0 ==> ToldSince(s, j, id))
    ensures var s1 := ApplyDoc(s, k.1, s.link[k].phase.docs[0]);
            j in s1.link && (VersionAt(s1, j.0, id) > 0 ==> ToldSince(s1, j, id))
  {
    assert LinkInv(ViewOf(s, k));
    var d := s.link[k].phase.docs[0];
    StoreTold(s, k.1, d.id, d.check, j, id);
  }

  lemma SetTold(s: State, k: Wire, l: Link, j: Wire, id: CheckId)
    requires k in s.link && j in s.link && (VersionAt(s, j.0, id) > 0 ==> ToldSince(s, j, id))
    requires l.hist == s.link[k].hist && l.said == s.link[k].said && l.cut == s.link[k].cut
    ensures VersionAt(SetLink(s, k, l), j.0, id) > 0 ==> ToldSince(SetLink(s, k, l), j, id)
  {
    if j == k && VersionAt(s, j.0, id) > 0 { SameAnnounced(s.link[k], l, id, VersionAt(s, j.0, id)); }
  }

  lemma StepTold(s: State, st: Step, j: Wire, id: CheckId)
    requires Inv(s) && Enabled(s, st) && OnWire(st) && j in s.link && (VersionAt(s, j.0, id) > 0 ==> ToldSince(s, j, id))
    ensures j in Do(s, st).link && (VersionAt(Do(s, st), j.0, id) > 0 ==> ToldSince(Do(s, st), j, id))
  {
    if st.Process? {
      var s1 := ApplyDoc(s, st.k.1, s.link[st.k].phase.docs[0]);
      ApplyTold(s, st.k, j, id);
      ApplyDocLink(s, st.k, s.link[st.k].phase.docs[0]);
      SetTold(s1, st.k, Take(s1.link[st.k]), j, id);
    } else {
      WireShape(s, st);
      SetTold(s, st.k, Do(s, st).link[st.k], j, id);
    }
  }

  /** Replication keeps every announced check announced. */
  lemma ToldKept(s: State, st: Step, id: CheckId)
    requires Inv(s) && Enabled(s, st) && OnWire(st) && AllTold(s, id) && SameShape(s, Do(s, st))
    ensures AllTold(Do(s, st), id)
  {
    forall j | j in Do(s, st).link && VersionAt(Do(s, st), j.0, id) > 0 ensures ToldSince(Do(s, st), j, id) {
      StepTold(s, st, j, id);
    }
  }

  /** Nobody's sequence goes down, none is made up, and what was announced stays so. */
  ghost predicate Carries(s: State, e: State, ps: set<(CheckId, int)>)
  {
    && Inv(e) && SameShape(s, e) && e.self == s.self && Around(e, ps)
    && (forall n, id :: n in s.reg ==> VersionAt(e, n, id) >= VersionAt(s, n, id))
    && (forall id :: AllTold(s, id) ==> AllTold(e, id))
  }

  lemma CarriesOn(s: State, m: State, e: State, ps: set<(CheckId, int)>)
    requires Carries(s, m, ps) && Carries(m, e, ps)
    ensures Carries(s, e, ps)
  {
    forall n, id | n in s.reg ensures VersionAt(e, n, id) >= VersionAt(s, n, id) {
      assert VersionAt(m, n, id) >= VersionAt(s, n, id);
    }
  }

  lemma SameSelf(s: State, st: Step)
    requires WellFormed(s) && Enabled(s, st)
    ensures Do(s, st).self == s.self
  {}

  lemma StepCarries(s: State, st: Step, ps: set<(CheckId, int)>)
    requires Inv(s) && Enabled(s, st) && OnWire(st) && Around(s, ps)
    ensures Carries(s, Do(s, st), ps)
  {
    InvPositive(s);
    StepKeeps(s, st);
    SameNodes(s, st);
    SameSelf(s, st);
    AroundKept(s, st, ps);
    forall n, id | n in s.reg ensures VersionAt(Do(s, st), n, id) >= VersionAt(s, n, id) { AcceptRaises(s, st, n, id); }
    forall id | AllTold(s, id) ensures AllTold(Do(s, st), id) { ToldKept(s, st, id); }
  }

  lemma {:induction false} RunCarries(s: State, steps: seq<Step>, ps: set<(CheckId, int)>)
    requires Inv(s) && IsRun(s, steps) && AllOnWire(steps) && Around(s, ps)
    ensures Carries(s, After(s, steps), ps)
    decreases steps
  {
    if steps != [] {
      assert OnWire(steps[0]);
      var s' := Do(s, steps[0]);
      StepCarries(s, steps[0], ps);
      RunCarries(s', steps[1..], ps);
      CarriesOn(s, s', After(s', steps[1..]), ps);
    }
  }

  /** From every state of a full mesh, whatever the schedule, replication alone comes to rest with all
      changelogs empty; and of every replicated check that no node has removed since another announced
      what it holds, all nodes have one sequence, at least what each had, and one that was around. */
  lemma ComesToAgree(pick: Schedule, s: State) returns (steps: seq<Step>)
    requires Inv(s) && FullMesh(s) && GetsOn(pick)
    ensures IsRun(s, steps) && Careful(s, steps) && AllOnWire(steps) && Follows(pick, 0, s, steps)
    ensures var e := After(s, steps);
            WellFormed(e) && AllQuiet(e) && forall k :: k in e.link ==> e.link[k].dropped == |e.link[k].hist|
    ensures forall id, n, m :: id !in s.self && AllTold(s, id) && n in s.reg && m in s.reg ==>
              && VersionAt(After(s, steps), n, id) == VersionAt(After(s, steps), m, id) >= VersionAt(s, m, id)
              && (VersionAt(After(s, steps), n, id) > 0 ==> (id, VersionAt(After(s, steps), n, id)) in Pairs(s))
  {
    steps := WorkEnds(pick, 0, s, Pairs(s));
    RunCarries(s, steps, Pairs(s));
    var e := After(s, steps);
    forall k | k in e.link ensures e.link[k].dropped == |e.link[k].hist| {
      assert Quiet(e, k);
      SettledIsEmpty(e, k);
    }
    forall id, n, m | id !in s.self && AllTold(s, id) && n in s.reg && m in s.reg
      ensures VersionAt(e, n, id) == VersionAt(e, m, id) >= VersionAt(s, m, id)
      ensures VersionAt(e, n, id) > 0 ==> (id, VersionAt(e, n, id)) in Pairs(s)
    {
      SameEverywhere(e, id, n, m);
    }
  }
}
