/** Two runs of a cluster of two nodes: one in which a backdated edit loses a delivery, and one in
    which a purged check comes back. */
module ClusterExamples {
  import opened ClusterLog
  import opened ClusterChannel
  import opened ClusterLink
  import opened Cluster
  import opened ClusterLaws

  const THERE: Wire := (0, 1)
  const BACK: Wire := (1, 0)

  /** Nodes 0 and 1, each with a counter, a registry and a link to the other. */
  function Two(produced: (nat, nat), reg: (Registry, Registry), link: (Link, Link)): (s: State)
    ensures WellFormed(s) && FullMesh(s)
  {
    State({}, map[0 := produced.0, 1 := produced.1], map[0 := reg.0, 1 := reg.1],
          map[THERE := link.0, BACK := link.1])
  }

  /** A state of the two nodes, told by its parts. */
  ghost predicate Pair(s: State, produced: (nat, nat), reg: (Registry, Registry), link: (Link, Link))
  {
    && WellFormed(s) && s.self == {} && s.reg.Keys == {0, 1} && s.link.Keys == {THERE, BACK}
    && s.produced[0] == produced.0 && s.produced[1] == produced.1 && s.reg[0] == reg.0 && s.reg[1] == reg.1
    && s.link[THERE] == link.0 && s.link[BACK] == link.1
  }

  lemma TwoIsPair(produced: (nat, nat), reg: (Registry, Registry), link: (Link, Link))
    ensures Pair(Two(produced, reg, link), produced, reg, link)
  {}

  /** A step on one of the two links, other than processing. */
  lemma WirePair(s: State, produced: (nat, nat), reg: (Registry, Registry), link: (Link, Link), st: Step)
    requires Pair(s, produced, reg, link) && Enabled(s, st) && OnWire(st) && !st.Process?
    ensures st.k == THERE ==> Pair(Do(s, st), produced, reg, (Do(s, st).link[THERE], link.1))
    ensures st.k == BACK ==> Pair(Do(s, st), produced, reg, (link.0, Do(s, st).link[BACK]))
  {
    WireShape(s, st);
  }

  lemma StoreParts(s: State, n: NodeId, id: CheckId, c: Check)
    requires WellFormed(s) && n in s.reg && id !in s.self && c.version > 0
    ensures var s' := Store(s, n, id, c);
            && WellFormed(s') && s'.self == s.self && s'.link.Keys == s.link.Keys
            && s'.produced == s.produced[n := s.produced[n] + 1] && s'.reg == s.reg[n := s.reg[n][id := c]]
            && forall k :: k in s.link ==>
                 s'.link[k] == if k.0 == n then Append(s.link[k], id, c, s.produced[n] + 1) else s.link[k]
  {}

  lemma AcceptIsStore(s: State, k: Wire, d: Doc)
    requires WellFormed(s) && Enabled(s, Process(k)) && s.link[k].phase.docs[0] == d && d.id !in s.self
    requires d.check.version > 0 && VersionAt(s, k.1, d.id) < d.check.version
    ensures Do(s, Process(k)) == SetLink(Store(s, k.1, d.id, d.check), k, Take(s.link[k]))
  {
    ApplyDocLink(s, k, d);
  }

  /** What an acceptance changes. */
  ghost predicate Accepted(s: State, s': State, k: Wire, d: Doc)
    requires k in s.link && k.1 in s.reg && k.1 in s.produced && s.link[k].phase.Replied? && s.link[k].phase.docs != []
  {
    && WellFormed(s') && s'.self == s.self && s'.link.Keys == s.link.Keys
    && s'.produced == s.produced[k.1 := s.produced[k.1] + 1] && s'.reg == s.reg[k.1 := s.reg[k.1][d.id := d.check]]
    && s'.link[k] == Take(s.link[k])
    && forall j :: j in s.link && j != k ==>
         s'.link[j] == if j.0 == k.1 then Append(s.link[j], d.id, d.check, s.produced[k.1] + 1) else s.link[j]
  }

  lemma AcceptParts(s: State, k: Wire, d: Doc)
    requires WellFormed(s) && Enabled(s, Process(k)) && s.link[k].phase.docs[0] == d && d.id !in s.self
    requires d.check.version > 0 && VersionAt(s, k.1, d.id) < d.check.version
    ensures Accepted(s, Do(s, Process(k)), k, d)
  {
    StoreParts(s, k.1, d.id, d.check);
    AcceptIsStore(s, k, d);
  }

  /** Node 0 accepts the first document of the reply from node 1. */
  lemma AcceptAtZero(s: State, s': State, produced: (nat, nat), reg: (Registry, Registry), link: (Link, Link), d: Doc)
    requires Pair(s, produced, reg, link) && link.1.phase.Replied? && link.1.phase.docs != []
    requires Accepted(s, s', BACK, d)
    ensures Pair(s', (produced.0 + 1, produced.1), (reg.0[d.id := d.check], reg.1),
                 (Append(link.0, d.id, d.check, produced.0 + 1), Take(link.1)))
  {}

  /** Node 1 accepts the first document of the reply from node 0. */
  lemma AcceptAtOne(s: State, s': State, produced: (nat, nat), reg: (Registry, Registry), link: (Link, Link), d: Doc)
    requires Pair(s, produced, reg, link) && link.0.phase.Replied? && link.0.phase.docs != []
    requires Accepted(s, s', THERE, d)
    ensures Pair(s', (produced.0, produced.1 + 1), (reg.0, reg.1[d.id := d.check]),
                 (Take(link.0), Append(link.1, d.id, d.check, produced.1 + 1)))
  {}

  lemma ConsRun(s: State, st: Step, rest: seq<Step>)
    requires WellFormed(s) && Enabled(s, st) && IsRun(Do(s, st), rest)
    ensures IsRun(s, [st] + rest) && After(s, [st] + rest) == After(Do(s, st), rest)
  {
    assert ([st] + rest)[1..] == rest;
  }

  /** One entry that announced one check, and nothing fetched. */
  function OneEntry(id: CheckId, c: Check): Link { NEW_LINK.(hist := [Entry(id, 1)], said := [c]) }

  lemma OneEntryInit(id: CheckId, c: Check)
    requires c.version > 0
    ensures LogOk(OneEntry(id, c), 1) && Held(OneEntry(id, c), map[id := c], {})
    ensures Told(OneEntry(id, c), map[id := c], {})
  {
    assert LastAt(OneEntry(id, c), id, c, 0);
    assert SaidOf(OneEntry(id, c), id, c);
  }

  lemma NewInit()
    ensures LogOk(NEW_LINK, 0) && Held(NEW_LINK, map[], {}) && Told(NEW_LINK, map[], {})
  {}

  // ---------- one link, step by step ----------

  /** Asked for the one entry, or answered. */
  function AskedOnce(id: CheckId, c: Check): Link
  {
    OneEntry(id, c).(channel := Channel(0, 0, 1, 0), phase := Asked(Request(0, 1)))
  }

  lemma AskOnce(id: CheckId, c: Check)
    ensures Start(Announced(OneEntry(id, c), 1), 0) == AskedOnce(id, c)
  {}

  lemma ServeHeld(id: CheckId, c: Check)
    ensures Serve(AskedOnce(id, c), map[id := c], {})
         == AskedOnce(id, c).(phase := Replied(Request(0, 1), [Doc(id, c)], 0))
  {
    var l := AskedOnce(id, c);
    var log := [Entry(id, 1)];
    assert Live(l) == log && Eaten(log, 0) == log;
    var has := map[id := c].Keys - {};
    OneReply(id, has);
    assert id in has;
    OneDoc(id, map[id := c]);
  }

  lemma ServeGone(id: CheckId, c: Check)
    ensures Serve(AskedOnce(id, c), map[], {}) == AskedOnce(id, c).(phase := Replied(Request(0, 1), [], 0))
  {
    var l := AskedOnce(id, c);
    var log := [Entry(id, 1)];
    var none: Registry := map[];
    OneReply(id, none.Keys - {});
    assert Live(l) == log && Eaten(log, 0) == log;
  }

  lemma OneReply(id: CheckId, has: set<CheckId>)
    ensures Upto([Entry(id, 1)], 1) == 1 && Upto([Entry(id, 1)], 0) == 0
    ensures Reply([Entry(id, 1)], 1, has) == if id in has then [id] else []
  {
    var log := [Entry(id, 1)];
    assert log[1..] == [] && log[..1] == log && log[..0] == [];
    assert Upto(log[1..], 1) == 0;
    assert Carried(log[..0], has) == [];
    assert Carried(log, has) == if id in has then [id] else [];
  }

  lemma OneDoc(id: CheckId, reg: Registry)
    requires id in reg
    ensures ToDocs([id], reg) == [Doc(id, reg[id])]
  {
    assert [id][1..] == [];
  }

  /** The second request acknowledges the entry, and the answer drops it. */
  function Acknowledging(id: CheckId, c: Check, heard: set<Doc>, batch: int): Link
  {
    OneEntry(id, c).(channel := Channel(0, 1, 1, batch), phase := Asked(Request(1, 1)), heard := heard, recent := heard)
  }

  lemma ServeDropsIt(id: CheckId, c: Check, heard: set<Doc>, batch: int, reg: Registry)
    ensures Serve(Acknowledging(id, c, heard, batch), reg, {})
         == Acknowledging(id, c, heard, batch).(dropped := 1, phase := Replied(Request(1, 1), [], 0))
  {
    var l := Acknowledging(id, c, heard, batch);
    var log := [Entry(id, 1)];
    assert Live(l) == log;
    OneReply(id, {});
    assert Eaten(log, 1) == [];
    assert Reply([], 1, reg.Keys - {}) == [];
  }

  // ---------- a lost delivery ----------

  const FIRST := Check(5, false)

  ghost predicate LossState(s: State, reg: Registry, l: Link, back: Link)
  {
    Pair(s, (1, 0), (reg, map[]), (l, back))
  }

  /** The other link, once node 0 has removed the check. */
  function Removed(id: CheckId): Link { CutOff(NEW_LINK, id) }

  lemma LossInit(id: CheckId)
    ensures Init(Two((1, 0), (map[id := FIRST], map[]), (OneEntry(id, FIRST), NEW_LINK)))
  {
    OneEntryInit(id, FIRST);
    NewInit();
  }

  function Lost(id: CheckId): Link
  {
    Acknowledging(id, FIRST, {}, 0).(dropped := 1, phase := Replied(Request(1, 1), [], 0))
  }

  const LOSS_END := [Begin(THERE, 0)] + ([Answer(THERE)] + [])

  /** The next request acknowledges the entry. */
  lemma LossEnds(s: State, id: CheckId)
    requires LossState(s, map[], OneEntry(id, FIRST).(channel := Channel(0, 1, 1, 0)), Removed(id))
    ensures IsRun(s, LOSS_END) && LossState(After(s, LOSS_END), map[], Lost(id), Removed(id))
  {
    var l := OneEntry(id, FIRST).(channel := Channel(0, 1, 1, 0));
    WirePair(s, (1, 0), (map[], map[]), (l, Removed(id)), Begin(THERE, 0));
    var s1 := Do(s, Begin(THERE, 0));
    WirePair(s1, (1, 0), (map[], map[]), (Acknowledging(id, FIRST, {}, 0), Removed(id)), Answer(THERE));
    ServeDropsIt(id, FIRST, {}, 0, map[]);
    ConsRun(s1, Answer(THERE), []);
    ConsRun(s, Begin(THERE, 0), [Answer(THERE)] + []);
  }

  const LOSS_MIDDLE := [Complete(THERE)] + ([Record(THERE)] + LOSS_END)

  lemma LossGoesOn(s: State, id: CheckId)
    requires LossState(s, map[], AskedOnce(id, FIRST).(phase := Replied(Request(0, 1), [], 0)), Removed(id))
    ensures IsRun(s, LOSS_MIDDLE) && LossState(After(s, LOSS_MIDDLE), map[], Lost(id), Removed(id))
  {
    var l := AskedOnce(id, FIRST).(phase := Replied(Request(0, 1), [], 0));
    WirePair(s, (1, 0), (map[], map[]), (l, Removed(id)), Complete(THERE));
    var s1 := Do(s, Complete(THERE));
    WirePair(s1, (1, 0), (map[], map[]), (Close(l), Removed(id)), Record(THERE));
    LossEnds(Do(s1, Record(THERE)), id);
    ConsRun(s1, Record(THERE), LOSS_END);
    ConsRun(s, Complete(THERE), [Record(THERE)] + LOSS_END);
  }

  function LossBreak(id: CheckId): seq<Step> { [Edit(0, id, 0)] + ([Answer(THERE)] + LOSS_MIDDLE) }

  lemma ForgetPair(s: State, id: CheckId, l: Link)
    requires LossState(s, map[id := FIRST], l, NEW_LINK)
    ensures Backdated(s, 0, id, 0) && LossState(Do(s, Edit(0, id, 0)), map[], l, Removed(id))
  {
    assert map[id := FIRST] - {id} == map[];
  }

  /** The edit back to sequence 0 takes the check away, and the reply is empty. */
  lemma LossBreaks(s: State, id: CheckId)
    requires LossState(s, map[id := FIRST], AskedOnce(id, FIRST), NEW_LINK)
    ensures IsRun(s, LossBreak(id)) && LossState(After(s, LossBreak(id)), map[], Lost(id), Removed(id))
  {
    ForgetPair(s, id, AskedOnce(id, FIRST));
    var s1 := Do(s, Edit(0, id, 0));
    WirePair(s1, (1, 0), (map[], map[]), (AskedOnce(id, FIRST), Removed(id)), Answer(THERE));
    ServeGone(id, FIRST);
    LossGoesOn(Do(s1, Answer(THERE)), id);
    ConsRun(s1, Answer(THERE), LOSS_MIDDLE);
    ConsRun(s, Edit(0, id, 0), [Answer(THERE)] + LOSS_MIDDLE);
  }

  /** The entry is announced and asked for. */
  function AskSteps(k: Wire, rest: seq<Step>): seq<Step> { [Beat(k, 1)] + ([Begin(k, 0)] + rest) }

  lemma LossRuns(s: State, id: CheckId)
    requires LossState(s, map[id := FIRST], OneEntry(id, FIRST), NEW_LINK)
    ensures IsRun(s, AskSteps(THERE, LossBreak(id)))
    ensures LossState(After(s, AskSteps(THERE, LossBreak(id))), map[], Lost(id), Removed(id))
  {
    var reg: (Registry, Registry) := (map[id := FIRST], map[]);
    WirePair(s, (1, 0), reg, (OneEntry(id, FIRST), NEW_LINK), Beat(THERE, 1));
    var s1 := Do(s, Beat(THERE, 1));
    WirePair(s1, (1, 0), reg, (Announced(OneEntry(id, FIRST), 1), NEW_LINK), Begin(THERE, 0));
    AskOnce(id, FIRST);
    LossBreaks(Do(s1, Begin(THERE, 0)), id);
    ConsRun(s1, Begin(THERE, 0), LossBreak(id));
    ConsRun(s, Beat(THERE, 1), [Begin(THERE, 0)] + LossBreak(id));
  }

  /** A run from the start in which an edit back to sequence 0 comes while the change is asked for:
      the entry is dropped although its check was never delivered. */
  lemma LostDelivery(id: CheckId) returns (s0: State, steps: seq<Step>, end: State)
    ensures Init(s0) && FullMesh(s0) && IsRun(s0, steps) && After(s0, steps) == end && THERE in end.link
    ensures var l := end.link[THERE];
            |l.said| == |l.hist| == l.dropped == 1 && l.hist[0].key == id && l.said[0] == FIRST && l.heard == {} && !Knows(l, 0)
  {
    s0 := Two((1, 0), (map[id := FIRST], map[]), (OneEntry(id, FIRST), NEW_LINK));
    TwoIsPair((1, 0), (map[id := FIRST], map[]), (OneEntry(id, FIRST), NEW_LINK));
    LossInit(id);
    LossRuns(s0, id);
    steps, end := AskSteps(THERE, LossBreak(id)), After(s0, AskSteps(THERE, LossBreak(id)));
  }

  // ---------- a check that comes back ----------

  const LIVE := Check(1, false)
  const DELETED := Check(6, true)

  /** Node 0 holds the check or its tombstone, node 1 its tombstone. */
  ghost predicate BackState(s: State, produced: nat, zero: Registry, id: CheckId, link: (Link, Link))
  {
    Pair(s, (produced, 1), (zero, map[id := DELETED]), link)
  }

  lemma BackInit(id: CheckId)
    ensures Init(Two((1, 1), (map[id := LIVE], map[id := DELETED]), (OneEntry(id, LIVE), OneEntry(id, DELETED))))
  {
    OneEntryInit(id, LIVE);
    OneEntryInit(id, DELETED);
  }

  /** Answered with the check as node 0 had it. */
  function InFlight(id: CheckId): Link
  {
    AskedOnce(id, LIVE).(phase := Replied(Request(0, 1), [Doc(id, LIVE)], 0))
  }

  /** ... and with an entry for the tombstone that node 0 has taken over since. */
  function InFlightStill(id: CheckId): Link { Append(InFlight(id), id, DELETED, 2) }

  function Tombstone(id: CheckId): Link
  {
    AskedOnce(id, DELETED).(phase := Replied(Request(0, 1), [Doc(id, DELETED)], 0))
  }

  function Heard(id: CheckId): Link
  {
    AskedOnce(id, DELETED).(phase := Replied(Request(0, 1), [], 1), heard := {Doc(id, DELETED)}, recent := {Doc(id, DELETED)})
  }

  lemma TombstoneTaken(id: CheckId)
    ensures Take(Tombstone(id)) == Heard(id)
  {
    assert Tombstone(id).phase.docs[1..] == [];
    assert NEW_LINK.heard + {Doc(id, DELETED)} == {Doc(id, DELETED)} == NEW_LINK.recent + {Doc(id, DELETED)};
  }

  function Forgotten(id: CheckId): Link
  {
    Acknowledging(id, DELETED, {Doc(id, DELETED)}, 1).(dropped := 1, phase := Replied(Request(1, 1), [], 0))
  }

  /** Node 1 holds the check again, as it was before it was deleted. */
  ghost predicate Returned(s: State, id: CheckId) { 1 in s.reg && s.reg[1] == map[id := LIVE] }

  lemma PurgePair(s: State, id: CheckId)
    requires BackState(s, 2, map[id := DELETED], id, (InFlightStill(id), Forgotten(id)))
    ensures Enabled(s, Purge(1, id))
    ensures Pair(Do(s, Purge(1, id)), (2, 1), (map[id := DELETED], map[]), (CutOff(InFlightStill(id), id), Forgotten(id)))
  {
    assert map[id := DELETED] - {id} == map[];
  }

  function LastSteps(id: CheckId): seq<Step> { [Purge(1, id)] + ([Process(THERE)] + []) }

  lemma ReturnedAfter(s: State, s': State, id: CheckId)
    requires Pair(s, (2, 1), (map[id := DELETED], map[]), (CutOff(InFlightStill(id), id), Forgotten(id)))
    requires Accepted(s, s', THERE, Doc(id, LIVE))
    ensures Returned(s', id)
  {
    var none: Registry := map[];
    AcceptAtOne(s, s', (2, 1), (map[id := DELETED], none), (CutOff(InFlightStill(id), id), Forgotten(id)), Doc(id, LIVE));
    assert none[id := LIVE] == map[id := LIVE];
  }

  /** No changelog of node 1 mentions the tombstone, it is purged, and the reply that was in flight
      all the while is processed. */
  lemma BackReturns(s: State, id: CheckId)
    requires BackState(s, 2, map[id := DELETED], id, (InFlightStill(id), Forgotten(id)))
    ensures IsRun(s, LastSteps(id)) && Returned(After(s, LastSteps(id)), id)
  {
    PurgePair(s, id);
    var s1 := Do(s, Purge(1, id));
    AcceptParts(s1, THERE, Doc(id, LIVE));
    ReturnedAfter(s1, Do(s1, Process(THERE)), id);
    ConsRun(s1, Process(THERE), []);
    ConsRun(s, Purge(1, id), [Process(THERE)] + []);
  }

  function EmptySteps(id: CheckId): seq<Step> { [Begin(BACK, 0)] + ([Answer(BACK)] + LastSteps(id)) }

  lemma BackEmpties(s: State, id: CheckId)
    requires BackState(s, 2, map[id := DELETED], id,
                       (InFlightStill(id), OneEntry(id, DELETED).(channel := Channel(0, 1, 1, 1), heard := {Doc(id, DELETED)}, recent := {Doc(id, DELETED)})))
    ensures IsRun(s, EmptySteps(id)) && Returned(After(s, EmptySteps(id)), id)
  {
    var reg, t := (map[id := DELETED], map[id := DELETED]), InFlightStill(id);
    var l := OneEntry(id, DELETED).(channel := Channel(0, 1, 1, 1), heard := {Doc(id, DELETED)}, recent := {Doc(id, DELETED)});
    WirePair(s, (2, 1), reg, (t, l), Begin(BACK, 0));
    var s1 := Do(s, Begin(BACK, 0));
    WirePair(s1, (2, 1), reg, (t, Acknowledging(id, DELETED, {Doc(id, DELETED)}, 1)), Answer(BACK));
    ServeDropsIt(id, DELETED, {Doc(id, DELETED)}, 1, map[id := DELETED]);
    BackReturns(Do(s1, Answer(BACK)), id);
    ConsRun(s1, Answer(BACK), LastSteps(id));
    ConsRun(s, Begin(BACK, 0), [Answer(BACK)] + LastSteps(id));
  }

  function DrainSteps(id: CheckId): seq<Step> { [Complete(BACK)] + ([Record(BACK)] + EmptySteps(id)) }

  lemma BackDrains(s: State, id: CheckId)
    requires BackState(s, 2, map[id := DELETED], id, (InFlightStill(id), Heard(id)))
    ensures IsRun(s, DrainSteps(id)) && Returned(After(s, DrainSteps(id)), id)
  {
    var reg, t := (map[id := DELETED], map[id := DELETED]), InFlightStill(id);
    WirePair(s, (2, 1), reg, (t, Heard(id)), Complete(BACK));
    var s1 := Do(s, Complete(BACK));
    WirePair(s1, (2, 1), reg, (t, Close(Heard(id))), Record(BACK));
    BackEmpties(Do(s1, Record(BACK)), id);
    ConsRun(s1, Record(BACK), EmptySteps(id));
    ConsRun(s, Complete(BACK), [Record(BACK)] + EmptySteps(id));
  }

  function TakeSteps(id: CheckId): seq<Step> { [Process(BACK)] + DrainSteps(id) }

  lemma TookOver(s: State, s': State, id: CheckId)
    requires BackState(s, 1, map[id := LIVE], id, (InFlight(id), Tombstone(id)))
    requires Accepted(s, s', BACK, Doc(id, DELETED))
    ensures BackState(s', 2, map[id := DELETED], id, (InFlightStill(id), Heard(id)))
  {
    var reg: (Registry, Registry) := (map[id := LIVE], map[id := DELETED]);
    AcceptAtZero(s, s', (1, 1), reg, (InFlight(id), Tombstone(id)), Doc(id, DELETED));
    TombstoneTaken(id);
    assert reg.0[id := DELETED] == map[id := DELETED];
  }

  /** Node 0 takes the tombstone over. */
  lemma BackTakes(s: State, id: CheckId)
    requires BackState(s, 1, map[id := LIVE], id, (InFlight(id), Tombstone(id)))
    ensures IsRun(s, TakeSteps(id)) && Returned(After(s, TakeSteps(id)), id)
  {
    AcceptParts(s, BACK, Doc(id, DELETED));
    TookOver(s, Do(s, Process(BACK)), id);
    BackDrains(Do(s, Process(BACK)), id);
    ConsRun(s, Process(BACK), DrainSteps(id));
  }

  function FetchSteps(id: CheckId): seq<Step> { [Answer(BACK)] + TakeSteps(id) }

  lemma BackFetches(s: State, id: CheckId)
    requires BackState(s, 1, map[id := LIVE], id, (InFlight(id), AskedOnce(id, DELETED)))
    ensures IsRun(s, FetchSteps(id)) && Returned(After(s, FetchSteps(id)), id)
  {
    var reg: (Registry, Registry) := (map[id := LIVE], map[id := DELETED]);
    WirePair(s, (1, 1), reg, (InFlight(id), AskedOnce(id, DELETED)), Answer(BACK));
    ServeHeld(id, DELETED);
    BackTakes(Do(s, Answer(BACK)), id);
    ConsRun(s, Answer(BACK), TakeSteps(id));
  }

  lemma BackAsks(s: State, id: CheckId)
    requires BackState(s, 1, map[id := LIVE], id, (InFlight(id), OneEntry(id, DELETED)))
    ensures IsRun(s, AskSteps(BACK, FetchSteps(id))) && Returned(After(s, AskSteps(BACK, FetchSteps(id))), id)
  {
    var reg, t := (map[id := LIVE], map[id := DELETED]), InFlight(id);
    WirePair(s, (1, 1), reg, (t, OneEntry(id, DELETED)), Beat(BACK, 1));
    var s1 := Do(s, Beat(BACK, 1));
    WirePair(s1, (1, 1), reg, (t, Announced(OneEntry(id, DELETED), 1)), Begin(BACK, 0));
    AskOnce(id, DELETED);
    BackFetches(Do(s1, Begin(BACK, 0)), id);
    ConsRun(s1, Begin(BACK, 0), FetchSteps(id));
    ConsRun(s, Beat(BACK, 1), [Begin(BACK, 0)] + FetchSteps(id));
  }

  function SendSteps(id: CheckId): seq<Step> { [Answer(THERE)] + AskSteps(BACK, FetchSteps(id)) }

  /** Node 0 sends the check, and the reply stays in flight. */
  lemma BackSends(s: State, id: CheckId)
    requires BackState(s, 1, map[id := LIVE], id, (AskedOnce(id, LIVE), OneEntry(id, DELETED)))
    ensures IsRun(s, SendSteps(id)) && Returned(After(s, SendSteps(id)), id)
  {
    var reg := (map[id := LIVE], map[id := DELETED]);
    WirePair(s, (1, 1), reg, (AskedOnce(id, LIVE), OneEntry(id, DELETED)), Answer(THERE));
    ServeHeld(id, LIVE);
    BackAsks(Do(s, Answer(THERE)), id);
    ConsRun(s, Answer(THERE), AskSteps(BACK, FetchSteps(id)));
  }

  lemma BackRuns(s: State, id: CheckId)
    requires BackState(s, 1, map[id := LIVE], id, (OneEntry(id, LIVE), OneEntry(id, DELETED)))
    ensures IsRun(s, AskSteps(THERE, SendSteps(id))) && Returned(After(s, AskSteps(THERE, SendSteps(id))), id)
  {
    var reg := (map[id := LIVE], map[id := DELETED]);
    WirePair(s, (1, 1), reg, (OneEntry(id, LIVE), OneEntry(id, DELETED)), Beat(THERE, 1));
    var s1 := Do(s, Beat(THERE, 1));
    WirePair(s1, (1, 1), reg, (Announced(OneEntry(id, LIVE), 1), OneEntry(id, DELETED)), Begin(THERE, 0));
    AskOnce(id, LIVE);
    BackSends(Do(s1, Begin(THERE, 0)), id);
    ConsRun(s1, Begin(THERE, 0), SendSteps(id));
    ConsRun(s, Beat(THERE, 1), [Begin(THERE, 0)] + SendSteps(id));
  }

  ghost predicate NoEdits(steps: seq<Step>) { forall st :: st in steps ==> !st.Edit? && !st.Delete? }

  lemma BackNoEdits(id: CheckId)
    ensures NoEdits(AskSteps(THERE, SendSteps(id))) && Purge(1, id) in AskSteps(THERE, SendSteps(id))
  {
    assert NoEdits(LastSteps(id)) && Purge(1, id) in LastSteps(id);
    assert NoEdits(DrainSteps(id)) && Purge(1, id) in DrainSteps(id);
    assert NoEdits(FetchSteps(id)) && Purge(1, id) in FetchSteps(id);
    assert NoEdits(SendSteps(id)) && Purge(1, id) in SendSteps(id);
  }

  /** A run from the start without any edit: node 1 has a tombstone that node 0 fetches and
      acknowledges, so node 1 purges it, and then a reply that node 0 had sent before brings the
      check back to node 1, undeleted and at the older sequence. */
  lemma PurgedComesBack(id: CheckId) returns (s0: State, steps: seq<Step>)
    ensures Init(s0) && FullMesh(s0) && IsRun(s0, steps) && NoEdits(steps) && Purge(1, id) in steps
    ensures 1 in s0.reg && s0.reg[1] == map[id := DELETED] && Returned(After(s0, steps), id)
  {
    s0 := Two((1, 1), (map[id := LIVE], map[id := DELETED]), (OneEntry(id, LIVE), OneEntry(id, DELETED)));
    TwoIsPair((1, 1), (map[id := LIVE], map[id := DELETED]), (OneEntry(id, LIVE), OneEntry(id, DELETED)));
    steps := AskSteps(THERE, SendSteps(id));
    BackInit(id);
    BackRuns(s0, id);
    BackNoEdits(id);
  }
}
