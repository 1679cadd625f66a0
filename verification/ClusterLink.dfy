/** Replication of checks from one node to one peer: the producer's changelog for the peer,
    the peer's counters, the job in flight, and what the peer has heard. */
module ClusterLink {
  import opened ClusterLog
  import opened ClusterChannel

  type CheckId = int
  type NodeId = int

  datatype Check = Check(version: int, deleted: bool)
  type Registry = map<CheckId, Check>

  datatype Doc = Doc(id: CheckId, check: Check)

  /** A job: asked for, its reply being processed (how many documents are done), or over. */
  datatype Phase =
    | Idle
    | Asked(r: Request)
    | Replied(r: Request, docs: seq<Doc>, done: nat)
    | Done(r: Request, o: Outcome)

  /** hist is every entry ever appended, said the check as each announced it, and the live
      changelog is hist from dropped on. heard is what processed replies have carried, recent what
      they have carried since the peer last removed that check, and cut how many entries there
      were when it did. */
  datatype Link = Link(hist: seq<Entry<CheckId>>, said: seq<Check>, dropped: nat, channel: Channel, phase: Phase,
                       heard: set<Doc>, recent: set<Doc>, cut: map<CheckId, nat>)

  const NEW_LINK := Link([], [], 0, FRESH, Idle, {}, {}, map[])

  function CutOf(l: Link, id: CheckId): nat { if id in l.cut then l.cut[id] else 0 }

  function Live(l: Link): seq<Entry<CheckId>>
    requires l.dropped <= |l.hist|
  {
    l.hist[l.dropped..]
  }

  function ToDocs(ids: seq<CheckId>, reg: Registry): (ds: seq<Doc>)
    requires forall i :: 0 <= i < |ids| ==> ids[i] in reg
    ensures |ds| == |ids| && forall i :: 0 <= i < |ids| ==> ds[i] == Doc(ids[i], reg[ids[i]])
  {
    if ids == [] then [] else [Doc(ids[0], reg[ids[0]])] + ToDocs(ids[1..], reg)
  }

  // The steps of one link.

  function Append(l: Link, id: CheckId, c: Check, at: nat): Link
  {
    l.(hist := l.hist + [Entry(id, at)], said := l.said + [c])
  }

  function Announced(l: Link, v: int): Link { l.(channel := l.channel.(available := v)) }

  function Start(l: Link, batchSize: nat): Link { l.(phase := Asked(NextRequest(l.channel, batchSize))) }

  function Serve(l: Link, reg: Registry, self: set<CheckId>): Link
    requires l.phase.Asked? && l.dropped <= |l.hist|
  {
    var r := l.phase.r;
    var rest := Eaten(Live(l), r.prev);
    var ids := Reply(rest, r.end, reg.Keys - self);
    assert forall i :: 0 <= i < |ids| ==> ids[i] in ids;
    var docs := ToDocs(ids, reg);
    l.(dropped := l.dropped + Upto(Live(l), r.prev), phase := Replied(r, docs, 0))
  }

  /** The peer processes the next document of the reply. */
  function Take(l: Link): Link
    requires l.phase.Replied? && l.phase.docs != []
  {
    var d := l.phase.docs[0];
    l.(phase := Replied(l.phase.r, l.phase.docs[1..], l.phase.done + 1),
       heard := l.heard + {d}, recent := l.recent + {d})
  }

  /** The peer removes a check. */
  function CutOff(l: Link, id: CheckId): Link
  {
    l.(cut := l.cut[id := |l.hist|], recent := (set d | d in l.recent && d.id != id))
  }

  function Close(l: Link): Link
    requires l.phase.Replied?
  {
    l.(phase := Done(l.phase.r, Outcome(l.phase.done, true)))
  }

  function Fail(l: Link, o: Outcome): Link
    requires l.phase.Asked? || l.phase.Replied?
  {
    l.(phase := Done(l.phase.r, o))
  }

  function FinishJob(l: Link): Link
    requires l.phase.Done?
  {
    l.(channel := Finish(l.channel, l.phase.r, l.phase.o), phase := Idle)
  }

  /** All documents of a reply processed. */
  function TakeAll(l: Link): (l': Link)
    requires l.phase.Replied?
    ensures l'.phase.Replied? && l'.phase.docs == []
    decreases |l.phase.docs|
  {
    if l.phase.docs == [] then l else TakeAll(Take(l))
  }

  /** A job whose reply has been processed to the end acknowledges where it began, has fetched what it asked
      for, and records how many documents there were; the peer has heard them all. */
  lemma {:induction false} ReplyRecorded(l: Link)
    requires l.phase.Replied? && l.phase.r.end != 0 && l.phase.r.prev >= 0
    ensures var l' := FinishJob(Close(TakeAll(l)));
            && l'.phase == Idle && l'.hist == l.hist && l'.dropped == l.dropped
            && l'.channel == Channel(if l.phase.r.prev == 0 then l.channel.prevFetched else l.phase.r.prev, l.phase.r.end,
                                     l.channel.available, l.phase.done + |l.phase.docs|)
            && forall d :: d in l.phase.docs || d in l.heard ==> d in l'.heard
    decreases |l.phase.docs|
  {
    if l.phase.docs != [] {
      ReplyRecorded(Take(l));
      assert l.phase.docs == [l.phase.docs[0]] + l.phase.docs[1..];
    }
  }

  // What every step keeps.

  ghost predicate LogOk(l: Link, produced: nat)
  {
    && |l.said| == |l.hist| && Increasing(l.hist) && l.dropped <= |l.hist|
    && (forall id :: id in l.cut ==> l.cut[id] <= |l.hist|)
    && InOrder(l.channel) && l.channel.available <= produced
    && (forall i :: 0 <= i < |l.hist| ==> 0 < l.hist[i].at <= produced)
    && (forall i :: 0 <= i < l.dropped ==> l.hist[i].at <= l.channel.fetched)
    && (forall i :: l.dropped <= i < |l.hist| ==> l.hist[i].at > l.channel.prevFetched)
  }

  /** Another entry of the same check, no earlier and as new. */
  predicate AsNew(l: Link, i: int, j: int)
    requires |l.said| == |l.hist|
  {
    0 <= i <= j < |l.hist| && l.hist[j].key == l.hist[i].key && l.said[j].version >= l.said[i].version
  }

  /** The peer has processed what the i-th entry announced, or a later and as new entry of the check,
      and, unless the entry is older than its last removal of the check, did so since. */
  ghost predicate Knows(l: Link, i: nat)
    requires i < |l.hist| && |l.said| == |l.hist|
  {
    exists j :: AsNew(l, i, j) && Doc(l.hist[i].key, l.said[j]) in l.heard
                && (i < CutOf(l, l.hist[i].key) || Doc(l.hist[i].key, l.said[j]) in l.recent)
  }

  ghost predicate Delivered(l: Link, bound: int)
    requires |l.said| == |l.hist|
  {
    forall i :: 0 <= i < |l.hist| && l.hist[i].at <= bound ==> Knows(l, i)
  }

  /** The documents carry what the i-th entry announced, or a later and as new entry. */
  ghost predicate Covers(l: Link, docs: seq<Doc>, i: nat)
    requires i < |l.hist| && |l.said| == |l.hist|
  {
    exists j :: AsNew(l, i, j) && Doc(l.hist[i].key, l.said[j]) in docs
  }

  ghost predicate Acknowledged(l: Link, prev: int)
    requires l.dropped <= |l.hist|
  {
    forall i :: l.dropped <= i < |l.hist| ==> l.hist[i].at > prev
  }

  ghost predicate PhaseOk(l: Link, self: set<CheckId>)
    requires |l.said| == |l.hist| && l.dropped <= |l.hist|
  {
    match l.phase
    case Idle => true
    case Asked(r) => Requested(l.channel, r)
    case Replied(r, docs, done) =>
      && Requested(l.channel, r) && r.end != 0 && Acknowledged(l, r.prev)
      && (r.prev == r.end ==> docs == [] && done == 0)
      && (forall j :: 0 <= j < |docs| ==> docs[j].check.version > 0 && docs[j].id !in self)
      && (forall i :: 0 <= i < |l.hist| && l.hist[i].at <= r.end
            ==> Knows(l, i) || Covers(l, docs, i))
    case Done(r, o) =>
      && Requested(l.channel, r) && Possible(r, o)
      && (o.success ==> Acknowledged(l, r.prev) && Delivered(l, r.end))
  }

  /** Live entries name replicated checks that the producer holds as new as announced. */
  ghost predicate Held(l: Link, reg: Registry, self: set<CheckId>)
    requires |l.said| == |l.hist|
  {
    forall i :: l.dropped <= i < |l.hist| ==>
      && l.hist[i].key in reg && l.hist[i].key !in self
      && 0 < l.said[i].version <= reg[l.hist[i].key].version
  }

  /** The i-th entry is the last of its check, and announced it like this. */
  ghost predicate LastAt(l: Link, id: CheckId, c: Check, i: int)
    requires |l.said| == |l.hist|
  {
    0 <= i < |l.hist| && l.hist[i].key == id && l.said[i] == c && forall j :: i < j < |l.hist| ==> l.hist[j].key != id
  }

  ghost predicate SaidOf(l: Link, id: CheckId, c: Check)
    requires |l.said| == |l.hist|
  {
    exists i :: LastAt(l, id, c, i)
  }

  /** Every replicated check was last announced as it is. */
  ghost predicate Told(l: Link, reg: Registry, self: set<CheckId>)
    requires |l.said| == |l.hist|
  {
    forall id {:trigger SaidOf(l, id, reg[id])} ::
      id in reg && id !in self && reg[id].version > 0 ==> SaidOf(l, id, reg[id])
  }

  /** What the peer has heard since it last removed the check, it holds. */
  ghost predicate Learned(l: Link, reg: Registry)
  {
    forall d :: d in l.recent ==> d.check.version > 0 && d.id in reg && reg[d.id].version >= d.check.version
  }

  /** One link together with what it stands between: the producer's counter and registry, the
      peer's registry, and the selfchecks. */
  datatype View = View(l: Link, produced: nat, reg: Registry, peer: Registry, self: set<CheckId>)

  ghost predicate LinkOk(l: Link, produced: nat, self: set<CheckId>)
  {
    LogOk(l, produced) && Delivered(l, l.channel.fetched) && PhaseOk(l, self)
  }

  ghost predicate LinkInv(v: View)
  {
    && LinkOk(v.l, v.produced, v.self)
    && Held(v.l, v.reg, v.self) && Told(v.l, v.reg, v.self) && Learned(v.l, v.peer)
  }

  // Each step keeps it.

  lemma AppendOld(l: Link, id: CheckId, c: Check, at: nat, i: nat)
    requires |l.said| == |l.hist| && i < |l.hist|
    ensures var l' := Append(l, id, c, at);
            l'.hist[i] == l.hist[i] && l'.said[i] == l.said[i] && (Knows(l, i) ==> Knows(l', i))
    ensures forall docs :: Covers(l, docs, i) ==> Covers(Append(l, id, c, at), docs, i)
  {
    var l' := Append(l, id, c, at);
    assert forall j :: AsNew(l, i, j) ==> AsNew(l', i, j) && l'.said[j] == l.said[j];
  }

  lemma AppendLog(l: Link, produced: nat, id: CheckId, c: Check)
    requires LogOk(l, produced)
    ensures LogOk(Append(l, id, c, produced + 1), produced + 1)
  {}

  lemma AppendDelivered(l: Link, produced: nat, id: CheckId, c: Check, bound: int)
    requires |l.said| == |l.hist| && Delivered(l, bound) && bound <= produced
    ensures Delivered(Append(l, id, c, produced + 1), bound)
  {
    var l' := Append(l, id, c, produced + 1);
    forall i | 0 <= i < |l'.hist| && l'.hist[i].at <= bound ensures Knows(l', i) {
      AppendOld(l, id, c, produced + 1, i);
    }
  }

  lemma AppendPhase(l: Link, produced: nat, id: CheckId, c: Check, self: set<CheckId>)
    requires LogOk(l, produced) && PhaseOk(l, self)
    ensures PhaseOk(Append(l, id, c, produced + 1), self)
  {
    var l' := Append(l, id, c, produced + 1);
    match l.phase {
      case Replied(r, docs, done) =>
        forall i | 0 <= i < |l'.hist| && l'.hist[i].at <= r.end
          ensures Knows(l', i) || Covers(l', docs, i)
        {
          AppendOld(l, id, c, produced + 1, i);
        }
      case Done(r, o) =>
        if o.success { AppendDelivered(l, produced, id, c, r.end); }
      case _ =>
    }
  }

  lemma AppendSaid(l: Link, id: CheckId, c: Check, at: nat, k: CheckId, w: Check)
    requires |l.said| == |l.hist| && (if k == id then w == c else SaidOf(l, k, w))
    ensures SaidOf(Append(l, id, c, at), k, w)
  {
    var l' := Append(l, id, c, at);
    if k == id {
      assert LastAt(l', k, w, |l.hist|);
    } else {
      var i :| LastAt(l, k, w, i);
      assert LastAt(l', k, w, i);
    }
  }

  lemma AppendTold(l: Link, reg: Registry, self: set<CheckId>, id: CheckId, c: Check, at: nat)
    requires |l.said| == |l.hist| && Told(l, reg, self)
    ensures Told(Append(l, id, c, at), reg[id := c], self)
  {
    var l', reg' := Append(l, id, c, at), reg[id := c];
    forall k | k in reg' && k !in self && reg'[k].version > 0 ensures SaidOf(l', k, reg'[k]) {
      assert k != id ==> SaidOf(l, k, reg[k]);
      AppendSaid(l, id, c, at, k, reg'[k]);
    }
  }

  lemma AppendHeld(l: Link, reg: Registry, self: set<CheckId>, id: CheckId, c: Check, at: nat)
    requires |l.said| == |l.hist| && l.dropped <= |l.hist| && Held(l, reg, self)
    requires c.version > 0 && id !in self && (id in reg ==> reg[id].version <= c.version)
    ensures Held(Append(l, id, c, at), reg[id := c], self)
  {}

  lemma AppendOk(l: Link, produced: nat, self: set<CheckId>, id: CheckId, c: Check)
    requires LinkOk(l, produced, self)
    ensures LinkOk(Append(l, id, c, produced + 1), produced + 1, self)
  {
    AppendLog(l, produced, id, c);
    AppendDelivered(l, produced, id, c, l.channel.fetched);
    AppendPhase(l, produced, id, c, self);
  }

  lemma Invariant(v: View)
    requires LinkOk(v.l, v.produced, v.self) && Held(v.l, v.reg, v.self) && Told(v.l, v.reg, v.self) && Learned(v.l, v.peer)
    ensures LinkInv(v)
  {}

  /** The producer stores a check as new as before and announces it. */
  lemma AppendKeeps(v: View, id: CheckId, c: Check, l': Link, v': View)
    requires LinkInv(v)
    requires c.version > 0 && id !in v.self && (id in v.reg ==> v.reg[id].version <= c.version)
    requires l' == Append(v.l, id, c, v.produced + 1)
    requires v' == v.(l := l', produced := v.produced + 1, reg := v.reg[id := c])
    ensures LinkInv(v')
  {
    AppendOk(v.l, v.produced, v.self, id, c);
    AppendTold(v.l, v.reg, v.self, id, c, v.produced + 1);
    AppendHeld(v.l, v.reg, v.self, id, c, v.produced + 1);
    Invariant(v');
  }

  /** The producer stores or drops a check that no live entry can name. */
  lemma QuietKeeps(v: View, reg': Registry, id: CheckId)
    requires LinkInv(v)
    requires v.reg - {id} == reg' - {id}
    requires id in v.self || forall i :: v.l.dropped <= i < |v.l.hist| ==> v.l.hist[i].key != id
    requires id in v.self || id !in reg' || reg'[id].version <= 0
    ensures LinkInv(v.(reg := reg'))
  {
    forall k | k != id ensures (k in v.reg <==> k in reg') && (k in reg' ==> reg'[k] == v.reg[k]) {
      assert k in v.reg <==> k in v.reg - {id};
      assert k in reg' <==> k in reg' - {id};
      assert k in reg' ==> reg'[k] == (reg' - {id})[k] == (v.reg - {id})[k];
    }
    forall k | k in reg' && k !in v.self && reg'[k].version > 0 ensures SaidOf(v.l, k, reg'[k]) {
      assert SaidOf(v.l, k, v.reg[k]);
    }
  }

  /** The peer's own registry moves up. */
  lemma PeerKeeps(v: View, peer': Registry)
    requires LinkInv(v)
    requires forall k :: k in v.peer && v.peer[k].version > 0 ==> k in peer' && peer'[k].version >= v.peer[k].version
    ensures LinkInv(v.(peer := peer'))
  {}

  lemma CutKnows(l: Link, id: CheckId, i: nat)
    requires |l.said| == |l.hist| && i < |l.hist| && Knows(l, i)
    ensures Knows(CutOff(l, id), i)
  {
    var key, l' := l.hist[i].key, CutOff(l, id);
    var j :| AsNew(l, i, j) && Doc(key, l.said[j]) in l.heard && (i < CutOf(l, key) || Doc(key, l.said[j]) in l.recent);
    assert AsNew(l', i, j) && (i < CutOf(l', key) || Doc(key, l.said[j]) in l'.recent);
  }

  /** The peer loses a check. */
  lemma CutKeeps(v: View, id: CheckId)
    requires LinkInv(v)
    ensures LinkInv(v.(l := CutOff(v.l, id), peer := v.peer - {id}))
  {
    var l' := CutOff(v.l, id);
    forall i | 0 <= i < |v.l.hist| && Knows(v.l, i) ensures Knows(l', i) { CutKnows(v.l, id, i); }
    forall docs, i | 0 <= i < |v.l.hist| && Covers(v.l, docs, i) ensures Covers(l', docs, i) {
      SameCovers(v.l, l', docs, i);
    }
    SameTold(v.l, l', v.reg, v.self);
  }

  function CheckIn(reg: Registry, id: CheckId): Check { if id in reg then reg[id] else Check(0, false) }

  function VersionIn(reg: Registry, id: CheckId): int { CheckIn(reg, id).version }

  datatype Role = Producer | Consumer | Neither

  /** A link after a node, in its role on the link, has stored a check and announced it. */
  function Stored(v: View, role: Role, id: CheckId, c: Check): View
  {
    match role
    case Producer =>
      if id in v.self || c.version <= 0 then v.(reg := v.reg[id := c])
      else v.(l := Append(v.l, id, c, v.produced + 1), produced := v.produced + 1, reg := v.reg[id := c])
    case Consumer => v.(peer := v.peer[id := c])
    case Neither => v
  }

  lemma QuietStored(v: View, id: CheckId, c: Check)
    requires LinkInv(v) && 0 <= VersionIn(v.reg, id) <= c.version && (id in v.self || c.version <= 0)
    ensures LinkInv(v.(reg := v.reg[id := c]))
  {
    assert v.reg - {id} == v.reg[id := c] - {id};
    QuietKeeps(v, v.reg[id := c], id);
  }

  lemma PeerStored(v: View, id: CheckId, c: Check)
    requires LinkInv(v) && VersionIn(v.peer, id) <= c.version
    ensures LinkInv(v.(peer := v.peer[id := c]))
  {
    PeerKeeps(v, v.peer[id := c]);
  }

  lemma StoredKeeps(v: View, role: Role, id: CheckId, c: Check)
    requires LinkInv(v)
    requires role.Producer? ==> 0 <= VersionIn(v.reg, id) <= c.version
    requires role.Consumer? ==> 0 <= VersionIn(v.peer, id) <= c.version
    ensures LinkInv(Stored(v, role, id, c))
  {
    var v' := Stored(v, role, id, c);
    if role.Consumer? {
      PeerStored(v, id, c);
      assert v' == v.(peer := v.peer[id := c]);
    } else if role.Producer? {
      ProducerStored(v, id, c);
    }
  }

  lemma ProducerStored(v: View, id: CheckId, c: Check)
    requires LinkInv(v) && 0 <= VersionIn(v.reg, id) <= c.version
    ensures LinkInv(Stored(v, Producer, id, c))
  {
    var v' := Stored(v, Producer, id, c);
    if id in v.self || c.version <= 0 {
      QuietStored(v, id, c);
      assert v' == v.(reg := v.reg[id := c]);
    } else {
      AppendKeeps(v, id, c, Append(v.l, id, c, v.produced + 1), v');
    }
  }

  /** A step that changes neither the log, nor what is heard, nor what the counters allow. */
  lemma SameLog(v: View, l': Link)
    requires LinkInv(v)
    requires l'.hist == v.l.hist && l'.said == v.l.said && l'.dropped == v.l.dropped
    requires l'.recent == v.l.recent
    requires LogOk(l', v.produced) && Delivered(l', l'.channel.fetched) && PhaseOk(l', v.self)
    ensures LinkInv(v.(l := l'))
  {
    SameTold(v.l, l', v.reg, v.self);
  }

  lemma SameTold(l: Link, l': Link, reg: Registry, self: set<CheckId>)
    requires |l.said| == |l.hist| && l'.hist == l.hist && l'.said == l.said && Told(l, reg, self)
    ensures Told(l', reg, self)
  {
    forall k | k in reg && k !in self && reg[k].version > 0 ensures SaidOf(l', k, reg[k]) {
      assert SaidOf(l, k, reg[k]);
      var i :| LastAt(l, k, reg[k], i);
      assert LastAt(l', k, reg[k], i);
    }
  }

  lemma SameCovers(l: Link, l': Link, docs: seq<Doc>, i: nat)
    requires |l.said| == |l.hist| && l'.hist == l.hist && l'.said == l.said && i < |l.hist| && Covers(l, docs, i)
    ensures Covers(l', docs, i)
  {
    var j :| AsNew(l, i, j) && Doc(l.hist[i].key, l.said[j]) in docs;
    assert AsNew(l', i, j);
  }

  lemma SameKnows(l: Link, l': Link)
    requires |l.said| == |l.hist| && l'.hist == l.hist && l'.said == l.said
    requires l'.heard == l.heard && l'.recent == l.recent && l'.cut == l.cut
    ensures forall i :: 0 <= i < |l.hist| ==> (Knows(l, i) <==> Knows(l', i))
    ensures forall docs, i :: 0 <= i < |l.hist| ==> (Covers(l, docs, i) <==> Covers(l', docs, i))
  {
    assert forall i, j :: AsNew(l, i, j) <==> AsNew(l', i, j);
  }

  lemma AnnouncedKeeps(v: View, seen: int)
    requires LinkInv(v) && v.l.channel.available <= seen <= v.produced
    ensures LinkInv(v.(l := Announced(v.l, seen)))
  {
    SameKnows(v.l, Announced(v.l, seen));
    SameLog(v, Announced(v.l, seen));
  }

  lemma StartKeeps(v: View, batchSize: nat)
    requires LinkInv(v) && v.l.phase.Idle?
    ensures LinkInv(v.(l := Start(v.l, batchSize)))
  {
    NextRequestIs(v.l.channel, batchSize);
    SameKnows(v.l, Start(v.l, batchSize));
    SameLog(v, Start(v.l, batchSize));
  }

  lemma FailKeeps(v: View, o: Outcome)
    requires LinkInv(v) && (v.l.phase.Asked? || v.l.phase.Replied?) && !o.success && Possible(v.l.phase.r, o)
    ensures LinkInv(v.(l := Fail(v.l, o)))
  {
    SameKnows(v.l, Fail(v.l, o));
    SameLog(v, Fail(v.l, o));
  }

  lemma CloseKeeps(v: View)
    requires LinkInv(v) && v.l.phase.Replied? && v.l.phase.docs == []
    ensures LinkInv(v.(l := Close(v.l)))
  {
    SameKnows(v.l, Close(v.l));
    SameLog(v, Close(v.l));
  }

  lemma FinishKeeps(v: View)
    requires LinkInv(v) && v.l.phase.Done?
    ensures LinkInv(v.(l := FinishJob(v.l)))
  {
    FinishKeepsOrder(v.l.channel, v.l.phase.r, v.l.phase.o);
    SameKnows(v.l, FinishJob(v.l));
    SameLog(v, FinishJob(v.l));
  }

  lemma TakeKnows(l: Link, i: nat)
    requires |l.said| == |l.hist| && i < |l.hist| && l.phase.Replied? && l.phase.docs != [] && Knows(l, i)
    ensures Knows(Take(l), i)
  {
    var key := l.hist[i].key;
    var j :| AsNew(l, i, j) && Doc(key, l.said[j]) in l.heard && (i < CutOf(l, key) || Doc(key, l.said[j]) in l.recent);
    assert AsNew(Take(l), i, j) && Doc(key, l.said[j]) in Take(l).heard;
  }

  lemma TakeCovers(l: Link, i: nat)
    requires |l.said| == |l.hist| && i < |l.hist| && l.phase.Replied? && l.phase.docs != []
    requires Knows(l, i) || Covers(l, l.phase.docs, i)
    ensures Knows(Take(l), i) || Covers(Take(l), Take(l).phase.docs, i)
  {
    var docs := l.phase.docs;
    if Knows(l, i) {
      TakeKnows(l, i);
    } else {
      var j :| AsNew(l, i, j) && Doc(l.hist[i].key, l.said[j]) in docs;
      assert AsNew(Take(l), i, j);
      if docs[0] != Doc(l.hist[i].key, l.said[j]) { assert docs == [docs[0]] + docs[1..]; }
    }
  }

  /** Taking a document: the peer has heard it, and holds something as new. */
  lemma TakeKeeps(v: View)
    requires LinkInv(v) && v.l.phase.Replied? && v.l.phase.docs != []
    requires var d := v.l.phase.docs[0]; d.id in v.peer && v.peer[d.id].version >= d.check.version
    ensures LinkInv(v.(l := Take(v.l)))
  {
    var l' := Take(v.l);
    SameTold(v.l, l', v.reg, v.self);
    forall i | 0 <= i < |v.l.hist|
      ensures Knows(v.l, i) ==> Knows(l', i)
    {
      if Knows(v.l, i) { TakeKnows(v.l, i); }
    }
    forall i | 0 <= i < |l'.hist| && l'.hist[i].at <= v.l.phase.r.end
      ensures Knows(l', i) || Covers(l', l'.phase.docs, i)
    {
      TakeCovers(v.l, i);
    }
  }

  /** A live entry that the request reaches is covered by the check as it is now. */
  lemma ServeCovers(l: Link, produced: nat, reg: Registry, self: set<CheckId>, i: nat)
    requires LogOk(l, produced) && l.phase.Asked?
    requires l.dropped <= i < |l.hist| && l.phase.r.prev < l.hist[i].at <= l.phase.r.end
    requires l.hist[i].key in reg && l.hist[i].key !in self && l.said[i].version <= reg[l.hist[i].key].version
    requires SaidOf(l, l.hist[i].key, reg[l.hist[i].key])
    ensures Doc(l.hist[i].key, reg[l.hist[i].key]) in Serve(l, reg, self).phase.docs
    ensures Covers(Serve(l, reg, self), Serve(l, reg, self).phase.docs, i)
  {
    var key := l.hist[i].key;
    ServeCarriesKey(l, reg, self, i);
    var j :| LastAt(l, key, reg[key], j);
    assert AsNew(Serve(l, reg, self), i, j);
  }

  lemma ServeCarriesKey(l: Link, reg: Registry, self: set<CheckId>, i: nat)
    requires Increasing(l.hist) && l.phase.Asked?
    requires l.dropped <= i < |l.hist| && l.phase.r.prev < l.hist[i].at <= l.phase.r.end
    requires l.hist[i].key in reg && l.hist[i].key !in self
    ensures Doc(l.hist[i].key, reg[l.hist[i].key]) in Serve(l, reg, self).phase.docs
  {
    var r, log := l.phase.r, Live(l);
    var has := reg.Keys - self;
    ReplyComplete(log, r, has);
    assert log[i - l.dropped] == l.hist[i];
    var ids := Reply(Eaten(log, r.prev), r.end, has);
    assert l.hist[i].key in ids;
    var j :| 0 <= j < |ids| && ids[j] == l.hist[i].key;
    assert Serve(l, reg, self).phase.docs[j] == Doc(ids[j], reg[ids[j]]);
  }

  lemma ServedDocs(l: Link, produced: nat, reg: Registry, self: set<CheckId>)
    requires LogOk(l, produced) && l.phase.Asked?
    requires forall i :: l.dropped <= i < |l.hist| && l.hist[i].key in reg ==> reg[l.hist[i].key].version > 0
    ensures var docs := Serve(l, reg, self).phase.docs;
            && (l.phase.r.prev == l.phase.r.end ==> docs == [])
            && forall j :: 0 <= j < |docs| ==> docs[j].check.version > 0 && docs[j].id !in self
  {
    var r, log := l.phase.r, Live(l);
    var has := reg.Keys - self;
    ReplyComplete(log, r, has);
    var rest := Eaten(log, r.prev);
    var ids := Reply(rest, r.end, has);
    var docs := Serve(l, reg, self).phase.docs;
    forall j | 0 <= j < |docs| ensures docs[j].check.version > 0 && docs[j].id !in self {
      assert ids[j] in ids;
      CarriedIs(rest[..Upto(rest, r.end)], has, ids[j]);
      var i :| 0 <= i < |rest[..Upto(rest, r.end)]| && rest[..Upto(rest, r.end)][i].key == ids[j];
      assert l.hist[l.dropped + Upto(log, r.prev) + i] == rest[i];
    }
  }

  lemma ServeDrops(l: Link, produced: nat, reg: Registry, self: set<CheckId>)
    requires LogOk(l, produced) && l.phase.Asked? && Requested(l.channel, l.phase.r)
    ensures var l' := Serve(l, reg, self);
            && l.dropped <= l'.dropped <= |l'.hist| && Acknowledged(l', l.phase.r.prev)
            && (forall i :: l.dropped <= i < l'.dropped ==> l.hist[i].at <= l.phase.r.prev)
  {
    var r, log := l.phase.r, Live(l);
    forall i | l.dropped <= i < |l.hist|
      ensures l.hist[i].at <= r.prev <==> i < l.dropped + Upto(log, r.prev)
    {
      assert log[i - l.dropped] == l.hist[i];
      UptoSplits(log, r.prev, i - l.dropped);
    }
  }

  lemma ServeLog(l: Link, produced: nat, reg: Registry, self: set<CheckId>)
    requires LogOk(l, produced) && Held(l, reg, self) && l.phase.Asked? && Requested(l.channel, l.phase.r)
    ensures LogOk(Serve(l, reg, self), produced) && Held(Serve(l, reg, self), reg, self)
  {
    ServeDrops(l, produced, reg, self);
  }

  lemma EntryAnswered(l: Link, produced: nat, reg: Registry, self: set<CheckId>, l': Link, i: nat)
    requires LinkOk(l, produced, self) && Held(l, reg, self) && Told(l, reg, self) && l.phase.Asked?
    requires l' == Serve(l, reg, self) && i < |l.hist| && l.hist[i].at <= l.phase.r.end
    ensures Knows(l, i) || Covers(l', l'.phase.docs, i)
  {
    if l.hist[i].at > l.phase.r.prev {
      assert SaidOf(l, l.hist[i].key, reg[l.hist[i].key]);
      ServeCovers(l, produced, reg, self, i);
    }
  }

  /** A reply that accounts for every entry it was asked for is in order. */
  lemma AnsweredPhase(l: Link, produced: nat, reg: Registry, self: set<CheckId>, l': Link)
    requires LogOk(l, produced) && PhaseOk(l, self) && l.phase.Asked? && l.phase.r.end != 0 && l' == Serve(l, reg, self)
    requires forall i :: l.dropped <= i < |l.hist| && l.hist[i].key in reg ==> reg[l.hist[i].key].version > 0
    requires forall i :: 0 <= i < |l.hist| && l.hist[i].at <= l.phase.r.end ==> Knows(l, i) || Covers(l', l'.phase.docs, i)
    ensures l'.dropped <= |l'.hist| && PhaseOk(l', self)
  {
    SameKnows(l, l');
    ServeDrops(l, produced, reg, self);
    ServedDocs(l, produced, reg, self);
  }

  lemma ServePhase(l: Link, produced: nat, reg: Registry, self: set<CheckId>)
    requires LinkOk(l, produced, self) && Held(l, reg, self) && Told(l, reg, self) && l.phase.Asked? && l.phase.r.end != 0
    ensures var l' := Serve(l, reg, self); l'.dropped <= |l'.hist| && PhaseOk(l', self)
  {
    var l' := Serve(l, reg, self);
    forall i | 0 <= i < |l.hist| && l.hist[i].at <= l.phase.r.end
      ensures Knows(l, i) || Covers(l', l'.phase.docs, i)
    {
      EntryAnswered(l, produced, reg, self, l', i);
    }
    AnsweredPhase(l, produced, reg, self, l');
  }

  /** Serving drops only what the peer has acknowledged, and the reply carries the rest of
      the range at its present state. */
  lemma ServeKeeps(v: View)
    requires LinkInv(v) && v.l.phase.Asked? && v.l.phase.r.end != 0
    ensures LinkInv(v.(l := Serve(v.l, v.reg, v.self)))
  {
    var l' := Serve(v.l, v.reg, v.self);
    SameKnows(v.l, l');
    SameTold(v.l, l', v.reg, v.self);
    ServeLog(v.l, v.produced, v.reg, v.self);
    ServePhase(v.l, v.produced, v.reg, v.self);
  }

  // A rebuilt changelog.

  function Listing(ids: seq<CheckId>, reg: Registry, self: set<CheckId>): seq<(CheckId, bool)>
  {
    seq(|ids|, i requires 0 <= i < |ids| => (ids[i], ids[i] !in self && VersionIn(reg, ids[i]) > 0))
  }

  function Rebuilt(keys: seq<CheckId>, reg: Registry, produced: nat): Link
  {
    NEW_LINK.(hist := Numbered(keys, produced), said := seq(|keys|, i requires 0 <= i < |keys| => CheckIn(reg, keys[i])))
  }

  lemma {:induction false} LastIndex<T>(s: seq<T>, x: T) returns (i: nat)
    requires x in s
    ensures i < |s| && s[i] == x && forall j :: i < j < |s| ==> s[j] != x
  {
    var n := |s| - 1;
    if s[n] == x {
      i := n;
    } else {
      assert s == s[..n] + [s[n]];
      i := LastIndex(s[..n], x);
    }
  }

  lemma MarkedKeys(ids: seq<CheckId>, reg: Registry, self: set<CheckId>, id: CheckId)
    requires forall k :: k in ids <==> k in reg
    ensures id in Marked(Listing(ids, reg, self)) <==> id in reg && id !in self && reg[id].version > 0
  {
    var all := Listing(ids, reg, self);
    MarkedIs(all, id);
    if id in reg {
      var i :| 0 <= i < |ids| && ids[i] == id;
      assert all[i].0 == id;
    }
  }

  /** The changelog that is rebuilt for a peer with a new boot time has an entry for every replicated
      check the producer holds, as it holds it, and none for others; so the link can start. */
  lemma RebuiltStarts(ids: seq<CheckId>, reg: Registry, self: set<CheckId>, produced: nat)
    requires forall id :: id in ids <==> id in reg
    ensures var keys := Marked(Listing(ids, reg, self)); var l := Rebuilt(keys, reg, produced);
            LogOk(l, produced + |keys|) && Held(l, reg, self) && Told(l, reg, self)
  {
    var keys := Marked(Listing(ids, reg, self));
    var l := Rebuilt(keys, reg, produced);
    forall i | 0 <= i < |keys| ensures keys[i] in reg && keys[i] !in self && 0 < l.said[i].version == reg[keys[i]].version {
      MarkedKeys(ids, reg, self, keys[i]);
    }
    forall id | id in reg && id !in self && reg[id].version > 0 ensures SaidOf(l, id, reg[id]) {
      MarkedKeys(ids, reg, self, id);
      var i := LastIndex(keys, id);
      assert LastAt(l, id, reg[id], i);
    }
  }
}
