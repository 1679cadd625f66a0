/** An edit while a request is served: the code takes the old check out of the registry, marks the change
    in the changelogs, and only then puts the new check in. */
module ClusterRace {
  import opened ClusterLog
  import opened ClusterChannel
  import opened ClusterLink

  /** The reply accounts for all it was asked for. */
  ghost predicate Answered(l: Link, self: set<CheckId>)
  {
    |l.said| == |l.hist| && l.dropped <= |l.hist| && PhaseOk(l, self)
  }

  /** The peer has heard every live entry of a check that its request reaches. */
  ghost predicate HeardAlready(l: Link, id: CheckId)
    requires |l.said| == |l.hist| && l.phase.Asked?
  {
    forall i :: l.dropped <= i < |l.hist| && l.hist[i].key == id && l.phase.r.prev < l.hist[i].at <= l.phase.r.end
      ==> Knows(l, i)
  }

  lemma NotCarried(l: Link, reg: Registry, self: set<CheckId>, id: CheckId)
    requires l.phase.Asked? && l.dropped <= |l.hist| && id !in reg
    ensures forall d :: d in Serve(l, reg, self).phase.docs ==> d.id != id
  {
    var ids := Reply(Eaten(Live(l), l.phase.r.prev), l.phase.r.end, reg.Keys - self);
    var docs := Serve(l, reg, self).phase.docs;
    forall j | 0 <= j < |docs| ensures docs[j].id != id {
      assert ids[j] in ids;
      assert docs[j] == Doc(ids[j], reg[ids[j]]);
    }
  }

  lemma UnheardIsLost(l: Link, reg: Registry, self: set<CheckId>, id: CheckId, i: nat)
    requires |l.said| == |l.hist| && l.phase.Asked? && l.dropped <= i < |l.hist|
    requires l.hist[i].key == id && l.hist[i].at <= l.phase.r.end && !Knows(l, i)
    ensures !Answered(Serve(l, reg - {id}, self), self)
  {
    var l' := Serve(l, reg - {id}, self);
    NotCarried(l, reg - {id}, self, id);
    SameKnows(l, l');
    assert !Covers(l', l'.phase.docs, i);
  }

  lemma OtherCovered(l: Link, produced: nat, reg: Registry, self: set<CheckId>, id: CheckId, i: nat)
    requires LinkOk(l, produced, self) && Held(l, reg, self) && Told(l, reg, self) && l.phase.Asked? && HeardAlready(l, id)
    requires i < |l.hist| && l.hist[i].at <= l.phase.r.end && !Knows(l, i)
    ensures Covers(Serve(l, reg - {id}, self), Serve(l, reg - {id}, self).phase.docs, i)
  {
    assert SaidOf(l, l.hist[i].key, reg[l.hist[i].key]);
    ServeCovers(l, produced, reg - {id}, self, i);
  }

  lemma HeardIsAnswered(l: Link, produced: nat, reg: Registry, self: set<CheckId>, id: CheckId, l': Link)
    requires LinkOk(l, produced, self) && Held(l, reg, self) && Told(l, reg, self)
    requires l.phase.Asked? && l.phase.r.end != 0 && HeardAlready(l, id) && l' == Serve(l, reg - {id}, self)
    ensures Answered(l', self)
  {
    forall i | 0 <= i < |l.hist| && l.hist[i].at <= l.phase.r.end
      ensures Knows(l, i) || Covers(l', l'.phase.docs, i)
    {
      if !Knows(l, i) { OtherCovered(l, produced, reg, self, id, i); }
    }
    AnsweredPhase(l, produced, reg - {id}, self, l');
  }

  /** A request that is served while an edit has the check out of the registry, before or after the
      change is marked, is answered in full exactly when it reaches no entry of the check that the peer
      has not heard; reg is the registry with the old or the new check. */
  lemma ServedDuringEditIff(l: Link, produced: nat, reg: Registry, self: set<CheckId>, id: CheckId)
    requires LinkOk(l, produced, self) && Held(l, reg, self) && Told(l, reg, self) && l.phase.Asked? && l.phase.r.end != 0
    ensures Answered(Serve(l, reg - {id}, self), self) <==> HeardAlready(l, id)
  {
    if HeardAlready(l, id) {
      HeardIsAnswered(l, produced, reg, self, id, Serve(l, reg - {id}, self));
    } else {
      var i :| l.dropped <= i < |l.hist| && l.hist[i].key == id && l.phase.r.prev < l.hist[i].at <= l.phase.r.end
               && !Knows(l, i);
      UnheardIsLost(l, reg, self, id, i);
    }
  }
}
