/** One peer's changelog on the producing node: an ordered queue of (key, sequence) entries
    that the peer's requests eat from the front. */
module ClusterLog {

  datatype Entry<K> = Entry(key: K, at: nat)

  ghost predicate Increasing<K>(log: seq<Entry<K>>)
  {
    forall i, j :: 0 <= i < j < |log| ==> log[i].at < log[j].at
  }

  /** How many entries at the front of the log have sequences up to a bound. */
  function Upto<K>(log: seq<Entry<K>>, bound: int): (n: nat)
    ensures n <= |log|
    ensures forall i :: 0 <= i < n ==> log[i].at <= bound
    ensures n < |log| ==> log[n].at > bound
  {
    if log == [] || log[0].at > bound then 0 else 1 + Upto(log[1..], bound)
  }

  /** The keys of a run of entries that the registry has, each once, in order. */
  function Carried<K(==)>(entries: seq<Entry<K>>, has: set<K>): (ks: seq<K>)
    ensures forall k :: k in ks ==> k in has
  {
    if entries == [] then []
    else
      var ks, last := Carried(entries[..|entries| - 1], has), entries[|entries| - 1].key;
      if last in has && last !in ks then ks + [last] else ks
  }

  /** Each key of the entries that the registry has is carried, and nothing else. */
  lemma {:induction false} CarriedIs<K>(entries: seq<Entry<K>>, has: set<K>, k: K)
    ensures k in Carried(entries, has) <==> k in has && exists i :: 0 <= i < |entries| && entries[i].key == k
  {
    if entries != [] {
      var init := entries[..|entries| - 1];
      CarriedIs(init, has, k);
      if i: int :| 0 <= i < |init| && init[i].key == k {
        assert entries[i].key == k;
      } else if entries[|entries| - 1].key != k {
        assert forall i :: 0 <= i < |init| ==> init[i] == entries[i];
      }
    }
  }

  lemma {:induction false} CarriedOnce<K>(entries: seq<Entry<K>>, has: set<K>)
    ensures forall i, j :: 0 <= i < j < |Carried(entries, has)| ==> Carried(entries, has)[i] != Carried(entries, has)[j]
  {
    if entries != [] { CarriedOnce(entries[..|entries| - 1], has); }
  }

  /** What one served request leaves of the log, and the keys its reply carries. */
  function Eaten<K>(log: seq<Entry<K>>, prev: int): seq<Entry<K>> { log[Upto(log, prev)..] }

  function Reply<K(==)>(log: seq<Entry<K>>, end: int, has: set<K>): seq<K>
  {
    Carried(log[..Upto(log, end)], has)
  }

  /** Frees the entries that the peer has acknowledged. */
  method EatAcknowledged<K>(log: seq<Entry<K>>, prev: int) returns (rest: seq<Entry<K>>)
    ensures rest == Eaten(log, prev)
  {
    rest := log;
    while rest != [] && rest[0].at <= prev
      invariant Eaten(rest, prev) == Eaten(log, prev)
    {
      assert rest[1..][Upto(rest[1..], prev)..] == rest[Upto(rest, prev)..];
      rest := rest[1..];
    }
    assert rest[0..] == rest;
  }

  /** Walks the log up to the limit, looking each key up once. */
  method CollectChanges<K(==)>(log: seq<Entry<K>>, end: int, has: set<K>) returns (docs: seq<K>)
    ensures docs == Reply(log, end, has)
  {
    docs := [];
    var seen: set<K> := {};
    var i := 0;
    while i < |log| && log[i].at <= end
      invariant i <= Upto(log, end)
      invariant docs == Carried(log[..i], has)
      invariant forall k :: k in seen <==> exists j :: 0 <= j < i && log[j].key == k
    {
      var k := log[i].key;
      UptoBeyond(log, end, i);
      assert log[..i + 1][..i] == log[..i];
      CarriedIs(log[..i], has, k);
      assert k in seen <==> exists j :: 0 <= j < i && log[..i][j].key == k;
      if k !in seen {
        seen := seen + {k};
        if k in has { docs := docs + [k]; }
      }
      i := i + 1;
    }
  }

  /** noit_cluster_xml_check_changes. */
  method ServeChanges<K(==)>(log: seq<Entry<K>>, prev: int, end: int, has: set<K>)
      returns (rest: seq<Entry<K>>, docs: seq<K>)
    ensures rest == Eaten(log, prev)
    ensures docs == Reply(Eaten(log, prev), end, has)
  {
    rest := EatAcknowledged(log, prev);
    docs := CollectChanges(rest, end, has);
  }

  lemma UptoBeyond<K>(log: seq<Entry<K>>, bound: int, i: nat)
    requires i <= Upto(log, bound) && i < |log| && log[i].at <= bound
    ensures i < Upto(log, bound)
  {}

  /** In an increasing log the front up to a bound is exactly the entries up to it. */
  lemma UptoSplits<K>(log: seq<Entry<K>>, bound: int, i: nat)
    requires Increasing(log) && i < |log|
    ensures log[i].at <= bound <==> i < Upto(log, bound)
  {}

  type PeerId = int

  datatype PeerLog<K> = PeerLog(id: PeerId, log: seq<Entry<K>>)

  /** The keys that are marked, in the order they are walked. */
  function Marked<K>(all: seq<(K, bool)>): seq<K>
  {
    if all == [] then []
    else
      var r, last := Marked(all[..|all| - 1]), all[|all| - 1];
      if last.1 then r + [last.0] else r
  }

  lemma {:induction false} MarkedIs<K>(all: seq<(K, bool)>, k: K)
    ensures k in Marked(all) <==> (k, true) in all
  {
    if all != [] {
      var n := |all| - 1;
      MarkedIs(all[..n], k);
      assert all == all[..n] + [all[n]];
    }
  }

  /** One peer's log replaced. */
  function Relogged<K>(peers: seq<PeerLog<K>>, only: PeerId, log: seq<Entry<K>>): (r: seq<PeerLog<K>>)
    ensures |r| == |peers|
    ensures forall p :: 0 <= p < |peers| ==> r[p] == if peers[p].id == only then PeerLog(only, log) else peers[p]
  {
    seq(|peers|, p requires 0 <= p < |peers| => if peers[p].id == only then PeerLog(only, log) else peers[p])
  }

  /** Entries for some keys, with the sequences after a given one. */
  function Numbered<K>(keys: seq<K>, from: nat): (log: seq<Entry<K>>)
    ensures |log| == |keys| && forall i :: 0 <= i < |keys| ==> log[i] == Entry(keys[i], from + 1 + i)
  {
    seq(|keys|, i requires 0 <= i < |keys| => Entry(keys[i], from + 1 + i))
  }

  lemma MarkedNext<K>(all: seq<(K, bool)>, i: nat, from: nat)
    requires i < |all|
    ensures var now, next := Marked(all[..i]), Marked(all[..i + 1]);
            && next == (if all[i].1 then now + [all[i].0] else now)
            && Numbered(next, from) == Numbered(now, from) + if all[i].1 then [Entry(all[i].0, from + 1 + |now|)] else []
  {
    assert all[..i + 1][..i] == all[..i];
  }

  /** The producing side's state: the sequence produced so far and, in the order the peer table
      is walked, one changelog per peer. */
  class Changelogs<K(==)> {
    var produced: nat
    var peers: seq<PeerLog<K>>

    ghost predicate Valid()
      reads this
    {
      forall p :: 0 <= p < |peers| ==>
        Increasing(peers[p].log) && forall i :: 0 <= i < |peers[p].log| ==> 0 < peers[p].log[i].at <= produced
    }

    /** noit_cluster_mark_filter_changed, and the rest of its twin for checks: one new sequence, and an entry at
        the end of every peer's log, or of the one peer's that is given. */
    method MarkChanged(key: K, all: bool, only: PeerId)
      requires Valid()
      modifies this
      ensures Valid() && produced == old(produced) + 1 && |peers| == |old(peers)|
      ensures forall p :: 0 <= p < |peers| ==>
                peers[p] == if all || old(peers)[p].id == only
                            then PeerLog(old(peers)[p].id, old(peers)[p].log + [Entry(key, produced)])
                            else old(peers)[p]
    {
      produced := produced + 1;
      for p := 0 to |peers|
        invariant produced == old(produced) + 1 && |peers| == |old(peers)|
        invariant forall q :: p <= q < |peers| ==> peers[q] == old(peers)[q]
        invariant forall q :: 0 <= q < p ==>
                    peers[q] == if all || old(peers)[q].id == only
                                then PeerLog(old(peers)[q].id, old(peers)[q].log + [Entry(key, produced)])
                                else old(peers)[q]
      {
        var peer := peers[p];
        if all || peer.id == only { peers := peers[p := PeerLog(peer.id, peer.log + [Entry(key, produced)])]; }
      }
    }

    /** noit_cluster_mark_check_changed: a selfcheck, or a check without a sequence, is not marked. */
    method MarkCheckChanged(key: K, selfcheck: bool, seqno: int, all: bool, only: PeerId)
      requires Valid()
      modifies this
      ensures Valid()
      ensures selfcheck || seqno <= 0 ==> produced == old(produced) && peers == old(peers)
      ensures !selfcheck && seqno > 0 ==> produced == old(produced) + 1 && |peers| == |old(peers)|
      ensures !selfcheck && seqno > 0 ==>
                forall p :: 0 <= p < |peers| ==>
                  peers[p] == if all || old(peers)[p].id == only
                              then PeerLog(old(peers)[p].id, old(peers)[p].log + [Entry(key, produced)])
                              else old(peers)[p]
    {
      if selfcheck || seqno <= 0 { return; }
      MarkChanged(key, all, only);
    }

    /** noit_peer_clear_changelog, for one kind of thing. */
    method Clear(only: PeerId)
      requires Valid()
      modifies this`peers
      ensures Valid() && peers == Relogged(old(peers), only, [])
    {
      peers := Relogged(peers, only, []);
    }

    /** noit_peer_rebuild_changelog, for one kind of thing: a peer's log is emptied, and what is held
        and replicated is marked again for this peer. */
    method Rebuild(all: seq<(K, bool)>, only: PeerId)
      requires Valid()
      modifies this
      ensures Valid() && produced == old(produced) + |Marked(all)|
      ensures peers == Relogged(old(peers), only, Numbered(Marked(all), old(produced)))
    {
      ghost var was, from := peers, produced;
      Clear(only);
      for i := 0 to |all|
        invariant Valid() && produced == from + |Marked(all[..i])|
        invariant peers == Relogged(was, only, Numbered(Marked(all[..i]), from))
      {
        MarkedNext(all, i, from);
        if all[i].1 { MarkChanged(all[i].0, false, only); }
      }
      assert all[..|all|] == all;
    }

    /** Whether any peer's log still mentions a key: never without a cluster, and always when the
        lock is taken and the caller does not wait for it. */
    method ReplicationPending(key: K, inCluster: bool, locked: bool) returns (pending: bool)
      ensures pending <==>
                inCluster && (locked || exists p, i :: 0 <= p < |peers| && 0 <= i < |peers[p].log| && peers[p].log[i].key == key)
    {
      if !inCluster { return false; }
      if locked { return true; }
      for p := 0 to |peers|
        invariant forall q, i :: 0 <= q < p && 0 <= i < |peers[q].log| ==> peers[q].log[i].key != key
      {
        for i := 0 to |peers[p].log|
          invariant forall j :: 0 <= j < i ==> peers[p].log[j].key != key
        {
          if peers[p].log[i].key == key { return true; }
        }
      }
      return false;
    }
  }
}
