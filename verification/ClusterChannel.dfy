/** The consuming side of replication: what a node knows of one peer's changelogs, when it
    starts a job, what the job asks for and what a finished job records. */
module ClusterChannel {
  import opened Options
  import opened ClusterLog

  datatype Channel = Channel(prevFetched: int, fetched: int, available: int, lastBatch: int)

  /** prev acknowledges, end limits; end == 0 asks for nothing. */
  datatype Request = Request(prev: int, end: int)

  /** The batch size of the reply and whether it was processed. */
  datatype Outcome = Outcome(batch: int, success: bool)

  const FRESH := Channel(0, 0, 0, 0)

  predicate HasWork(c: Channel, f: Channel)
  {
    c.lastBatch != 0 || f.lastBatch != 0 || c.available != c.prevFetched || f.available != f.prevFetched
  }

  /** The request for one channel; a batch size of 0 means no limit. */
  function NextRequest(c: Channel, batchSize: nat): Request
  {
    var end := if batchSize > 0 && c.available - c.fetched > batchSize then c.fetched + batchSize else c.available;
    if c.prevFetched == end && c.lastBatch == 0 then Request(0, 0) else Request(c.fetched, end)
  }

  function Finish(c: Channel, r: Request, o: Outcome): Channel
  {
    Channel(if o.success && r.prev != 0 then r.prev else c.prevFetched,
            if o.success && r.end != 0 then r.end else c.fetched,
            c.available, o.batch)
  }

  /** What every step keeps of one channel's counters. */
  predicate InOrder(c: Channel)
  {
    0 <= c.prevFetched <= c.fetched <= c.available && (c.lastBatch != 0 ==> c.prevFetched < c.available)
  }

  /** A request that was made from the channel's present counters; the announced sequence may
      have gone up since. */
  predicate Requested(c: Channel, r: Request)
  {
    r == Request(0, 0) || (r.prev == c.fetched && r.prev <= r.end <= c.available && c.prevFetched < r.end)
  }

  /** The outcomes a request can have: nothing asked, nothing done; an empty range, an empty
      reply; a failed fetch counts 0 and an uninitialised node -1. */
  predicate Possible(r: Request, o: Outcome)
  {
    if r.end == 0 then o == Outcome(0, false)
    else if o.success then o.batch >= 0 && (r.prev == r.end ==> o.batch == 0)
    else o.batch == 0 || o.batch == -1
  }

  lemma NextRequestIs(c: Channel, batchSize: nat)
    requires InOrder(c)
    ensures Requested(c, NextRequest(c, batchSize))
    ensures NextRequest(c, batchSize).end == 0 <==> c.prevFetched == c.available
    ensures var r := NextRequest(c, batchSize);
            r.end != 0 ==> r.prev == c.fetched
                           && r.end == if 0 < batchSize < c.available - c.fetched then c.fetched + batchSize else c.available
  {}

  lemma FinishKeepsOrder(c: Channel, r: Request, o: Outcome)
    requires InOrder(c) && Requested(c, r) && Possible(r, o)
    ensures InOrder(Finish(c, r, o))
    ensures Finish(c, r, o).fetched >= c.fetched && Finish(c, r, o).prevFetched >= c.prevFetched
  {}

  /** A node starts no job exactly when both channels are fully acknowledged. */
  lemma NoWorkIff(c: Channel, f: Channel)
    requires InOrder(c) && InOrder(f)
    ensures !HasWork(c, f) <==> c.prevFetched == c.available && f.prevFetched == f.available
  {}

  /** The measure of one channel, lexicographic. */
  predicate Closer(c': Channel, c: Channel)
  {
    c'.available - c'.fetched < c.available - c.fetched
    || (c'.fetched == c.fetched && c'.available - c'.prevFetched < c.available - c.prevFetched)
  }

  /** One finished job without a failure brings a channel that had work closer to its end,
      for every batch size, and leaves a channel that had none where it was. */
  lemma JobProgress(c: Channel, batchSize: nat, o: Outcome)
    requires InOrder(c) && Possible(NextRequest(c, batchSize), o)
    requires NextRequest(c, batchSize).end != 0 ==> o.success
    ensures var c' := Finish(c, NextRequest(c, batchSize), o);
            if c.prevFetched == c.available then c' == c
            else c'.available == c.available && Closer(c', c)
  {}

  /** The job that is started, if one may be and there is work. */
  function Started(inflight: bool, inCluster: bool, c: Channel, f: Channel, batchSize: nat): Option<(Request, Request)>
  {
    if inflight || !inCluster || !HasWork(c, f) then None else Some((NextRequest(c, batchSize), NextRequest(f, batchSize)))
  }

  /** A job is started exactly when something is not acknowledged, and then it asks for something. */
  lemma StartedIff(c: Channel, f: Channel, batchSize: nat)
    requires InOrder(c) && InOrder(f)
    ensures var job := Started(false, true, c, f, batchSize);
            && (job.Some? <==> !(c.prevFetched == c.available && f.prevFetched == f.available))
            && (job.Some? ==> job.value.0.end != 0 || job.value.1.end != 0)
            && (job.Some? ==> Requested(c, job.value.0) && Requested(f, job.value.1))
  {
    NoWorkIff(c, f);
    NextRequestIs(c, batchSize);
    NextRequestIs(f, batchSize);
  }

  function Beaten(c: Channel, rebooted: bool, announced: Option<int>): Channel
  {
    var c' := if rebooted then c.(fetched := 0, prevFetched := 0) else c;
    if announced.Some? then c'.(available := announced.value) else c'
  }

  /** What is announced does not go down, or counts up from 0 after a reboot. */
  predicate Rising(c: Channel, rebooted: bool, announced: Option<int>)
  {
    announced.Some? ==> if rebooted then announced.value > 0 else announced.value >= c.available
  }

  /** noit_peer_t, as its two inbound channels and the flag that a job is in flight. */
  class Peer {
    var checks: Channel
    var filters: Channel
    var jobInflight: bool

    predicate Valid()
      reads this
    {
      InOrder(checks) && InOrder(filters)
    }

    constructor ()
      ensures Valid() && checks == FRESH && filters == FRESH && !jobInflight
    {
      checks, filters, jobInflight := FRESH, FRESH, false;
    }

    /** possibly_start_job: at most one job at a time, and only while there is work. */
    method PossiblyStartJob(inCluster: bool, batchSize: nat) returns (job: Option<(Request, Request)>)
      modifies this`jobInflight
      ensures job == Started(old(jobInflight), inCluster, checks, filters, batchSize)
      ensures jobInflight <==> old(jobInflight) || job.Some?
    {
      if jobInflight || !inCluster { return None; }
      if HasWork(checks, filters) {
        var c := Request(checks.fetched, checks.available);
        if batchSize > 0 && c.end - c.prev > batchSize { c := Request(c.prev, c.prev + batchSize); }
        var f := Request(filters.fetched, filters.available);
        if batchSize > 0 && f.end - f.prev > batchSize { f := Request(f.prev, f.prev + batchSize); }
        if checks.prevFetched == c.end && checks.lastBatch == 0 { c := Request(0, 0); }
        if filters.prevFetched == f.end && filters.lastBatch == 0 { f := Request(0, 0); }
        jobInflight := true;
        return Some((c, f));
      }
      return None;
    }

    /** The completion half of repl_work, which starts the next job. */
    method FinishJob(c: Request, f: Request, oc: Outcome, of: Outcome, inCluster: bool, batchSize: nat)
      returns (next: Option<(Request, Request)>)
      requires Valid() && Requested(checks, c) && Requested(filters, f) && Possible(c, oc) && Possible(f, of)
      modifies this
      ensures Valid()
      ensures checks == Finish(old(checks), c, oc) && filters == Finish(old(filters), f, of)
      ensures next == Started(false, inCluster, checks, filters, batchSize) && jobInflight == next.Some?
    {
      FinishKeepsOrder(checks, c, oc);
      FinishKeepsOrder(filters, f, of);
      jobInflight := false;
      checks := checks.(lastBatch := oc.batch);
      if oc.success && c.prev != 0 { checks := checks.(prevFetched := c.prev); }
      if oc.success && c.end != 0 { checks := checks.(fetched := c.end); }
      filters := filters.(lastBatch := of.batch);
      if of.success && f.prev != 0 { filters := filters.(prevFetched := f.prev); }
      if of.success && f.end != 0 { filters := filters.(fetched := f.end); }
      next := PossiblyStartJob(inCluster, batchSize);
    }

    /** The part of update_peer that follows a heartbeat of the peer of some id: a new boot time forgets
        what was fetched and rebuilds the peer's changelogs, the announced sequences are taken over, and
        a job may start. */
    method Heartbeat<K(==), F(==)>(id: PeerId, rebooted: bool, checkSeq: Option<int>, filterSeq: Option<int>,
                                   checkLogs: Changelogs<K>, held: seq<(K, bool)>,
                                   filterLogs: Changelogs<F>, sets: seq<(F, bool)>, inCluster: bool, batchSize: nat)
      returns (job: Option<(Request, Request)>)
      requires checkLogs.Valid() && filterLogs.Valid() && (checkLogs as object) != filterLogs
      modifies this, checkLogs, filterLogs
      ensures checks == Beaten(old(checks), rebooted, checkSeq) && filters == Beaten(old(filters), rebooted, filterSeq)
      ensures job == Started(old(jobInflight), inCluster, checks, filters, batchSize)
      ensures jobInflight <==> old(jobInflight) || job.Some?
      ensures old(Valid()) && Rising(old(checks), rebooted, checkSeq) && Rising(old(filters), rebooted, filterSeq) ==> Valid()
      ensures checkLogs.Valid() && filterLogs.Valid()
      ensures checkLogs.produced == old(checkLogs.produced) + (if rebooted then |Marked(held)| else 0)
      ensures checkLogs.peers
           == if !rebooted then old(checkLogs.peers)
              else Relogged(old(checkLogs.peers), id, Numbered(Marked(held), old(checkLogs.produced)))
      ensures filterLogs.produced == old(filterLogs.produced) + (if rebooted then |Marked(sets)| else 0)
      ensures filterLogs.peers
           == if !rebooted then old(filterLogs.peers)
              else Relogged(old(filterLogs.peers), id, Numbered(Marked(sets), old(filterLogs.produced)))
    {
      if rebooted {
        checks := checks.(fetched := 0);
        filters := filters.(fetched := 0);
        checks := checks.(prevFetched := 0);
        filters := filters.(prevFetched := 0);
        filterLogs.Rebuild(sets, id);
        checkLogs.Rebuild(held, id);
      }
      if checkSeq.Some? { checks := checks.(available := checkSeq.value); }
      if filterSeq.Some? { filters := filters.(available := filterSeq.value); }
      job := PossiblyStartJob(inCluster, batchSize);
    }
  }

  /** What a drained channel and its log agree on. */
  ghost predicate Behind<K>(c: Channel, log: seq<Entry<K>>)
  {
    InOrder(c) && Increasing(log) && forall i :: 0 <= i < |log| ==> log[i].at > c.prevFetched
  }

  /** One round of a job on one channel against the producer's log: the request is served and
      the reply processed. A channel without work is not asked for. */
  method Round<K(==)>(c: Channel, log: seq<Entry<K>>, has: set<K>, batchSize: nat)
      returns (c': Channel, log': seq<Entry<K>>, docs: seq<K>, ghost eaten: nat)
    requires Behind(c, log)
    ensures Behind(c', log') && c'.available == c.available && c'.fetched >= c.fetched
    ensures if c.prevFetched == c.available then c' == c else Closer(c', c)
    ensures eaten <= |log| && log' == log[eaten..] && forall i :: 0 <= i < eaten ==> log[i].at <= c.fetched
    ensures forall i :: 0 <= i < |log| && c.fetched < log[i].at <= c'.fetched && log[i].key in has ==> log[i].key in docs
  {
    var r := NextRequest(c, batchSize);
    NextRequestIs(c, batchSize);
    if r.end == 0 {
      assert log == log[0..];
      return c, log, [], 0;
    }
    eaten := Upto(log, r.prev);
    log', docs := ServeChanges(log, r.prev, r.end, has);
    ReplyComplete(log, r, has);
    var o := Outcome(|docs|, true);
    FinishKeepsOrder(c, r, o);
    JobProgress(c, batchSize, o);
    c' := Finish(c, r, o);
  }

  lemma EatenIsPast<K>(log: seq<Entry<K>>, prev: int)
    requires Increasing(log)
    ensures var rest := Eaten(log, prev); Increasing(rest) && forall i :: 0 <= i < |rest| ==> rest[i].at > prev
  {
    var n := Upto(log, prev);
    forall i | 0 <= i < |log[n..]| ensures log[n..][i].at > prev {
      UptoSplits(log, prev, n + i);
    }
  }

  lemma ReplyHas<K>(log: seq<Entry<K>>, end: int, has: set<K>, i: nat)
    requires Increasing(log) && i < |log| && log[i].at <= end && log[i].key in has
    ensures log[i].key in Reply(log, end, has)
  {
    UptoSplits(log, end, i);
    var m := Upto(log, end);
    assert log[..m][i].key == log[i].key;
    CarriedIs(log[..m], has, log[i].key);
  }

  /** A served log has nothing up to prev, and its reply carries every key from there to end;
      an empty range has an empty reply. */
  lemma ReplyComplete<K>(log: seq<Entry<K>>, r: Request, has: set<K>)
    requires Increasing(log)
    ensures var rest := Eaten(log, r.prev);
            && Increasing(rest)
            && (forall i :: 0 <= i < |rest| ==> rest[i].at > r.prev)
            && (r.prev == r.end ==> Reply(rest, r.end, has) == [])
    ensures forall i :: 0 <= i < |log| && r.prev < log[i].at <= r.end && log[i].key in has
              ==> log[i].key in Reply(Eaten(log, r.prev), r.end, has)
  {
    EatenIsPast(log, r.prev);
    var n := Upto(log, r.prev);
    var rest := log[n..];
    forall i | 0 <= i < |log| && r.prev < log[i].at <= r.end && log[i].key in has
      ensures log[i].key in Reply(rest, r.end, has)
    {
      UptoSplits(log, r.prev, i);
      assert rest[i - n] == log[i];
      ReplyHas(rest, r.end, has, i - n);
    }
  }

  /** The chain of jobs that possibly_start_job and repl_work make of each other, on both
      channels, without new edits or failures: it ends, for every batch size, with nothing
      left in either log up to the announced sequence, and what was past the starting point
      and is still registered has been carried. */
  method Drain<K(==), F(==)>(checks: Channel, checkLog: seq<Entry<K>>, hasCheck: set<K>,
                             filters: Channel, filterLog: seq<Entry<F>>, hasFilter: set<F>, batchSize: nat)
      returns (c: Channel, cl: seq<Entry<K>>, cd: seq<K>, f: Channel, fl: seq<Entry<F>>, fd: seq<F>)
    requires Behind(checks, checkLog) && Behind(filters, filterLog)
    ensures !HasWork(c, f) && c.available == checks.available && f.available == filters.available
    ensures forall i :: 0 <= i < |cl| ==> cl[i].at > checks.available
    ensures forall i :: 0 <= i < |fl| ==> fl[i].at > filters.available
    ensures Arrived(checkLog, hasCheck, checks.fetched, checks.available, cd)
    ensures Arrived(filterLog, hasFilter, filters.fetched, filters.available, fd)
  {
    c, cl, cd, f, fl, fd := checks, checkLog, [], filters, filterLog, [];
    ghost var cn, fn := 0, 0;
    while HasWork(c, f)
      invariant Behind(c, cl) && c.available == checks.available && Progress(checkLog, hasCheck, checks.fetched, c.fetched, cl, cn, cd)
      invariant Behind(f, fl) && f.available == filters.available && Progress(filterLog, hasFilter, filters.fetched, f.fetched, fl, fn, fd)
      decreases c.available - c.fetched, c.available - c.prevFetched, f.available - f.fetched, f.available - f.prevFetched
    {
      NoWorkIff(c, f);
      ghost var c0, cl0, cd0, f0, fl0, fd0 := c, cl, cd, f, fl, fd;
      var docs, fdocs;
      ghost var n, m;
      c, cl, docs, n := Round(c, cl, hasCheck, batchSize);
      f, fl, fdocs, m := Round(f, fl, hasFilter, batchSize);
      cd, fd := cd + docs, fd + fdocs;
      ProgressStep(checkLog, hasCheck, checks.fetched, c0.fetched, c.fetched, cl0, cn, cd0, n, docs);
      ProgressStep(filterLog, hasFilter, filters.fetched, f0.fetched, f.fetched, fl0, fn, fd0, m, fdocs);
      cn, fn := cn + n, fn + m;
    }
    NoWorkIff(c, f);
  }

  /** Every registered key with a sequence in (lo, hi] is among the docs. */
  ghost predicate Arrived<K>(log: seq<Entry<K>>, has: set<K>, lo: int, hi: int, docs: seq<K>)
  {
    forall i :: 0 <= i < |log| && lo < log[i].at <= hi && log[i].key in has ==> log[i].key in docs
  }

  ghost predicate Progress<K>(log: seq<Entry<K>>, has: set<K>, lo: int, hi: int, now: seq<Entry<K>>, n: nat, docs: seq<K>)
  {
    && n <= |log| && now == log[n..] && (forall i :: 0 <= i < n ==> log[i].at <= hi)
    && lo <= hi && Arrived(log, has, lo, hi, docs)
  }

  lemma ProgressStep<K>(log: seq<Entry<K>>, has: set<K>, lo: int, mid: int, hi: int,
                        now: seq<Entry<K>>, n: nat, docs: seq<K>, m: nat, more: seq<K>)
    requires Progress(log, has, lo, mid, now, n, docs) && mid <= hi
    requires m <= |now| && forall i :: 0 <= i < m ==> now[i].at <= mid
    requires Arrived(now, has, mid, hi, more)
    ensures Progress(log, has, lo, hi, now[m..], n + m, docs + more)
  {
    forall i | 0 <= i < |log| && lo < log[i].at <= hi && log[i].key in has ensures log[i].key in docs + more {
      if log[i].at > mid { assert now[i - n] == log[i]; }
    }
    forall i | 0 <= i < n + m ensures log[i].at <= hi {
      if i >= n { assert now[i - n] == log[i]; }
    }
  }
}
