/** Replacing one check's keys in a transaction that may run out of map space at any point,
    abort, grow the map and start over while other writers go on. */
module LmdbStore {
  import opened Options
  import opened Bytes
  import opened LmdbKey
  import opened LmdbScan

  const ATTRIBUTE: byte := 65
  const CONFIG: byte := 67

  function Ascii(s: string): bytes
  {
    if s == [] then [] else [s[0] as int % 256] + Ascii(s[1..])
  }

  /** The attribute nodes that are stored; any other node is ignored. */
  predicate Stored(name: string)
  {
    name in {"name", "target", "resolve_rtype", "module", "period", "timeout", "disable", "filterset", "seq",
             "transient_min_period", "transient_period_granularity"}
  }

  datatype Attr = Attr(name: string, value: Option<bytes>)

  /** A config node: a first XML attribute, when there is one, names the key instead of the node. */
  datatype Item = Item(ns: Option<bytes>, name: bytes, attribute: Option<Option<bytes>>, value: Option<bytes>)

  /** A request: its attribute and config nodes, the sequence held so far, and strtoll. */
  datatype Request = Request(attrs: seq<Attr>, config: seq<Item>, oldSeq: nat, strtoll: bytes -> int)

  datatype Put = Put(key: bytes, value: bytes)

  function AttrPut(id: Uuid, a: Attr): seq<Put>
  {
    if Stored(a.name) && a.value.Some? then [Put(MakeKey(id, ATTRIBUTE, None, Some(Ascii(a.name))), a.value.value)] else []
  }

  function KeyName(i: Item): Option<bytes>
  {
    if i.attribute.Some? then i.attribute.value else Some(i.name)
  }

  function ItemPut(id: Uuid, i: Item): seq<Put>
  {
    if i.value.Some? then [Put(MakeKey(id, CONFIG, i.ns, KeyName(i)), i.value.value)] else []
  }

  /** A sequence attribute that is not newer than the sequence held. */
  predicate Stale(req: Request, a: Attr)
  {
    a.name == "seq" && req.oldSeq != 0 &&
    var v := req.strtoll(Present(a.value));
    req.oldSeq >= if v < 0 then 0 else v
  }

  predicate Rejects(req: Request) { exists i :: 0 <= i < |req.attrs| && Stale(req, req.attrs[i]) }

  /** The puts of some nodes, in order. */
  function PutsBy<T>(put: T -> seq<Put>, nodes: seq<T>): seq<Put>
  {
    if nodes == [] then [] else PutsBy(put, nodes[..|nodes| - 1]) + put(nodes[|nodes| - 1])
  }

  function AttrPutter(id: Uuid): Attr -> seq<Put> { (a: Attr) => AttrPut(id, a) }

  function ItemPutter(id: Uuid): Item -> seq<Put> { (i: Item) => ItemPut(id, i) }

  function Puts(id: Uuid, req: Request): seq<Put> { PutsBy(AttrPutter(id), req.attrs) + PutsBy(ItemPutter(id), req.config) }

  /** The puts of a request as a map: the last put of a key wins. */
  function Written(ps: seq<Put>): Db
  {
    if ps == [] then map[] else Written(ps[..|ps| - 1])[ps[|ps| - 1].key := ps[|ps| - 1].value]
  }

  function OwnKeys(db: Db, id: Uuid): set<bytes> { set k | k in db && Own(id, k) }

  /** The database with the check's keys replaced by those of the request. */
  function Replaced(db: Db, id: Uuid, ps: seq<Put>): Db { (db - OwnKeys(db, id)) + Written(ps) }

  /** What a transaction leaves: the puts, less those keys seen beforehand that were not put. */
  function Applied(seen: set<bytes>, db: Db, ps: seq<Put>): Db { (db + Written(ps)) - (seen - Written(ps).Keys) }

  // ---------- the keys a request writes ----------

  ghost predicate AllOwn(id: Uuid, ps: seq<Put>) { forall i :: 0 <= i < |ps| ==> Own(id, ps[i].key) }

  lemma MadeKeyIsOwn(id: Uuid, kind: byte, ns: Option<bytes>, name: Option<bytes>)
    ensures Own(id, MakeKey(id, kind, ns, name))
  {
    KeyPieces(id, kind, Present(ns), Present(name));
  }

  lemma AttrPutOwn(id: Uuid, a: Attr)
    ensures AllOwn(id, AttrPut(id, a))
  {
    MadeKeyIsOwn(id, ATTRIBUTE, None, Some(Ascii(a.name)));
  }

  lemma ItemPutOwn(id: Uuid, i: Item)
    ensures AllOwn(id, ItemPut(id, i))
  {
    MadeKeyIsOwn(id, CONFIG, i.ns, KeyName(i));
  }

  lemma AllOwnAppend(id: Uuid, ps: seq<Put>, qs: seq<Put>)
    requires AllOwn(id, ps) && AllOwn(id, qs)
    ensures AllOwn(id, ps + qs)
  {}

  lemma {:induction false} PutsByOwn<T>(id: Uuid, put: T -> seq<Put>, nodes: seq<T>)
    requires forall i :: 0 <= i < |nodes| ==> AllOwn(id, put(nodes[i]))
    ensures AllOwn(id, PutsBy(put, nodes))
  {
    if nodes != [] {
      PutsByOwn(id, put, nodes[..|nodes| - 1]);
      AllOwnAppend(id, PutsBy(put, nodes[..|nodes| - 1]), put(nodes[|nodes| - 1]));
    }
  }

  lemma PutsOwn(id: Uuid, req: Request)
    ensures AllOwn(id, Puts(id, req))
  {
    forall i | 0 <= i < |req.attrs| ensures AllOwn(id, AttrPutter(id)(req.attrs[i])) {
      AttrPutOwn(id, req.attrs[i]);
    }
    PutsByOwn(id, AttrPutter(id), req.attrs);
    forall i | 0 <= i < |req.config| ensures AllOwn(id, ItemPutter(id)(req.config[i])) {
      ItemPutOwn(id, req.config[i]);
    }
    PutsByOwn(id, ItemPutter(id), req.config);
    AllOwnAppend(id, PutsBy(AttrPutter(id), req.attrs), PutsBy(ItemPutter(id), req.config));
  }

  /** The last put of a key among some puts. */
  ghost predicate LastPut(ps: seq<Put>, i: int, k: bytes, v: bytes)
  {
    0 <= i < |ps| && ps[i] == Put(k, v) && forall j :: i < j < |ps| ==> ps[j].key != k
  }

  lemma {:induction false} WrittenKeys(ps: seq<Put>, k: bytes)
    ensures k !in Written(ps) ==> forall i :: 0 <= i < |ps| ==> ps[i].key != k
    ensures k in Written(ps) ==> exists i :: LastPut(ps, i, k, Written(ps)[k])
  {
    if ps != [] {
      var init, last := ps[..|ps| - 1], ps[|ps| - 1];
      WrittenKeys(init, k);
      assert forall i :: 0 <= i < |init| ==> init[i] == ps[i];
      if last.key == k {
        assert LastPut(ps, |ps| - 1, k, last.value);
      } else if k in Written(init) {
        var i :| LastPut(init, i, k, Written(init)[k]);
        assert LastPut(ps, i, k, Written(init)[k]);
      }
    }
  }

  lemma WrittenOwn(id: Uuid, ps: seq<Put>)
    requires AllOwn(id, ps)
    ensures forall k :: k in Written(ps) ==> Own(id, k)
  {
    forall k | k in Written(ps) ensures Own(id, k) {
      WrittenKeys(ps, k);
      var i :| LastPut(ps, i, k, Written(ps)[k]);
      assert Own(id, ps[i].key);
    }
  }

  /** After a replacement the check's keys are exactly those of the request, each with the value
      of its last put, and no other check's key has changed. */
  lemma ReplacedIs(db: Db, id: Uuid, req: Request, k: bytes)
    ensures var r, ps := Replaced(db, id, Puts(id, req)), Puts(id, req);
            if Own(id, k) then
              && (k in r ==> exists i :: LastPut(ps, i, k, r[k]))
              && (k !in r ==> forall i :: 0 <= i < |ps| ==> ps[i].key != k)
            else (k in r <==> k in db) && (k in db ==> r[k] == db[k])
  {
    var ps := Puts(id, req);
    PutsOwn(id, req);
    WrittenKeys(ps, k);
    WrittenOwn(id, ps);
  }

  /** The keys are read before the write transaction begins.  The transaction replaces the check's
      keys exactly when no other writer added one in between that the request does not put. */
  lemma AppliedReplacesIff(seen: set<bytes>, db: Db, id: Uuid, req: Request)
    requires forall k :: k in seen ==> Own(id, k)
    ensures Applied(seen, db, Puts(id, req)) == Replaced(db, id, Puts(id, req))
       <==> OwnKeys(db, id) <= seen + Written(Puts(id, req)).Keys
  {
    var ps := Puts(id, req);
    PutsOwn(id, req);
    WrittenOwn(id, ps);
    var a, r, w := Applied(seen, db, ps), Replaced(db, id, ps), Written(ps).Keys;
    if OwnKeys(db, id) <= seen + w {
      forall k ensures k in a <==> k in r { assert Own(id, k) && k in db ==> k in seen + w; }
      assert a.Keys == r.Keys;
      assert a == r;
    } else {
      var k :| k in OwnKeys(db, id) && k !in seen + w;
      assert k in a && k !in r;
    }
  }

  /** A key another writer added in between is left behind. */
  lemma RaceLeavesKey(id: Uuid, req: Request, k: bytes, v: bytes)
    requires Own(id, k) && k !in Written(Puts(id, req))
    ensures k in Applied({}, map[k := v], Puts(id, req)) && k !in Replaced(map[k := v], id, Puts(id, req))
  {
    assert k in OwnKeys(map[k := v], id);
  }

  // ---------- one transaction ----------

  /** One pass of the transaction: the keys in cursor order when they were read, the database when
      the write transaction began, and the operation, if any, that finds the map full. */
  datatype Try = Try(keys: seq<bytes>, db: Db, full: Option<nat>)
  {
    ghost predicate Valid() { StrictlySorted(keys) }
  }

  datatype Outcome = Full | Refused | Done(db: Db)

  /** The transaction so far, the keys seen and not put so far, and how many operations were done. */
  datatype Progress = Progress(txn: Db, left: set<bytes>, op: nat)

  function PutOne(p: Progress, q: Put): Progress
  {
    Progress(p.txn[q.key := q.value], p.left - {q.key}, p.op + 1)
  }

  function PutAll(p: Progress, ps: seq<Put>): Progress
  {
    if ps == [] then p else PutOne(PutAll(p, ps[..|ps| - 1]), ps[|ps| - 1])
  }

  lemma PutOneIs<K, V>(db: map<K, V>, seen: set<K>, w: map<K, V>, k: K, v: V)
    ensures (db + w)[k := v] == db + w[k := v]
    ensures seen - w.Keys - {k} == seen - w[k := v].Keys
  {}

  lemma {:induction false} PutAllIs(db: Db, seen: set<bytes>, ps: seq<Put>)
    ensures PutAll(Progress(db, seen, 0), ps) == Progress(db + Written(ps), seen - Written(ps).Keys, |ps|)
  {
    if ps != [] {
      PutAllIs(db, seen, ps[..|ps| - 1]);
      PutOneIs(db, seen, Written(ps[..|ps| - 1]), ps[|ps| - 1].key, ps[|ps| - 1].value);
    }
  }

  lemma {:induction false} PutAllAppend(p: Progress, ps: seq<Put>, qs: seq<Put>)
    ensures PutAll(p, ps + qs) == PutAll(PutAll(p, ps), qs)
  {
    if qs == [] {
      assert ps + qs == ps;
    } else {
      PutAllAppend(p, ps, qs[..|qs| - 1]);
      assert (ps + qs)[..|ps + qs| - 1] == ps + qs[..|qs| - 1];
    }
  }

  function PutAny(p: Progress, ps: seq<Put>): Progress { if |ps| == 1 then PutOne(p, ps[0]) else p }

  /** The progress after the first nodes. */
  function PutFirst<T>(put: T -> seq<Put>, nodes: seq<T>, i: nat, start: Progress): Progress
    requires i <= |nodes|
  {
    if i == 0 then start else PutAny(PutFirst(put, nodes, i - 1, start), put(nodes[i - 1]))
  }

  lemma {:induction false} PutFirstIs<T>(put: T -> seq<Put>, nodes: seq<T>, i: nat, start: Progress)
    requires i <= |nodes| && forall j :: 0 <= j < |nodes| ==> |put(nodes[j])| <= 1
    ensures PutFirst(put, nodes, i, start) == PutAll(start, PutsBy(put, nodes[..i]))
  {
    if i > 0 {
      PutFirstIs(put, nodes, i - 1, start);
      var ps, before := put(nodes[i - 1]), PutAll(start, PutsBy(put, nodes[..i - 1]));
      assert nodes[..i][..i - 1] == nodes[..i - 1];
      PutAllAppend(start, PutsBy(put, nodes[..i - 1]), ps);
      if |ps| == 1 { assert PutAll(before, ps[..0]) == before; }
    }
  }

  datatype Pass = Filled | Turned | Over

  /** The loop over one kind of nodes; a stale node ends it after its own put. */
  method PutNodes<T>(put: T -> seq<Put>, stale: T -> bool, nodes: seq<T>, full: Option<nat>, start: Progress)
    returns (r: Pass, p: Progress)
    requires forall i :: 0 <= i < |nodes| ==> |put(nodes[i])| <= 1
    ensures r == Filled ==> full.Some?
    ensures r == Turned ==> exists i :: 0 <= i < |nodes| && stale(nodes[i])
    ensures r == Over ==> p == PutAll(start, PutsBy(put, nodes))
                          && forall i :: 0 <= i < |nodes| ==> !stale(nodes[i])
  {
    p := start;
    var i := 0;
    while i < |nodes|
      invariant i <= |nodes| && p == PutFirst(put, nodes, i, start)
      invariant forall j :: 0 <= j < i ==> !stale(nodes[j])
    {
      var ps := put(nodes[i]);
      if |ps| == 1 {
        if full == Some(p.op) { return Filled, p; }
        p := PutOne(p, ps[0]);
      }
      if stale(nodes[i]) { return Turned, p; }
      i := i + 1;
    }
    PutFirstIs(put, nodes, i, start);
    assert nodes[..i] == nodes;
    r := Over;
  }

  /** The keys that were seen and not put are deleted one by one. */
  method DeleteLeft(own: seq<bytes>, left: set<bytes>, full: Option<nat>, start: nat, db: Db)
    returns (ok: bool, op: nat, txn: Db)
    requires forall k :: k in left ==> k in own
    ensures full.None? ==> ok
    ensures ok ==> txn == db - left
  {
    ok, op, txn := true, start, db;
    var i := 0;
    while i < |own|
      invariant i <= |own| && ok
      invariant txn == db - (set k | k in own[..i] && k in left)
    {
      if own[i] in left {
        if full == Some(op) { return false, op, txn; }
        txn, op := txn - {own[i]}, op + 1;
      }
      assert own[..i + 1] == own[..i] + [own[i]];
      i := i + 1;
    }
    assert own[..i] == own;
    assert (set k | k in own && k in left) == left;
  }

  /** The writing part of a pass, over any two kinds of nodes. */
  method Write<A, B>(own: seq<bytes>, db: Db, full: Option<nat>, attrs: seq<A>, attrPut: A -> seq<Put>,
                     stale: A -> bool, items: seq<B>, itemPut: B -> seq<Put>)
    returns (r: Outcome)
    requires forall i :: 0 <= i < |attrs| ==> |attrPut(attrs[i])| <= 1
    requires forall i :: 0 <= i < |items| ==> |itemPut(items[i])| <= 1
    ensures r.Full? ==> full.Some?
    ensures r.Refused? ==> exists i :: 0 <= i < |attrs| && stale(attrs[i])
    ensures r.Done? ==> forall i :: 0 <= i < |attrs| ==> !stale(attrs[i])
    ensures r.Done? ==> r.db == Applied(Elements(own), db, PutsBy(attrPut, attrs) + PutsBy(itemPut, items))
  {
    var start := Progress(db, set k | k in own, 0);
    var pass, p := PutNodes(attrPut, stale, attrs, full, start);
    if pass == Filled { return Full; }
    if pass == Turned { return Refused; }
    pass, p := PutNodes(itemPut, (i: B) => false, items, full, p);
    if pass != Over { return Full; }
    PutAllAppend(start, PutsBy(attrPut, attrs), PutsBy(itemPut, items));
    PutAllIs(db, start.left, PutsBy(attrPut, attrs) + PutsBy(itemPut, items));
    var ok, op, txn := DeleteLeft(own, p.left, full, p.op, p.txn);
    if !ok || full == Some(op) { return Full; }
    return Done(txn);
  }

  /** One pass, from put_retry to the commit. */
  method Transaction(t: Try, id: Uuid, req: Request) returns (r: Outcome)
    requires t.Valid()
    ensures r.Full? ==> t.full.Some?
    ensures r.Refused? ==> Rejects(req)
    ensures r.Done? ==> !Rejects(req) && r.db == Applied(Elements(Scan(t.keys, id)), t.db, Puts(id, req))
  {
    var own := CollectKeys(t.keys, id);
    r := Write(own, t.db, t.full, req.attrs, AttrPutter(id), (a: Attr) => Stale(req, a), req.config, ItemPutter(id));
  }

  /** Nobody else writes: every pass begins with the first database and has seen all its keys. */
  ghost predicate Alone(tries: seq<Try>)
  {
    forall i :: 0 <= i < |tries| ==> tries[i].db == tries[0].db && Lists(tries[i].keys, tries[0].db)
  }

  /** noit_check_lmdb_configure_check: passes are repeated, each with the map grown, until one does
      not find it full. */
  method Configure(tries: seq<Try>, id: Uuid, req: Request) returns (rc: int, db: Db, used: nat)
    requires |tries| > 0 && tries[|tries| - 1].full.None?
    requires forall i :: 0 <= i < |tries| ==> tries[i].Valid()
    ensures used < |tries| && forall i :: 0 <= i < used ==> tries[i].full.Some?
    ensures rc == if Rejects(req) then -1 else 0
    ensures db == if Rejects(req) then tries[used].db
                  else Applied(Elements(Scan(tries[used].keys, id)), tries[used].db, Puts(id, req))
    ensures Alone(tries) ==> db == if Rejects(req) then tries[0].db else Replaced(tries[0].db, id, Puts(id, req))
  {
    used := 0;
    while true
      invariant used < |tries|
      invariant forall i :: 0 <= i < used ==> tries[i].full.Some?
      decreases |tries| - used
    {
      var r := Transaction(tries[used], id, req);
      match r
      case Full => used := used + 1;
      case Refused => return -1, tries[used].db, used;
      case Done(txn) =>
        if Alone(tries) { UndisturbedReplaces(tries[used], id, req); }
        return 0, txn, used;
    }
  }

  /** Without another writer to the check, the pass that commits replaces its keys, whatever passes
      before it were aborted. */
  lemma UndisturbedReplaces(t: Try, id: Uuid, req: Request)
    requires t.Valid() && forall k :: k in t.db && Own(id, k) ==> k in t.keys
    ensures Applied(Elements(Scan(t.keys, id)), t.db, Puts(id, req)) == Replaced(t.db, id, Puts(id, req))
  {
    ScanMembers(t.keys, id);
    AppliedReplacesIff(Elements(Scan(t.keys, id)), t.db, id, req);
  }

  // ---------- removal ----------

  /** The check is flagged for removal. */
  predicate Flagged(db: Db, id: Uuid)
  {
    var k := MakeKey(id, ATTRIBUTE, None, Some(Ascii("deleted")));
    k in db && db[k] in {Ascii("deleted"), Ascii("true")}
  }

  const NOTFOUND: int := -30798

  /** From the bare uuid, keys are deleted until the uuid changes. */
  method DeleteOwn(keys: seq<bytes>, db: Db, id: Uuid) returns (rc: int, db': Db)
    requires Lists(keys, db)
    ensures db' == db - OwnKeys(db, id)
    ensures rc == 0 || (rc == NOTFOUND && OwnKeys(db, id) == {})
  {
    var i := SetRange(keys, id);
    var start := i;
    ScanIsOwnKeys(keys, db, id);
    db' := db;
    while i < |keys| && Own(id, keys[i])
      invariant start <= i <= |keys|
      invariant db' == db - Elements(keys[start..i])
      invariant RunEnd(keys, id, i) == RunEnd(keys, id, start)
    {
      RemoveStep(db, keys, start, i);
      db' := db' - {keys[i]};
      i := i + 1;
    }
    rc := if start == |keys| then NOTFOUND else 0;
  }

  /** noit_check_lmdb_remove_check_from_db: only a forced removal ignores the flag. */
  method Remove(keys: seq<bytes>, db: Db, id: Uuid, force: bool) returns (rc: int, db': Db)
    requires Lists(keys, db)
    ensures !force && !Flagged(db, id) ==> rc == -1 && db' == db
    ensures force || Flagged(db, id) ==> db' == db - OwnKeys(db, id)
    ensures force || Flagged(db, id) ==> rc == 0 || (rc == -30798 && OwnKeys(db, id) == {})
  {
    if !force && !Flagged(db, id) { return -1, db; }
    rc, db' := DeleteOwn(keys, db, id);
  }

  lemma RemoveStep(db: Db, keys: seq<bytes>, start: nat, i: nat)
    requires start <= i < |keys|
    ensures db - Elements(keys[start..i]) - {keys[i]} == db - Elements(keys[start..i + 1])
  {
    assert keys[start..i + 1] == keys[start..i] + [keys[i]];
  }

  lemma ScanIsOwnKeys(keys: seq<bytes>, db: Db, id: Uuid)
    requires Lists(keys, db)
    ensures Elements(Scan(keys, id)) == OwnKeys(db, id)
    ensures SetRange(keys, id) == |keys| ==> OwnKeys(db, id) == {}
  {
    ScanMembers(keys, id);
    assert forall k :: k in keys <==> k in Elements(keys);
  }
}
