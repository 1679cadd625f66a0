/** Range scans over a database whose keys are kept in memcmp order: from the bare uuid until
    the uuid changes. */
module LmdbScan {
  import opened Bytes
  import opened LmdbKey

  type Db = map<bytes, bytes>

  /** The keys of a database in cursor order. */
  ghost predicate Lists(keys: seq<bytes>, db: Db) { StrictlySorted(keys) && Elements(keys) == db.Keys }

  predicate Own(id: Uuid, k: bytes) { |k| >= UUID_SIZE && k[..UUID_SIZE] == id }

  /** MDB_SET_RANGE: the first key at or after a probe. */
  function SetRange(keys: seq<bytes>, probe: bytes): (i: nat)
    ensures i <= |keys|
    ensures forall j :: 0 <= j < i ==> !Le(probe, keys[j])
    ensures i < |keys| ==> Le(probe, keys[i])
  {
    if keys == [] || Le(probe, keys[0]) then 0 else 1 + SetRange(keys[1..], probe)
  }

  /** How far MDB_NEXT goes from a position before the uuid changes. */
  function RunEnd(keys: seq<bytes>, id: Uuid, i: nat): (e: nat)
    requires i <= |keys|
    ensures i <= e <= |keys|
    ensures forall j :: i <= j < e ==> Own(id, keys[j])
    ensures e < |keys| ==> !Own(id, keys[e])
    decreases |keys| - i
  {
    if i < |keys| && Own(id, keys[i]) then RunEnd(keys, id, i + 1) else i
  }

  function Scan(keys: seq<bytes>, id: Uuid): seq<bytes>
  {
    var i := SetRange(keys, id);
    keys[i..RunEnd(keys, id, i)]
  }

  lemma {:induction false} LePrefix(a: bytes, b: bytes)
    requires a <= b
    ensures Le(a, b)
  {
    if a != [] {
      LePrefix(a[1..], b[1..]);
      assert a == [a[0]] + a[1..] && b == [b[0]] + b[1..];
    }
  }

  /** A key after a prefix that does not have it is after everything that does. */
  lemma {:induction false} AfterPrefix(p: bytes, k: bytes, own: bytes)
    requires p <= own && !(p <= k) && Lt(p, k)
    ensures Lt(own, k)
  {
    if p[0] == k[0] {
      assert p == [p[0]] + p[1..] && k == [k[0]] + k[1..] && own == [own[0]] + own[1..];
      AfterPrefix(p[1..], k[1..], own[1..]);
    }
  }

  /** A key after id that is not id's own is after every key of id. */
  lemma BeyondOwn(id: Uuid, k: bytes, own: bytes)
    requires !Own(id, k) && Own(id, own)
    ensures Le(id, k) ==> Lt(own, k) && !Lt(k, own)
  {
    assert id[..UUID_SIZE] == id;
    if Le(id, k) { AfterPrefix(id, k, own); }
    Trichotomy(own, k);
  }

  lemma OwnAfterProbe(id: Uuid, own: bytes)
    requires Own(id, own)
    ensures Le(id, own)
  {
    LePrefix(id, own);
  }

  /** In any database, a key is visited exactly when it is the check's own. */
  lemma ScanIsOwn(keys: seq<bytes>, id: Uuid, k: bytes)
    requires StrictlySorted(keys)
    ensures k in Scan(keys, id) <==> k in keys && Own(id, k)
  {
    var i := SetRange(keys, id);
    var e := RunEnd(keys, id, i);
    if k in keys && Own(id, k) {
      var j :| 0 <= j < |keys| && keys[j] == k;
      OwnAfterProbe(id, k);
      assert j >= i;
      if e < |keys| {
        ProbeKept(keys, id, i, e);
        BeyondOwn(id, keys[e], k);
        Trichotomy(keys[e], k);
      }
      assert j < e;
      assert keys[i..e][j - i] == k;
    }
  }

  lemma ProbeKept(keys: seq<bytes>, id: Uuid, i: nat, e: nat)
    requires StrictlySorted(keys) && i <= e < |keys| && Le(id, keys[i])
    ensures Le(id, keys[e])
  {
    if i < e && id != keys[i] { LtTransitive(id, keys[i], keys[e]); }
  }

  /** noit_lmdb_check_keys_to_hash_table: the cursor loop. */
  method CollectKeys(keys: seq<bytes>, id: Uuid) returns (own: seq<bytes>)
    requires StrictlySorted(keys)
    ensures own == Scan(keys, id)
    ensures forall k :: k in own <==> k in keys && Own(id, k)
  {
    var i := SetRange(keys, id);
    own := [];
    ghost var start := i;
    while i < |keys|
      invariant start <= i <= |keys| && own == keys[start..i]
      invariant RunEnd(keys, id, i) == RunEnd(keys, id, start)
    {
      if !Own(id, keys[i]) { break; }
      own := own + [keys[i]];
      i := i + 1;
    }
    ScanMembers(keys, id);
  }

  lemma ScanMembers(keys: seq<bytes>, id: Uuid)
    requires StrictlySorted(keys)
    ensures forall k :: k in Scan(keys, id) <==> k in keys && Own(id, k)
  {
    forall k ensures k in Scan(keys, id) <==> k in keys && Own(id, k) {
      ScanIsOwn(keys, id, k);
    }
  }
}
