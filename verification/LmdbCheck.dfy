/** What the database holds of a check after it was configured: its attributes, its config, and a
    sequence that does not go down. */
module LmdbCheck {
  import opened Options
  import opened Bytes
  import opened LmdbKey
  import opened LmdbScan
  import opened LmdbStore

  const NAMES := {"name", "target", "resolve_rtype", "module", "period", "timeout", "disable", "filterset", "seq",
                  "transient_min_period", "transient_period_granularity"}

  /** The key of an attribute: type 'A' and no namespace. */
  function AttrKey(id: Uuid, name: string): bytes { MakeKey(id, 65, None, Some(Ascii(name))) }

  /** The key of a config item: type 'C'. */
  function ItemKey(id: Uuid, ns: Option<bytes>, name: Option<bytes>): bytes { MakeKey(id, 67, ns, name) }

  lemma {:induction false} AsciiIs(s: string)
    requires forall i :: 0 <= i < |s| ==> s[i] < 256 as char
    ensures |Ascii(s)| == |s| && forall i :: 0 <= i < |s| ==> Ascii(s)[i] == s[i] as int
  {
    if s != [] {
      AsciiIs(s[1..]);
      assert forall i :: 0 < i < |s| ==> Ascii(s)[i] == Ascii(s[1..])[i - 1];
    }
  }

  predicate Latin(s: string) { |s| < 65536 && forall i :: 0 <= i < |s| ==> s[i] < 256 as char }

  lemma AsciiInjective(s: string, t: string)
    requires Latin(s) && Latin(t) && Ascii(s) == Ascii(t)
    ensures s == t
  {
    AsciiIs(s);
    AsciiIs(t);
    assert forall i :: 0 <= i < |s| ==> s[i] as int == t[i] as int;
  }

  lemma NamesAreLatin(name: string)
    requires name in NAMES
    ensures Latin(name)
  {}

  lemma AttrKeysDiffer(id: Uuid, name: string, other: string)
    requires Latin(name) && Latin(other) && AttrKey(id, name) == AttrKey(id, other)
    ensures name == other
  {
    AsciiIs(name);
    AsciiIs(other);
    KeyInjective(id, 65, None, Some(Ascii(name)), id, 65, None, Some(Ascii(other)));
    AsciiInjective(name, other);
  }

  lemma KindsDiffer(id: Uuid, name: string, ns: Option<bytes>, item: Option<bytes>)
    ensures AttrKey(id, name) != ItemKey(id, ns, item)
  {
    KeyPieces(id, 65, [], Ascii(name));
    KeyPieces(id, 67, Present(ns), Present(item));
  }

  // ---------- attributes ----------

  /** The value of the last node of a name that has one. */
  function LastValue(attrs: seq<Attr>, name: string): Option<bytes>
  {
    if attrs == [] then None
    else
      var last := attrs[|attrs| - 1];
      if last.name == name && last.value.Some? then last.value else LastValue(attrs[..|attrs| - 1], name)
  }

  lemma {:induction false} WrittenAppend(ps: seq<Put>, qs: seq<Put>)
    ensures Written(ps + qs) == Written(ps) + Written(qs)
  {
    if qs == [] {
      assert ps + qs == ps;
    } else {
      var init, last := qs[..|qs| - 1], qs[|qs| - 1];
      WrittenAppend(ps, init);
      assert (ps + qs)[..|ps + qs| - 1] == ps + init;
      PutOneIs(Written(ps), {}, Written(init), last.key, last.value);
    }
  }

  lemma WrittenOne(p: Put)
    ensures Written([p]) == map[p.key := p.value] && Written([]) == map[]
  {
    assert [p][..0] == [];
  }

  /** Among the attributes' puts a key of one of the eleven names has the last value of that name. */
  lemma {:induction false} AttrsWritten(id: Uuid, attrs: seq<Attr>, name: string)
    requires Latin(name)
    ensures var w := Written(PutsBy(AttrPutter(id), attrs));
            if name in NAMES && LastValue(attrs, name).Some?
            then AttrKey(id, name) in w && w[AttrKey(id, name)] == LastValue(attrs, name).value
            else AttrKey(id, name) !in w
  {
    if attrs != [] {
      var init, a := attrs[..|attrs| - 1], attrs[|attrs| - 1];
      AttrsWritten(id, init, name);
      WrittenAppend(PutsBy(AttrPutter(id), init), AttrPut(id, a));
      LastAttr(id, a, name);
    }
  }

  lemma StoredNames(name: string)
    ensures Stored(name) <==> name in NAMES
  {}

  lemma OneAttr(id: Uuid, a: Attr, stored: bool)
    requires stored <==> Stored(a.name)
    ensures Written(AttrPut(id, a)) == if stored && a.value.Some? then map[AttrKey(id, a.name) := a.value.value] else map[]
  {
    if stored && a.value.Some? { WrittenOne(Put(AttrKey(id, a.name), a.value.value)); }
  }

  /** What one attribute node writes. */
  lemma LastAttr(id: Uuid, a: Attr, name: string)
    requires Latin(name)
    ensures Written(AttrPut(id, a))
         == if a.name in NAMES && a.value.Some? then map[AttrKey(id, a.name) := a.value.value] else map[]
    ensures a.name in NAMES && AttrKey(id, a.name) == AttrKey(id, name) ==> a.name == name
  {
    StoredNames(a.name);
    var stored := a.name in NAMES;
    if stored {
      NamesAreLatin(a.name);
      if AttrKey(id, a.name) == AttrKey(id, name) { AttrKeysDiffer(id, a.name, name); }
    }
    OneAttr(id, a, stored);
  }

  lemma {:induction false} ItemsWriteNoAttr(id: Uuid, items: seq<Item>, name: string)
    ensures AttrKey(id, name) !in Written(PutsBy(ItemPutter(id), items))
  {
    if items != [] {
      var init, i := items[..|items| - 1], items[|items| - 1];
      ItemsWriteNoAttr(id, init, name);
      WrittenAppend(PutsBy(ItemPutter(id), init), ItemPut(id, i));
      KindsDiffer(id, name, i.ns, KeyName(i));
      if i.value.Some? { WrittenOne(Put(ItemKey(id, i.ns, KeyName(i)), i.value.value)); }
    }
  }

  /** After a replacement, the check has exactly the attributes among the eleven names that the request
      gives a value to, each with its last value. */
  lemma AttributesStored(db: Db, id: Uuid, req: Request, name: string)
    requires Latin(name)
    ensures var r := Replaced(db, id, Puts(id, req));
            if name in NAMES && LastValue(req.attrs, name).Some?
            then AttrKey(id, name) in r && r[AttrKey(id, name)] == LastValue(req.attrs, name).value
            else AttrKey(id, name) !in r
  {
    AttrsWritten(id, req.attrs, name);
    ItemsWriteNoAttr(id, req.config, name);
    WrittenAppend(PutsBy(AttrPutter(id), req.attrs), PutsBy(ItemPutter(id), req.config));
    MadeKeyIsOwn(id, 65, None, Some(Ascii(name)));
  }

  // ---------- config ----------

  /** The name that counts for a config node: that of its first XML attribute, if it has one. */
  function NameOf(i: Item): bytes
  {
    match i.attribute
    case None => i.name
    case Some(None) => []
    case Some(Some(a)) => a
  }

  predicate Short16(i: Item) { |Present(i.ns)| < 65536 && |NameOf(i)| < 65536 }

  /** The value of the last config node of a namespace and name that has one. */
  function LastItem(items: seq<Item>, ns: bytes, name: bytes): Option<bytes>
  {
    if items == [] then None
    else
      var last := items[|items| - 1];
      if Present(last.ns) == ns && NameOf(last) == name && last.value.Some? then last.value
      else LastItem(items[..|items| - 1], ns, name)
  }

  lemma {:induction false} ItemsWritten(id: Uuid, items: seq<Item>, ns: bytes, name: bytes)
    requires |ns| < 65536 && |name| < 65536 && forall i :: i in items ==> Short16(i)
    ensures var w, k := Written(PutsBy(ItemPutter(id), items)), ItemKey(id, Some(ns), Some(name));
            match LastItem(items, ns, name)
            case Some(v) => k in w && w[k] == v
            case None => k !in w
  {
    if items != [] {
      var init, i := items[..|items| - 1], items[|items| - 1];
      ItemsWritten(id, init, ns, name);
      WrittenAppend(PutsBy(ItemPutter(id), init), ItemPut(id, i));
      OneItem(id, i, ns, name);
    }
  }

  lemma OneItem(id: Uuid, i: Item, ns: bytes, name: bytes)
    requires |ns| < 65536 && |name| < 65536 && Short16(i)
    ensures Written(ItemPut(id, i)) == if i.value.Some? then map[ItemKey(id, i.ns, KeyName(i)) := i.value.value] else map[]
    ensures ItemKey(id, i.ns, KeyName(i)) == ItemKey(id, Some(ns), Some(name)) <==> Present(i.ns) == ns && NameOf(i) == name
  {
    if i.value.Some? { WrittenOne(Put(ItemKey(id, i.ns, KeyName(i)), i.value.value)); }
    if ItemKey(id, i.ns, KeyName(i)) == ItemKey(id, Some(ns), Some(name)) {
      KeyInjective(id, 67, i.ns, KeyName(i), id, 67, Some(ns), Some(name));
    }
  }

  lemma {:induction false} AttrsWriteNoItem(id: Uuid, attrs: seq<Attr>, ns: Option<bytes>, name: Option<bytes>)
    ensures ItemKey(id, ns, name) !in Written(PutsBy(AttrPutter(id), attrs))
  {
    if attrs != [] {
      var init, a := attrs[..|attrs| - 1], attrs[|attrs| - 1];
      AttrsWriteNoItem(id, init, ns, name);
      WrittenAppend(PutsBy(AttrPutter(id), init), AttrPut(id, a));
      KindsDiffer(id, a.name, ns, name);
      LastAttr(id, a, "");
    }
  }

  /** ... and exactly the config that the request gives a value to, each with its last value. */
  lemma ConfigStored(db: Db, id: Uuid, req: Request, ns: bytes, name: bytes)
    requires |ns| < 65536 && |name| < 65536 && forall i :: i in req.config ==> Short16(i)
    ensures var r, k := Replaced(db, id, Puts(id, req)), ItemKey(id, Some(ns), Some(name));
            match LastItem(req.config, ns, name)
            case Some(v) => k in r && r[k] == v
            case None => k !in r
  {
    ItemsWritten(id, req.config, ns, name);
    AttrsWriteNoItem(id, req.attrs, Some(ns), Some(name));
    WrittenAppend(PutsBy(AttrPutter(id), req.attrs), PutsBy(ItemPutter(id), req.config));
    MadeKeyIsOwn(id, 67, Some(ns), Some(name));
  }

  // ---------- the sequence ----------

  /** A request is refused exactly when a sequence is held and some seq node does not read above it. */
  lemma RefusedIff(req: Request)
    ensures Rejects(req)
       <==> req.oldSeq > 0 && exists i :: 0 <= i < |req.attrs| && req.attrs[i].name == "seq"
                                          && req.strtoll(Present(req.attrs[i].value)) <= req.oldSeq
  {
    assert forall i :: 0 <= i < |req.attrs| ==>
      (Stale(req, req.attrs[i]) <==> req.oldSeq > 0 && req.attrs[i].name == "seq"
                                     && req.strtoll(Present(req.attrs[i].value)) <= req.oldSeq);
  }

  lemma {:induction false} LastValueIsThere(attrs: seq<Attr>, name: string) returns (i: nat)
    requires LastValue(attrs, name).Some?
    ensures i < |attrs| && attrs[i] == Attr(name, LastValue(attrs, name))
  {
    var n := |attrs| - 1;
    if attrs[n].name == name && attrs[n].value.Some? {
      i := n;
    } else {
      i := LastValueIsThere(attrs[..n], name);
    }
  }

  /** When a request that has a seq value is stored over a positive sequence, what is stored reads above
      that sequence, whatever other writers do meanwhile. */
  lemma StoredIsNewer(seen: set<bytes>, db: Db, id: Uuid, req: Request)
    requires !Rejects(req) && req.oldSeq > 0 && LastValue(req.attrs, "seq").Some?
    ensures var r := Applied(seen, db, Puts(id, req));
            AttrKey(id, "seq") in r && req.strtoll(r[AttrKey(id, "seq")]) > req.oldSeq
  {
    NamesAreLatin("seq");
    AttrsWritten(id, req.attrs, "seq");
    ItemsWriteNoAttr(id, req.config, "seq");
    WrittenAppend(PutsBy(AttrPutter(id), req.attrs), PutsBy(ItemPutter(id), req.config));
    RefusedIff(req);
    var i := LastValueIsThere(req.attrs, "seq");
  }

  /** The sequence that the database has for a check. */
  function SeqIn(db: Db, id: Uuid, strtoll: bytes -> int): nat
  {
    var k := AttrKey(id, "seq");
    if k in db && strtoll(db[k]) > 0 then strtoll(db[k]) else 0
  }

  function Configured(db: Db, id: Uuid, req: Request): Db
  {
    if Rejects(req) then db else Replaced(db, id, Puts(id, req))
  }

  /** A request that names the sequence in the database keeps it from going down exactly when it is
      refused, or none was there, or it has a seq value. */
  lemma SeqKeptIff(db: Db, id: Uuid, req: Request)
    requires req.oldSeq == SeqIn(db, id, req.strtoll)
    ensures SeqIn(Configured(db, id, req), id, req.strtoll) >= SeqIn(db, id, req.strtoll)
       <==> Rejects(req) || req.oldSeq == 0 || LastValue(req.attrs, "seq").Some?
  {
    if !Rejects(req) && req.oldSeq > 0 {
      NamesAreLatin("seq");
      AttributesStored(db, id, req, "seq");
      if LastValue(req.attrs, "seq").Some? { ReplacedIsNewer(db, id, req); }
    }
  }

  lemma ReplacedIsNewer(db: Db, id: Uuid, req: Request)
    requires !Rejects(req) && req.oldSeq > 0 && LastValue(req.attrs, "seq").Some?
    ensures SeqIn(Replaced(db, id, Puts(id, req)), id, req.strtoll) > req.oldSeq
  {
    StoredIsNewer({}, db, id, req);
    NamesAreLatin("seq");
    AttrsWritten(id, req.attrs, "seq");
    WrittenAppend(PutsBy(AttrPutter(id), req.attrs), PutsBy(ItemPutter(id), req.config));
  }

  /** Requests one after another, each naming the sequence it finds and having a seq value. */
  ghost predicate Sequenced(db: Db, id: Uuid, strtoll: bytes -> int, reqs: seq<Request>)
    decreases |reqs|
  {
    reqs == [] ||
    (&& reqs[0].strtoll == strtoll && reqs[0].oldSeq == SeqIn(db, id, strtoll) && LastValue(reqs[0].attrs, "seq").Some?
     && Sequenced(Configured(db, id, reqs[0]), id, strtoll, reqs[1..]))
  }

  function AfterAll(db: Db, id: Uuid, reqs: seq<Request>): Db
    decreases |reqs|
  {
    if reqs == [] then db else AfterAll(Configured(db, id, reqs[0]), id, reqs[1..])
  }

  /** Over every run of such requests the sequence in the database never goes down. */
  lemma {:induction false} SeqNeverFalls(db: Db, id: Uuid, strtoll: bytes -> int, reqs: seq<Request>)
    requires Sequenced(db, id, strtoll, reqs)
    ensures SeqIn(AfterAll(db, id, reqs), id, strtoll) >= SeqIn(db, id, strtoll)
    decreases |reqs|
  {
    if reqs != [] {
      SeqKeptIff(db, id, reqs[0]);
      SeqNeverFalls(Configured(db, id, reqs[0]), id, strtoll, reqs[1..]);
    }
  }

  // ---------- the flag for removal ----------

  /** A check is flagged for removal by the value "deleted" or "true" of its attribute "deleted". */
  lemma FlaggedIff(db: Db, id: Uuid)
    ensures var k := AttrKey(id, "deleted");
            Flagged(db, id) <==> k in db && (db[k] == [100, 101, 108, 101, 116, 101, 100] || db[k] == [116, 114, 117, 101])
  {
    AsciiIs("deleted");
    AsciiIs("true");
    assert Ascii("deleted") == [100, 101, 108, 101, 116, 101, 100] && Ascii("true") == [116, 114, 117, 101];
  }

  lemma DeletedIsNotStored()
    ensures "deleted" !in NAMES && Latin("deleted")
  {
    assert |"deleted"| == 7 && "deleted"[0] == 'd' && "timeout"[0] == 't' && "disable"[1] == 'i' && "deleted"[1] == 'e';
  }

  lemma NoKeyNoFlag(db: Db, id: Uuid)
    requires AttrKey(id, "deleted") !in db
    ensures !Flagged(db, id)
  {
    FlaggedIff(db, id);
  }

  /** Configuring a check takes the flag away, so that it is not removed unless that is forced. */
  lemma ConfiguredIsNotFlagged(db: Db, id: Uuid, req: Request)
    ensures !Flagged(Replaced(db, id, Puts(id, req)), id)
  {
    DeletedIsNotStored();
    AttributesStored(db, id, req, "deleted");
    NoKeyNoFlag(Replaced(db, id, Puts(id, req)), id);
  }
}
