/** The registry of filter sets: a set replaces the one of its name only with a higher sequence. */
module FilterLoad {
  import opened FilterRule

  datatype Named = Named(name: string, seqno: int, rules: seq<Rule>)

  class Registry {
    var sets: map<string, Named>
    var touched: map<string, int>

    constructor ()
      ensures sets == map[] && touched == map[]
    {
      sets, touched := map[], map[];
    }

    /** noit_filter_compile_add_load_set. The set that stays is touched either way; one that was
        taken in and does not have a negative sequence is marked as changed for the cluster. */
    method Load(s: Named, now: int) returns (used: bool, marked: bool)
      modifies this
      ensures sets == Loaded(old(sets), s) && touched == old(touched)[s.name := now]
      ensures used <==> s.name !in old(sets) || old(sets)[s.name].seqno < s.seqno
      ensures marked <==> sets != old(sets) && s.seqno >= 0
    {
      touched := touched[s.name := now];
      if s.name in sets && sets[s.name].seqno >= s.seqno { return false, false; }
      ghost var was := sets;
      sets := sets[s.name := s];
      assert sets[s.name] == s && (s.name !in was || was[s.name] != s);
      return true, s.seqno >= 0;
    }
  }

  function Loaded(sets: map<string, Named>, s: Named): map<string, Named>
  {
    if s.name in sets && sets[s.name].seqno >= s.seqno then sets else sets[s.name := s]
  }

  function LoadedAll(all: seq<Named>): map<string, Named>
  {
    if all == [] then map[] else Loaded(LoadedAll(all[..|all| - 1]), all[|all| - 1])
  }

  /** The i-th set is the first with the highest sequence of its name. */
  ghost predicate Newest(all: seq<Named>, i: int)
  {
    0 <= i < |all| && forall j :: 0 <= j < |all| && all[j].name == all[i].name ==>
      all[j].seqno <= all[i].seqno && (j < i ==> all[j].seqno < all[i].seqno)
  }

  /** Whatever the order of loading, a name holds the first set of its highest sequence. */
  lemma {:induction false} HoldsNewest(all: seq<Named>, name: string)
    ensures name !in LoadedAll(all) ==> forall i :: 0 <= i < |all| ==> all[i].name != name
    ensures name in LoadedAll(all) ==> exists i :: Newest(all, i) && all[i].name == name && LoadedAll(all)[name] == all[i]
  {
    if all != [] {
      var n := |all| - 1;
      var init, last := all[..n], all[n];
      HoldsNewest(init, name);
      assert forall j :: 0 <= j < n ==> init[j] == all[j];
      if last.name == name && LoadedAll(all)[name] == last && (name !in LoadedAll(init) || LoadedAll(init)[name].seqno < last.seqno) {
        assert Newest(all, n);
      } else if name in LoadedAll(init) {
        var i :| Newest(init, i) && init[i].name == name && LoadedAll(init)[name] == init[i];
        assert Newest(all, i);
      }
    }
  }
}
