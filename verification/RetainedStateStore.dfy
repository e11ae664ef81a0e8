// The store as the source keeps it: buckets and entries changed and erased in place.
module RetainedStates {
  import opened Wrappers
  import opened Text
  import opened RetainedStateModel
  import opened RetainedStateProofs

  class RetainedStateStore {
    var mods: Store

    constructor ()
      ensures mods == map[]
    {
      mods := map[];
    }

    method Set(mod: string, key: string, value: string, sessionScoped: bool) returns (retained: bool)
      modifies this
      ensures retained == Retains(old(mods), mod, key)
      ensures mods == RetainedStateModel.Set(old(mods), mod, key, value, sessionScoped)
    {
      if mod == "" || key == "" { return false; }
      var folded := Lower(mod);
      if folded !in mods {
        if |mods| >= MAX_MODS { return false; }
        mods := mods[folded := []];
      }
      var entries, wanted := mods[folded], Lower(key);
      LowerTwice(key);
      var i := 0;
      while i < |entries|
        invariant i <= |entries| && forall k | 0 <= k < i :: !SameFolded(entries[k].key, key)
      {
        if SameFolded(entries[i].key, wanted) {
          mods := mods[folded := entries[i := Entry(key, value, sessionScoped)]];
          return true;
        }
        i := i + 1;
      }
      if |entries| >= MAX_KEYS_PER_MOD { return false; }
      mods := mods[folded := entries + [Entry(key, value, sessionScoped)]];
      return true;
    }

    method Find(mod: string) returns (entries: Option<seq<Entry>>)
      ensures entries == if Lower(mod) in mods then Some(Bucket(mods, mod)) else None
    {
      if Lower(mod) !in mods { return None; }
      return Some(mods[Lower(mod)]);
    }

    // erase_if over one bucket.
    method EraseSessionScoped(entries: seq<Entry>) returns (kept: seq<Entry>)
      ensures kept == Kept(entries)
    {
      kept := [];
      var i := 0;
      while i < |entries|
        invariant i <= |entries| && kept + Kept(entries[i..]) == Kept(entries)
      {
        assert entries[i..][0] == entries[i] && entries[i..][1..] == entries[i + 1..];
        if !entries[i].sessionScoped { kept := kept + [entries[i]]; }
        i := i + 1;
      }
    }

    method ClearSessionScoped()
      modifies this
      ensures mods == RetainedStateModel.ClearSessionScoped(old(mods))
    {
      var todo := mods.Keys;
      while todo != {}
        invariant todo <= mods.Keys && mods.Keys <= old(mods).Keys
        invariant forall m | m in todo :: mods[m] == old(mods)[m]
        invariant forall m | m in old(mods) && m !in todo :: (m in mods <==> Kept(old(mods)[m]) != []) && (m in mods ==> mods[m] == Kept(old(mods)[m]))
        decreases |todo|
      {
        var m :| m in todo;
        todo := todo - {m};
        var kept := EraseSessionScoped(mods[m]);
        mods := if kept == [] then mods - {m} else mods[m := kept];
      }
    }
  }

  // The documents after a value has reached the greeted ones among these views.
  function Reached(docs: map<string, Doc>, views: set<string>, mod: string, key: string, value: string): map<string, Doc> {
    map v | v in docs :: if v in views && docs[v].greeted then Receive(v, docs[v], mod, key, value) else docs[v]
  }

  lemma ReachedEnds(docs: map<string, Doc>, targets: set<string>, mod: string, key: string, value: string)
    requires forall v :: v in targets <==> v in docs && SameFolded(ModOf(v), mod)
    ensures Reached(docs, {}, mod, key, value) == docs
    ensures Reached(docs, targets, mod, key, value) == Published(docs, mod, key, value)
    ensures forall views :: Reached(docs, views, mod, key, value).Keys == docs.Keys
  {
    hide Receive, SameFolded;
  }

  lemma ReachedStep(docs: map<string, Doc>, views: set<string>, v: string, mod: string, key: string, value: string)
    requires v in docs && v !in views
    ensures var before, after := Reached(docs, views, mod, key, value), Reached(docs, views + {v}, mod, key, value);
            before[v] == docs[v] && after == if docs[v].greeted then before[v := Receive(v, docs[v], mod, key, value)] else before
  {
    hide Receive;
  }

  // The runtime's side: the store, the view manifests' ids and what the bridge has sent to each page.
  class RetainedRuntime {
    const store: RetainedStateStore
    var docs: map<string, Doc>

    function Abs(): World
      reads this, store
    {
      World(store.mods, docs)
    }

    constructor ()
      ensures Abs() == World(map[], map[]) && fresh(store)
    {
      store := new RetainedStateStore();
      docs := map[];
    }

    // InstantiatedViewsOfMod
    method InstantiatedViewsOfMod(mod: string) returns (targets: set<string>)
      ensures targets == set v | v in docs && SameFolded(ModOf(v), mod)
    {
      targets := {};
      var todo := docs.Keys;
      while todo != {}
        invariant todo <= docs.Keys && targets == set v | v in docs && v !in todo && SameFolded(ModOf(v), mod)
        decreases |todo|
      {
        var v :| v in todo;
        todo := todo - {v};
        if SameFolded(ModOf(v), mod) { targets := targets + {v}; }
      }
    }

    // PublishModState: the bridge passes it to the greeted views only.
    method PublishModState(mod: string, key: string, value: string)
      modifies this`docs
      ensures docs == Published(old(docs), mod, key, value)
    {
      hide Receive, SameFolded, Reached, Published;
      var todo := InstantiatedViewsOfMod(mod);
      ReachedEnds(docs, todo, mod, key, value);
      ghost var targets := todo;
      assert targets - todo == {};
      while todo != {}
        invariant todo <= targets && docs == Reached(old(docs), targets - todo, mod, key, value)
        decreases |todo|
      {
        var v :| v in todo;
        ReachedStep(old(docs), targets - todo, v, mod, key, value);
        assert targets - (todo - {v}) == targets - todo + {v};
        todo := todo - {v};
        if docs[v].greeted { docs := docs[v := Receive(v, docs[v], mod, key, value)]; }
      }
      assert targets - {} == targets;
    }

    // ProcessBackendState for one state, ApplyNativeState for one operation.
    method Publish(mod: string, key: string, value: string, sessionScoped: bool)
      requires Enabled(Abs(), RetainedStateProofs.Publish(mod, key, value, sessionScoped))
      modifies this`docs, store
      ensures Abs() == Next(old(Abs()), RetainedStateProofs.Publish(mod, key, value, sessionScoped), "")
    {
      var retained := store.Set(mod, key, value, sessionScoped);
      PublishModState(mod, key, value);
    }

    // OnViewGreeted after the gate has opened: the platform's list, then each retained entry in order.
    method Greet(view: string, list: string)
      requires view in docs
      modifies this`docs
      ensures Abs() == Next(old(Abs()), Hello(view), list)
    {
      hide Receive, ReceiveList;
      var d := ReceiveList(view, docs[view].(greeted := true, said := true), list);
      ghost var listed := d;
      var found := store.Find(ModOf(view));
      var entries := if found.Some? then found.value else [];
      assert entries[..0] == [];
      var i := 0;
      while i < |entries|
        invariant i <= |entries| && d == Replay(view, listed, entries[..i])
      {
        assert entries[..i + 1][..i] == entries[..i];
        d := Receive(view, d, ModOf(view), entries[i].key, entries[i].value);
        i := i + 1;
      }
      assert entries[..i] == entries;
      docs := docs[view := d];
    }
  }
}
