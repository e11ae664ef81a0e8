// What was last published. The store's entries are read off the publications and session changes alone.
module RetainedLastValues {
  import opened Wrappers
  import opened Text
  import opened RetainedStateModel
  import opened RetainedStateProofs

  // The last value published under a folded mod id and key; a session change drops it if it was session-scoped.
  function LastPublished(actions: seq<Action>, n: nat, mod: string, key: string): Option<Entry>
    requires n <= |actions|
  {
    if n == 0 then None else
    var last := LastPublished(actions, n - 1, mod, key);
    match actions[n - 1]
    case Publish(m, k, value, sessionScoped) => if Lower(m) == mod && Lower(k) == key then Some(Entry(k, value, sessionScoped)) else last
    case SessionReset => if last.Some? && last.value.sessionScoped then None else last
    case _ => last
  }

  function EntryIn(entries: seq<Entry>, key: string): Option<Entry> {
    if entries == [] then None else if Lower(entries[0].key) == key then Some(entries[0]) else EntryIn(entries[1..], key)
  }

  // The entry retained under a folded mod id and key.
  function Held(s: Store, mod: string, key: string): Option<Entry> {
    if mod in s then EntryIn(s[mod], key) else None
  }

  // A new key is refused only by a full bucket, a new mod only by a full store.
  predicate Admits(s: Store, mod: string, key: string) {
    && mod != "" && key != "" && (mod in s || |s| < 256)
    && (mod in s ==> EntryIn(s[mod], key).Some? || |s[mod]| < 1024)
  }

  // ---- one bucket ---------------------------------------------------------------------------------------------

  lemma {:induction false} IndexIsEntry(entries: seq<Entry>, key: string)
    ensures var i := IndexOf(entries, key);
            (i < |entries| <==> EntryIn(entries, Lower(key)).Some?) && (i < |entries| ==> EntryIn(entries, Lower(key)) == Some(entries[i]))
  {
    hide Lower;
    if entries != [] { IndexIsEntry(entries[1..], key); }
  }

  lemma {:induction false} EntryAppended(entries: seq<Entry>, e: Entry, key: string)
    requires EntryIn(entries, Lower(e.key)).None?
    ensures EntryIn(entries + [e], key) == if key == Lower(e.key) then Some(e) else EntryIn(entries, key)
  {
    hide Lower;
    if entries != [] {
      assert (entries + [e])[1..] == entries[1..] + [e];
      EntryAppended(entries[1..], e, key);
    }
  }

  lemma {:induction false} EntryReplaced(entries: seq<Entry>, i: nat, e: Entry, key: string)
    requires i < |entries| && i == IndexOf(entries, e.key)
    ensures EntryIn(entries[i := e], key) == if key == Lower(e.key) then Some(e) else EntryIn(entries, key)
  {
    hide Lower;
    if i > 0 {
      assert entries[i := e][1..] == entries[1..][i - 1 := e];
      EntryReplaced(entries[1..], i - 1, e, key);
    } else {
      assert entries[i := e][1..] == entries[1..];
    }
  }

  lemma EntryAfterSetting(entries: seq<Entry>, k: string, value: string, sessionScoped: bool, key: string)
    ensures EntryIn(SetEntries(entries, k, value, sessionScoped), key) ==
            if key == Lower(k) then Some(Entry(k, value, sessionScoped)) else EntryIn(entries, key)
  {
    var i, e := IndexOf(entries, k), Entry(k, value, sessionScoped);
    IndexIsEntry(entries, k);
    if i < |entries| { EntryReplaced(entries, i, e, key); } else { EntryAppended(entries, e, key); }
  }

  lemma {:induction false} EntryKept(entries: seq<Entry>, key: string)
    requires DistinctKeys(entries)
    ensures EntryIn(Kept(entries), key) ==
            var e := EntryIn(entries, key); if e.Some? && e.value.sessionScoped then None else e
  {
    hide Lower;
    if entries != [] {
      EntryKept(entries[1..], key);
      if Lower(entries[0].key) == key { NoSecond(entries, key); }
    }
  }

  lemma {:induction false} NoSecond(entries: seq<Entry>, key: string)
    requires entries != [] && DistinctKeys(entries) && Lower(entries[0].key) == key
    ensures EntryIn(entries[1..], key).None?
    decreases |entries|
  {
    hide Lower;
    if |entries| > 1 {
      assert !SameFolded(entries[0].key, entries[1].key);
      var rest := [entries[0]] + entries[2..];
      assert forall i | 0 < i < |rest| :: rest[i] == entries[i + 1];
      NoSecond(rest, key);
      assert rest[1..] == entries[1..][1..];
    }
  }

  // ---- one step -------------------------------------------------------------------------------------------------

  lemma SetHolds(s: Store, m: string, k: string, value: string, sessionScoped: bool, mod: string, key: string)
    ensures Held(Set(s, m, k, value, sessionScoped), mod, key) ==
            if mod == Lower(m) && key == Lower(k) && Admits(s, mod, key) then Some(Entry(k, value, sessionScoped)) else Held(s, mod, key)
  {
    hide SetEntries, IndexOf, Lower;
    assert (Lower(m) == "" <==> m == "") && (Lower(k) == "" <==> k == "") by { LowerNothing(m); LowerNothing(k); }
    IndexIsEntry(Bucket(s, m), k);
    EntryAfterSetting(Bucket(s, m), k, value, sessionScoped, key);
  }

  lemma LowerNothing(s: string)
    ensures Lower(s) == "" <==> s == ""
  {}

  lemma ClearHolds(s: Store, mod: string, key: string)
    requires StoreOk(s)
    ensures Held(ClearSessionScoped(s), mod, key) == var e := Held(s, mod, key); if e.Some? && e.value.sessionScoped then None else e
  {
    if mod in s { EntryKept(s[mod], key); }
  }

  // A publication is retained under its own spelling and scope exactly when it is admitted; a session change drops
  // exactly the session-scoped entries; nothing else touches an entry.
  lemma StoreFollowsThePublications(worlds: seq<World>, actions: seq<Action>, lists: seq<string>, k: nat, mod: string, key: string)
    requires Execution(worlds, actions, lists) && k < |actions|
    ensures var s, t, a := worlds[k].store, worlds[k + 1].store, actions[k];
            Held(t, mod, key) ==
            if a.Publish? && Lower(a.mod) == mod && Lower(a.key) == key && Admits(s, mod, key) then Some(Entry(a.key, a.value, a.sessionScoped))
            else if a.SessionReset? && Held(s, mod, key).Some? && Held(s, mod, key).value.sessionScoped then None
            else Held(s, mod, key)
  {
    hide StoreOk, Held, Set, ClearSessionScoped, Published, Greeted, Lower, Admits;
    StoreStaysOk(worlds, actions, lists, k);
    assert Leads(worlds[k], actions[k], lists[k], worlds[k + 1]);
    match actions[k]
    case Publish(m, name, value, sessionScoped) => SetHolds(worlds[k].store, m, name, value, sessionScoped, mod, key);
    case SessionReset => ClearHolds(worlds[k].store, mod, key);
    case _ =>
  }

  // After any run every entry of the store is the one last published under its mod and key.
  lemma {:induction false} StoreHoldsTheLastPublished(worlds: seq<World>, actions: seq<Action>, lists: seq<string>, n: nat, mod: string, key: string)
    requires Execution(worlds, actions, lists) && n <= |actions|
    ensures Held(worlds[n].store, mod, key).Some? ==> LastPublished(actions, n, mod, key) == Held(worlds[n].store, mod, key)
  {
    hide Leads, Held, Lower;
    if n == 0 {
      NothingHeld(mod, key);
    } else {
      StoreHoldsTheLastPublished(worlds, actions, lists, n - 1, mod, key);
      StoreFollowsThePublications(worlds, actions, lists, n - 1, mod, key);
      assert Leads(worlds[n - 1], actions[n - 1], lists[n - 1], worlds[n]);
      StoreStaysOk(worlds, actions, lists, n - 1);
      if Held(worlds[n - 1].store, mod, key).Some? && actions[n - 1].Publish? && Lower(actions[n - 1].mod) == mod {
        PublishedIsNamed(worlds[n - 1], actions[n - 1], lists[n - 1], worlds[n]);
        KnownIsAdmitted(worlds[n - 1].store, mod, key);
      }
    }
  }

  lemma PublishedIsNamed(w: World, a: Action, list: string, v: World)
    requires Leads(w, a, list, v) && a.Publish?
    ensures Lower(a.mod) != ""
  {
    LowerNothing(a.mod);
  }

  // A value already retained is never refused.
  lemma KnownIsAdmitted(s: Store, mod: string, key: string)
    requires StoreOk(s) && Held(s, mod, key).Some? && mod != ""
    ensures Admits(s, mod, key)
  {
    EntryIsNamed(s[mod], key);
    hide StoreOk, EntryIn;
  }

  lemma {:induction false} EntryIsNamed(entries: seq<Entry>, key: string)
    requires Named(entries) && EntryIn(entries, key).Some?
    ensures key != ""
  {
    if Lower(entries[0].key) == key {
      LowerNothing(entries[0].key);
    } else {
      assert forall i | 0 <= i < |entries[1..]| :: entries[1..][i] == entries[i + 1];
      EntryIsNamed(entries[1..], key);
    }
  }

  lemma NothingHeld(mod: string, key: string)
    ensures Held(map[], mod, key).None?
  {}
}
