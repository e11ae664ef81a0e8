// src/Bridge/RetainedStateStore.cpp and the publication of what it retains (src/Bridge/RuntimeBridge.cpp,
// src/Runtime/RuntimeFrame.cpp) to the page cache of web/osfui.js, on values.
module RetainedStateModel {
  import opened Text

  const MAX_KEYS_PER_MOD: nat := 1024
  const MAX_MODS: nat := 256

  datatype Entry = Entry(key: string, value: string, sessionScoped: bool)

  // Canonical lower-case mod id to its entries in insertion order.
  type Store = map<string, seq<Entry>>

  // Index of the entry with this key, whatever its case, or |entries|.
  function IndexOf(entries: seq<Entry>, key: string): (i: nat)
    ensures i <= |entries| && (i < |entries| ==> SameFolded(entries[i].key, key))
    ensures forall k | 0 <= k < i :: !SameFolded(entries[k].key, key)
  {
    if entries == [] || SameFolded(entries[0].key, key) then 0 else 1 + IndexOf(entries[1..], key)
  }

  function Bucket(s: Store, mod: string): seq<Entry> {
    if Lower(mod) in s then s[Lower(mod)] else []
  }

  predicate Retains(s: Store, mod: string, key: string) {
    && mod != "" && key != ""
    && (Lower(mod) in s || |s| < MAX_MODS)
    && (IndexOf(Bucket(s, mod), key) < |Bucket(s, mod)| || |Bucket(s, mod)| < MAX_KEYS_PER_MOD)
  }

  // Latest value and spelling win, in place.
  function SetEntries(entries: seq<Entry>, key: string, value: string, sessionScoped: bool): seq<Entry> {
    var i := IndexOf(entries, key);
    if i < |entries| then entries[i := Entry(key, value, sessionScoped)] else entries + [Entry(key, value, sessionScoped)]
  }

  // The store after Set; refused values are delivered but not kept.
  function Set(s: Store, mod: string, key: string, value: string, sessionScoped: bool): Store {
    if !Retains(s, mod, key) then s else
    s[Lower(mod) := SetEntries(Bucket(s, mod), key, value, sessionScoped)]
  }

  function Kept(entries: seq<Entry>): seq<Entry> {
    if entries == [] then []
    else if entries[0].sessionScoped then Kept(entries[1..])
    else [entries[0]] + Kept(entries[1..])
  }

  function ClearSessionScoped(s: Store): Store {
    map m | m in s && Kept(s[m]) != [] :: Kept(s[m])
  }

  // ---- the page --------------------------------------------------------------------------------------

  type Cache = map<string, string>

  function Address(mod: string, key: string): string {
    Lower(mod + "/" + key)
  }

  // deliverState: the value under its qualified address and, for the page's own mod, under the bare key.
  function DeliverState(cache: Cache, own: string, mod: string, key: string, value: string): Cache {
    var qualified := cache[Address(mod, key) := value];
    if own != "" && Lower(mod) == own then qualified[Lower(key) := value] else qualified
  }
}
