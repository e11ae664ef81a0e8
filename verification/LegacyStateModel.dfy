// The V1 Papyrus adapter (src/Compat/V1/PapyrusAdapter.cpp) on values: the state a script publishes to its
// mod's pages and the requests those pages wait on, with the page cache of src/Compat/V1/web/osfui.js.
module LegacyStateModel {
  import opened Wrappers
  import opened Text

  const MAX_VALUES: nat := 1024

  // Folded mod id, folded key.
  type Address = (string, string)

  // `delivered` holds the views that have the value already.
  datatype StateValue = StateValue(value: string, dirty: bool, delivered: set<string>)

  datatype Request = Request(
    bridgeToken: nat, view: string, deadline: int, answered: bool, rejected: bool, code: string, value: string)

  datatype Adapter = Adapter(
    values: map<Address, StateValue>, resetKeys: set<Address>, suspended: bool, requests: map<string, Request>)

  const Initial := Adapter(map[], {}, false, map[])

  // ---- the page -----------------------------------------------------------------------------------------

  type Cache = map<string, string>

  datatype Message =
    | DataReset(resetView: string, keys: set<string>)
    | DataState(view: string, key: string, value: string)

  // What one view's page does with a message on the wire.
  function Receive(view: string, cache: Cache, m: Message): Cache {
    match m
    case DataReset(to, keys) => if to == view then cache - (set k | k in keys :: Lower(k)) else cache
    case DataState(to, key, value) => if to == view then cache[Lower(key) := value] else cache
  }

  function ReceiveAll(view: string, cache: Cache, sent: seq<Message>): Cache
    decreases |sent|
  {
    if sent == [] then cache else Receive(view, ReceiveAll(view, cache, sent[..|sent| - 1]), sent[|sent| - 1])
  }

  // ---- state --------------------------------------------------------------------------------------------

  // `valid` stands for the checks on the mod id, the key's length and the value.
  function Set(s: Adapter, mod: string, key: string, value: string, valid: bool): Adapter {
    var address := (Lower(mod), Lower(key));
    if !valid || s.suspended || (address !in s.values && |s.values| >= MAX_VALUES) then s
    else s.(values := s.values[address := StateValue(value, true, {})])
  }

  function Cancelled(r: Request): Request {
    r.(answered := true, rejected := true, code := "game-load")
  }

  function ResetSession(s: Adapter): Adapter {
    s.(values := map[], resetKeys := s.resetKeys + s.values.Keys, requests := map k | k in s.requests :: Cancelled(s.requests[k]))
  }

  predicate Owns(view: string, a: Address) {
    SameFolded(a.0, ModOf(view))
  }

  // The pumped views an address goes to.
  function Targets(a: Address, views: seq<string>, greeted: set<string>): set<string> {
    set v | v in views && v in greeted && Owns(v, a)
  }

  function Withdrawn(e: StateValue, from: set<string>): StateValue {
    if from == {} then e else e.(delivered := e.delivered - from, dirty := true)
  }

  function AfterResets(s: Adapter, views: seq<string>, greeted: set<string>): Adapter {
    s.(values := map a | a in s.values :: if a in s.resetKeys then Withdrawn(s.values[a], Targets(a, views, greeted)) else s.values[a],
       resetKeys := {})
  }

  function Delivered(e: StateValue, to: set<string>): StateValue {
    e.(dirty := false, delivered := e.delivered + to)
  }

  function AfterPublish(s: Adapter, views: seq<string>, greeted: set<string>): Adapter {
    if s.suspended then s else
    s.(values := map a | a in s.values ::
         if s.values[a].dirty then Delivered(s.values[a], Targets(a, views, greeted)) else s.values[a])
  }

  // ReplayState, when a page of the mod says hello.
  function AfterReplay(s: Adapter, view: string): Adapter {
    if s.suspended then s else
    s.(values := map a | a in s.values :: if Owns(view, a) then s.values[a].(delivered := s.values[a].delivered + {view}) else s.values[a])
  }

  // ---- requests -------------------------------------------------------------------------------------------

  datatype Settlement = RespondTo(token: nat, value: string) | RejectTo(rejectedToken: nat, code: string)

  predicate CanReply(s: Adapter, token: string, valid: bool, now: int) {
    var k := Lower(token);
    valid && !s.suspended && k in s.requests && !s.requests[k].answered && now < s.requests[k].deadline
  }

  function Reply(s: Adapter, token: string, value: string, code: string, rejected: bool, valid: bool, now: int): Adapter {
    if !CanReply(s, token, valid, now) then s else
    var k := Lower(token);
    s.(requests := s.requests[k := s.requests[k].(answered := true, rejected := rejected,
         code := if code == "" && rejected then "papyrus-rejected" else code, value := value)])
  }

  // What Pump does about a request whose bridge token is still pending.
  function Outcome(r: Request, suspended: bool, now: int): Option<Settlement> {
    if r.answered && !suspended then Some(if r.rejected then RejectTo(r.bridgeToken, r.code) else RespondTo(r.bridgeToken, r.value))
    else if now >= r.deadline then Some(RejectTo(r.bridgeToken, "papyrus-timeout"))
    else None
  }

  // The settlements for the requests under these keys.
  function Settlements(requests: map<string, Request>, keys: set<string>, suspended: bool, now: int, pending: set<nat>): set<Settlement> {
    set k | k in keys && k in requests && requests[k].bridgeToken in pending && Outcome(requests[k], suspended, now).Some?
      :: Outcome(requests[k], suspended, now).value
  }

  predicate Waits(r: Request, suspended: bool, now: int, pending: set<nat>) {
    r.bridgeToken in pending && Outcome(r, suspended, now).None?
  }

  function AfterSettling(s: Adapter, now: int, pending: set<nat>): Adapter {
    s.(requests := map k | k in s.requests && Waits(s.requests[k], s.suspended, now, pending) :: s.requests[k])
  }

  function Pump(s: Adapter, views: seq<string>, greeted: set<string>, now: int, pending: set<nat>): Adapter {
    AfterSettling(AfterPublish(AfterResets(s, views, greeted), views, greeted), now, pending)
  }

  // CloseView keeps the other views' requests.
  function CloseView(s: Adapter, view: string): Adapter {
    s.(requests := map k | k in s.requests && s.requests[k].view != view :: s.requests[k])
  }

  // ---- what the pages hold afterwards ---------------------------------------------------------------------

  function KeysOf(addresses: set<Address>): set<string> {
    set a | a in addresses :: Lower(a.1)
  }

  function OwnKeys(addresses: set<Address>, view: string): set<string> {
    KeysOf(set a | a in addresses && Owns(view, a))
  }

  // The page of a pumped, greeted view after the resets.
  function ResetCache(s: Adapter, view: string, cache: Cache): Cache {
    cache - OwnKeys(s.resetKeys, view)
  }

  // Every address is folded, so a key names one value of a mod.
  predicate Folded(s: Adapter) {
    && (forall a | a in s.values :: a.0 == Lower(a.0) && a.1 == Lower(a.1))
    && (forall a | a in s.resetKeys :: a.0 == Lower(a.0) && a.1 == Lower(a.1))
  }

  function AddressOf(view: string, key: string): Address {
    (Lower(ModOf(view)), Lower(key))
  }

  // A key's value in a page after the values in `which` were sent to it.
  ghost predicate SentTo(before: Cache, after: Cache, s: Adapter, view: string, which: set<Address>) {
    && (forall a | a in which && a in s.values :: Lower(a.1) in after && after[Lower(a.1)] == s.values[a].value)
    && (forall k | k !in KeysOf(which) :: (k in after <==> k in before) && (k in before ==> after[k] == before[k]))
  }

  // The addresses whose value Pump sends to a view.
  function Due(s: Adapter, view: string, views: seq<string>, greeted: set<string>): set<Address> {
    set a | a in s.values && !s.suspended && s.values[a].dirty && view in Targets(a, views, greeted) && view !in s.values[a].delivered
  }

  function Replayed(s: Adapter, view: string): set<Address> {
    set a | a in s.values && !s.suspended && Owns(view, a)
  }

  // What Pump leaves in a page: resets first, then the values due.
  ghost predicate Pumped(s: Adapter, views: seq<string>, greeted: set<string>, view: string, before: Cache, after: Cache) {
    var reset := if view in views && view in greeted then ResetCache(s, view, before) else before;
    SentTo(reset, after, AfterResets(s, views, greeted), view, Due(AfterResets(s, views, greeted), view, views, greeted))
  }
}
