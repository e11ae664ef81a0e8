// The pipe under any interleaving of threads that open, accept, read, write, close and reopen it.
module PipeProofs {
  import opened Wrappers
  import opened PipeModel

  // Where a thread is. `Made` has created a pipe handle it has not published; `InIo` has an operation
  // outstanding on the handle; `Settled` has succeeded and `Failed` has met an error, both still inside their
  // call. A close holds the lifecycle lock from `Waiting` on; `Detached` has taken the handles and is about
  // to close them.
  datatype Thread =
    | Free
    | InCall(kind: CallKind)
    | Made(handle: nat)
    | InIo(ioKind: CallKind, target: nat)
    | Settled(settledKind: CallKind)
    | Failed(failedKind: CallKind)
    | WantsClose(reopen: bool)
    | Waiting(reopenAfter: bool)
    | Detached(taken: Option<Handles>, reopenThen: bool)

  // `closed` counts CloseHandle calls; handles below `next` have been created; `lock` is the lifecycle lock.
  datatype World = World(p: PipeState, threads: map<nat, Thread>, lock: Option<nat>, next: nat, closed: multiset<nat>)

  const Boot := World(Initial, map[], None, 0, multiset{})

  datatype Action =
    | Begin(t: nat, kind: CallKind)
    | Create(t: nat, created: bool)
    | PublishIt(t: nat, readEvent: bool, writeEvent: bool, connected: bool)
    | IssueIo(t: nat)
    | IoDone(t: nat, error: bool)
    | End(t: nat)                        // the guard's release; a failed call closes next
    | AskClose(t: nat, reopen: bool)
    | LockClose(t: nat)
    | TakeHandles(t: nat)
    | FinishClose(t: nat)

  function At(w: World, t: nat): Thread {
    if t in w.threads then w.threads[t] else Free
  }

  function KindOf(s: Thread): Option<CallKind> {
    match s
    case InCall(kind) => Some(kind)
    case Made(_) => Some(Open)
    case InIo(kind, _) => Some(kind)
    case Settled(kind) => Some(kind)
    case Failed(kind) => Some(kind)
    case _ => None
  }

  predicate Enabled(w: World, a: Action) {
    match a
    case Begin(t, _) => At(w, t) == Free
    case Create(t, _) => At(w, t) == InCall(Open)
    case PublishIt(t, _, _, _) => At(w, t).Made?
    case IssueIo(t) => At(w, t).InCall? && At(w, t).kind != Open
    case IoDone(t, _) => At(w, t).InIo?
    case End(t) => At(w, t).Settled? || At(w, t).Failed? || At(w, t) == InCall(Read) || At(w, t) == InCall(Write)
    case AskClose(t, _) => At(w, t) == Free
    case LockClose(t) => At(w, t).WantsClose? && w.lock == None
    case TakeHandles(t) => At(w, t).Waiting? && w.p.activeCalls == 0
    case FinishClose(t) => At(w, t).Detached?
  }

  function Go(w: World, t: nat, s: Thread): World {
    w.(threads := w.threads[t := s])
  }

  function CloseAll(closed: multiset<nat>, handles: Option<Handles>): multiset<nat> {
    if handles.None? then closed
    else closed + multiset{handles.value.pipe} + multiset{handles.value.readEvent} + multiset{handles.value.writeEvent}
  }

  // A read or write that cannot go on just returns; an accept fails and closes.
  function Ended(kind: CallKind): Thread {
    if kind == Accept then Failed(Accept) else Settled(kind)
  }

  // PublishPipe creates its two events first; on failure it closes whatever it has and the pipe.
  function PublishStep(w: World, t: nat, readEvent: bool, writeEvent: bool, connected: bool): World
    requires At(w, t).Made?
  {
    var pipe, read := At(w, t).handle, w.next;
    var write := if readEvent then read + 1 else read;
    var next := if writeEvent then write + 1 else write;
    if readEvent && writeEvent && !w.p.closing then
      Go(w, t, Settled(Open)).(p := Publish(w.p, Handles(pipe, read, write), connected), next := next)
    else
      Go(w, t, Failed(Open)).(next := next,
        closed := w.closed + multiset{pipe} + (if readEvent then multiset{read} else multiset{}) + (if writeEvent then multiset{write} else multiset{}))
  }

  function Next(w: World, a: Action): World
    requires Enabled(w, a)
  {
    match a
    case Begin(t, kind) => if CanBegin(w.p, kind) then Go(w, t, InCall(kind)).(p := BeginCall(w.p, kind)) else w
    case Create(t, created) => if created then Go(w, t, Made(w.next)).(next := w.next + 1) else Go(w, t, Failed(Open))
    case PublishIt(t, readEvent, writeEvent, connected) => PublishStep(w, t, readEvent, writeEvent, connected)
    case IssueIo(t) =>
      if w.p.closing || w.p.handles.None? then Go(w, t, Ended(At(w, t).kind)) else Go(w, t, InIo(At(w, t).kind, w.p.handles.value.pipe))
    case IoDone(t, error) =>
      if At(w, t).ioKind != Accept then Go(w, t, if error then Settled(At(w, t).ioKind) else InCall(At(w, t).ioKind))
      else if !error && CanConnect(w.p, At(w, t).target) then Go(w, t, Settled(Accept)).(p := SetConnected(w.p, At(w, t).target))
      else Go(w, t, Failed(Accept))
    case End(t) =>
      Go(w, t, if At(w, t).Failed? then WantsClose(false) else Free).(p := EndCall(w.p, KindOf(At(w, t)).value))
    case AskClose(t, reopen) => Go(w, t, WantsClose(reopen))
    case LockClose(t) => Go(w, t, Waiting(At(w, t).reopen)).(p := MarkClosing(w.p), lock := Some(t))
    case TakeHandles(t) => Go(w, t, Detached(w.p.handles, At(w, t).reopenAfter)).(p := Detach(w.p))
    case FinishClose(t) =>
      Go(w, t, Free).(closed := CloseAll(w.closed, At(w, t).taken), lock := None,
                      p := if At(w, t).reopenThen then w.p.(closing := false) else w.p)
  }

  // ---- the invariant -------------------------------------------------------------------------------

  function Callers(w: World): set<nat> {
    set t | t in w.threads && KindOf(w.threads[t]).Some?
  }

  predicate Closer(s: Thread) {
    s.Waiting? || s.Detached?
  }

  // The flags and the count say who is in a call.
  predicate CallsOk(w: World) {
    && w.p.activeCalls == |Callers(w)|
    && (forall t | t in w.threads && KindOf(w.threads[t]) == Some(Open) :: w.p.opening)
    && (forall t | t in w.threads && KindOf(w.threads[t]) == Some(Accept) :: w.p.accepting && w.p.handles.Some?)
    && (forall t | t in w.threads && KindOf(w.threads[t]) == Some(Read) :: w.p.readerActive && w.p.connected)
    && (forall t | t in w.threads && KindOf(w.threads[t]) == Some(Write) :: w.p.connected)
    && (forall t, u | t in w.threads && u in w.threads && t != u && KindOf(w.threads[t]).Some? && KindOf(w.threads[t]) != Some(Write) ::
          KindOf(w.threads[u]) != KindOf(w.threads[t]))
  }

  // One close at a time, and none is itself a call.
  predicate LockOk(w: World) {
    && (forall t | t in w.threads :: Closer(w.threads[t]) <==> w.lock == Some(t))
    && (w.lock.Some? ==> w.p.closing && w.lock.value in w.threads && Closer(w.threads[w.lock.value]))
    && (forall t | t in w.threads && w.threads[t].Detached? :: w.p.activeCalls == 0 && w.p.handles.None?)
    && (w.p.connected ==> w.p.handles.Some?)
  }

  predicate InHandles(h: nat, handles: Option<Handles>) {
    handles.Some? && (h == handles.value.pipe || h == handles.value.readEvent || h == handles.value.writeEvent)
  }

  predicate Holds(s: Thread, h: nat) {
    s == Made(h) || (s.Detached? && InHandles(h, s.taken))
  }

  // Someone is still responsible for this handle.
  predicate Owned(w: World, h: nat) {
    InHandles(h, w.p.handles) || exists t | t in w.threads :: Holds(w.threads[t], h)
  }

  predicate OthersHold(threads: map<nat, Thread>, t: nat, h: nat) {
    exists u | u in threads :: u != t && Holds(threads[u], h)
  }

  predicate Three(handles: Option<Handles>) {
    handles.Some? ==>
      handles.value.pipe != handles.value.readEvent && handles.value.readEvent != handles.value.writeEvent && handles.value.writeEvent != handles.value.pipe
  }

  // A created handle is closed once, or owned and open.
  ghost predicate HandlesOk(w: World) {
    && (forall h: nat :: w.closed[h] == if h < w.next && !Owned(w, h) then 1 else 0)
    && (forall h: nat :: Owned(w, h) ==> h < w.next)
    && Three(w.p.handles) && (forall t | t in w.threads && w.threads[t].Detached? :: Three(w.threads[t].taken))
    && (forall t | t in w.threads && (w.threads[t].Made? || w.threads[t] == InCall(Open)) :: w.p.handles.None?)
    && (forall t | t in w.threads && w.threads[t].InIo? :: w.p.handles.Some? && w.p.handles.value.pipe == w.threads[t].target && w.threads[t].ioKind != Open)
  }

  ghost predicate Inv(w: World) {
    CallsOk(w) && LockOk(w) && HandlesOk(w)
  }

  // ---- every step keeps it -----------------------------------------------------------------------------

  lemma AddCaller(w: World, t: nat, s: Thread)
    ensures KindOf(At(w, t)).None? && KindOf(s).Some? ==> |Callers(Go(w, t, s))| == |Callers(w)| + 1
    ensures KindOf(At(w, t)).Some? && KindOf(s).None? ==> |Callers(w)| > 0 && |Callers(Go(w, t, s))| == |Callers(w)| - 1
    ensures KindOf(At(w, t)).Some? == KindOf(s).Some? ==> Callers(Go(w, t, s)) == Callers(w)
  {
    var before, after := Callers(w), Callers(Go(w, t, s));
    if KindOf(At(w, t)).None? && KindOf(s).Some? { assert after == before + {t}; }
    if KindOf(At(w, t)).Some? && KindOf(s).None? { assert t in before && after == before - {t}; }
  }

  lemma OwnedSplit(w: World, t: nat, s: Thread, h: nat)
    ensures Owned(w, h) <==> InHandles(h, w.p.handles) || Holds(At(w, t), h) || OthersHold(w.threads, t, h)
    ensures OthersHold(w.threads[t := s], t, h) == OthersHold(w.threads, t, h)
  {
    hide Holds, InHandles;
    if OthersHold(w.threads, t, h) {
      var u :| u in w.threads && u != t && Holds(w.threads[u], h);
      assert w.threads[t := s][u] == w.threads[u];
    }
    if OthersHold(w.threads[t := s], t, h) {
      var u :| u in w.threads[t := s] && u != t && Holds(w.threads[t := s][u], h);
      assert u in w.threads;
    }
    if exists u :: u in w.threads && Holds(w.threads[u], h) {
      var u :| u in w.threads && Holds(w.threads[u], h);
    }
    FreeHolds(h);
  }

  lemma FreeHolds(h: nat)
    ensures !Holds(Free, h)
  {}

  // A thread that holds no handle before or after its step leaves the accounts alone.
  lemma SameOwners(w: World, v: World, t: nat, s: Thread)
    requires HandlesOk(w) && v.closed == w.closed && v.next == w.next && v.p.handles == w.p.handles && v.threads == w.threads[t := s]
    requires !At(w, t).Made? && !At(w, t).Detached? && !s.Made? && !s.Detached?
    requires (s == InCall(Open) ==> w.p.handles.None?) && (s.InIo? ==> w.p.handles.Some? && w.p.handles.value.pipe == s.target && s.ioKind != Open)
    ensures HandlesOk(v)
  {
    forall h: nat ensures Owned(v, h) == Owned(w, h) {
      OwnedSplit(w, t, s, h);
      OwnedSplit(v, t, s, h);
    }
  }

  lemma BeginKeeps(w: World, t: nat, kind: CallKind)
    requires Inv(w) && Enabled(w, Begin(t, kind)) && CanBegin(w.p, kind)
    ensures Inv(Next(w, Begin(t, kind)))
  {
    AddCaller(w, t, InCall(kind));
    SameOwners(w, Next(w, Begin(t, kind)), t, InCall(kind));
  }

  lemma CreateKeeps(w: World, t: nat, created: bool)
    requires Inv(w) && Enabled(w, Create(t, created))
    ensures Inv(Next(w, Create(t, created)))
  {
    var v := Next(w, Create(t, created));
    AddCaller(w, t, v.threads[t]);
    if created {
      forall h: nat ensures Owned(v, h) <==> Owned(w, h) || h == w.next {
        OwnedSplit(w, t, Made(w.next), h);
        OwnedSplit(v, t, Made(w.next), h);
      }
    } else {
      SameOwners(w, v, t, Failed(Open));
    }
  }

  lemma CloseAllCount(closed: multiset<nat>, handles: Option<Handles>, h: nat)
    requires Three(handles)
    ensures CloseAll(closed, handles)[h] == closed[h] + if InHandles(h, handles) then 1 else 0
  {}

  lemma PublishKeeps(w: World, t: nat, readEvent: bool, writeEvent: bool, connected: bool)
    requires Inv(w) && At(w, t).Made?
    ensures Inv(PublishStep(w, t, readEvent, writeEvent, connected))
  {
    hide HandlesOk;
    var v := PublishStep(w, t, readEvent, writeEvent, connected);
    AddCaller(w, t, v.threads[t]);
    OnlyMaker(w, t);
    NothingPublished(w, t);
    PublishHandles(w, v, t, readEvent, writeEvent, connected);
  }

  lemma NothingPublished(w: World, t: nat)
    requires Inv(w) && At(w, t).Made?
    ensures w.p.handles.None? && !w.p.connected
  {}

  predicate OthersEmpty(w: World, t: nat) {
    forall u | u in w.threads && u != t :: !w.threads[u].Made? && !w.threads[u].Detached? && w.threads[u] != InCall(Open)
  }

  // Before, the pipe handle is the only one anyone owns; afterwards the published ones are.
  lemma PublishOwners(w: World, v: World, t: nat, readEvent: bool, writeEvent: bool, connected: bool, h: nat)
    requires At(w, t).Made? && w.p.handles.None? && v == PublishStep(w, t, readEvent, writeEvent, connected) && !OthersHold(w.threads, t, h)
    ensures Owned(w, h) <==> h == At(w, t).handle
    ensures Owned(v, h) <==> InHandles(h, v.p.handles)
  {
    hide OthersHold, Owned;
    OwnedSplit(w, t, v.threads[t], h);
    OwnedSplit(v, t, v.threads[t], h);
  }

  lemma PublishCounts(w: World, v: World, t: nat, readEvent: bool, writeEvent: bool, connected: bool, h: nat)
    requires At(w, t).Made? && w.p.handles.None? && v == PublishStep(w, t, readEvent, writeEvent, connected)
    requires At(w, t).handle < w.next && w.closed[h] == if h < w.next && h != At(w, t).handle then 1 else 0
    ensures v.closed[h] == if h < v.next && !InHandles(h, v.p.handles) then 1 else 0
    ensures InHandles(h, v.p.handles) ==> h < v.next
  {
    if !(readEvent && writeEvent && !w.p.closing) {
      assert v.closed == w.closed + multiset{At(w, t).handle} + (if readEvent then multiset{w.next} else multiset{})
                         + (if writeEvent then multiset{if readEvent then w.next + 1 else w.next} else multiset{});
    }
  }

  lemma PublishHandles(w: World, v: World, t: nat, readEvent: bool, writeEvent: bool, connected: bool)
    requires HandlesOk(w) && At(w, t).Made? && v == PublishStep(w, t, readEvent, writeEvent, connected)
    requires forall h: nat :: !OthersHold(w.threads, t, h)
    requires OthersEmpty(w, t)
    ensures HandlesOk(v)
  {
    hide OthersHold, Owned;
    assert w.p.handles.None?;
    PublishOwners(w, v, t, readEvent, writeEvent, connected, At(w, t).handle);
    forall h: nat
      ensures v.closed[h] == if h < v.next && !Owned(v, h) then 1 else 0
      ensures Owned(v, h) ==> h < v.next
    {
      PublishOwners(w, v, t, readEvent, writeEvent, connected, h);
      PublishCounts(w, v, t, readEvent, writeEvent, connected, h);
    }
    forall u | u in v.threads && u != t ensures !v.threads[u].Made? && !v.threads[u].Detached? && v.threads[u] != InCall(Open) {
      assert v.threads[u] == w.threads[u];
    }
    PublishIo(w, v, t, readEvent, writeEvent, connected);
  }

  // No operation is outstanding while nothing is published.
  lemma PublishIo(w: World, v: World, t: nat, readEvent: bool, writeEvent: bool, connected: bool)
    requires HandlesOk(w) && At(w, t).Made? && w.p.handles.None? && v == PublishStep(w, t, readEvent, writeEvent, connected)
    ensures forall u | u in v.threads :: !v.threads[u].InIo?
    ensures Three(v.p.handles)
  {
    hide Owned;
    assert At(w, t).handle < w.next by { MadeIsCreated(w, t); }
    forall u | u in v.threads ensures !v.threads[u].InIo? {
      if u != t { assert v.threads[u] == w.threads[u]; }
    }
  }

  lemma MadeIsCreated(w: World, t: nat)
    requires HandlesOk(w) && At(w, t).Made?
    ensures At(w, t).handle < w.next
  {
    assert Holds(w.threads[t], At(w, t).handle);
    assert Owned(w, At(w, t).handle);
  }

  // Only one thread opens, and no close has handles in hand meanwhile.
  lemma OnlyMaker(w: World, t: nat)
    requires Inv(w) && At(w, t).Made?
    ensures forall h: nat :: !OthersHold(w.threads, t, h)
    ensures OthersEmpty(w, t)
  {
    assert t in Callers(w);
    forall u | u in w.threads && u != t ensures !w.threads[u].Made? && !w.threads[u].Detached? && w.threads[u] != InCall(Open) {
      assert KindOf(w.threads[t]) == Some(Open);
    }
  }

  lemma IssueKeeps(w: World, t: nat)
    requires Inv(w) && Enabled(w, IssueIo(t))
    ensures Inv(Next(w, IssueIo(t)))
  {
    var v := Next(w, IssueIo(t));
    AddCaller(w, t, v.threads[t]);
    SameOwners(w, v, t, v.threads[t]);
  }

  lemma IoDoneKeeps(w: World, t: nat, error: bool)
    requires Inv(w) && Enabled(w, IoDone(t, error))
    ensures Inv(Next(w, IoDone(t, error)))
  {
    hide CallsOk, LockOk, HandlesOk;
    IoDoneCalls(w, t, error);
    IoIsNoOpen(w, t);
    SameOwners(w, Next(w, IoDone(t, error)), t, Next(w, IoDone(t, error)).threads[t]);
  }

  lemma IoDoneCalls(w: World, t: nat, error: bool)
    requires CallsOk(w) && LockOk(w) && Enabled(w, IoDone(t, error))
    ensures CallsOk(Next(w, IoDone(t, error))) && LockOk(Next(w, IoDone(t, error)))
  {
    hide CallsOk, LockOk;
    SameKind(w, Next(w, IoDone(t, error)), t);
  }

  // A thread that goes on inside its call, whether or not the pipe became connected.
  lemma SameKind(w: World, v: World, t: nat)
    requires CallsOk(w) && LockOk(w) && t in w.threads && t in v.threads && v.threads == w.threads[t := v.threads[t]]
    requires KindOf(v.threads[t]) == KindOf(w.threads[t]) && !Closer(v.threads[t]) && !Closer(w.threads[t])
    requires v.lock == w.lock && v.p == w.p.(connected := v.p.connected)
    requires (w.p.connected ==> v.p.connected) && (v.p.connected && !w.p.connected ==> w.p.handles.Some?)
    ensures CallsOk(v) && LockOk(v)
  {
    hide KindOf;
    assert Callers(v) == Callers(w);
  }

  lemma IoIsNoOpen(w: World, t: nat)
    requires HandlesOk(w) && At(w, t).InIo?
    ensures At(w, t).ioKind != Open
  {}

  lemma EndKeeps(w: World, t: nat)
    requires Inv(w) && Enabled(w, End(t))
    ensures Inv(Next(w, End(t)))
  {
    var v := Next(w, End(t));
    AddCaller(w, t, v.threads[t]);
    SameOwners(w, v, t, v.threads[t]);
  }

  lemma CloseKeeps(w: World, a: Action)
    requires Inv(w) && Enabled(w, a) && (a.AskClose? || a.LockClose?)
    ensures Inv(Next(w, a))
  {
    var v := Next(w, a);
    AddCaller(w, a.t, v.threads[a.t]);
    SameOwners(w, v, a.t, v.threads[a.t]);
  }

  lemma TakeKeeps(w: World, t: nat)
    requires Inv(w) && Enabled(w, TakeHandles(t))
    ensures Inv(Next(w, TakeHandles(t)))
  {
    var v := Next(w, TakeHandles(t));
    AddCaller(w, t, v.threads[t]);
    NobodyCalls(w);
    forall h: nat ensures Owned(v, h) == Owned(w, h) {
      OwnedSplit(w, t, v.threads[t], h);
      OwnedSplit(v, t, v.threads[t], h);
    }
  }

  lemma NobodyCalls(w: World)
    requires CallsOk(w) && w.p.activeCalls == 0
    ensures forall t | t in w.threads :: KindOf(w.threads[t]).None?
  {
    forall t | t in w.threads ensures KindOf(w.threads[t]).None? { assert t !in Callers(w); }
  }

  lemma FinishKeeps(w: World, t: nat)
    requires Inv(w) && Enabled(w, FinishClose(t))
    ensures Inv(Next(w, FinishClose(t)))
  {
    var v := Next(w, FinishClose(t));
    AddCaller(w, t, Free);
    NobodyCalls(w);
    forall h: nat ensures Owned(v, h) <==> OthersHold(w.threads, t, h) {
      OwnedSplit(w, t, Free, h);
      OwnedSplit(v, t, Free, h);
    }
    forall h: nat ensures Owned(w, h) <==> OthersHold(w.threads, t, h) || InHandles(h, At(w, t).taken) {
      OwnedSplit(w, t, Free, h);
    }
    forall u | u in w.threads && u != t ensures !w.threads[u].Made? && !w.threads[u].Detached? {}
    assert forall h: nat :: !OthersHold(w.threads, t, h);
    forall h: nat { CloseAllCount(w.closed, At(w, t).taken, h); }
  }

  lemma NextKeeps(w: World, a: Action)
    requires Inv(w) && Enabled(w, a)
    ensures Inv(Next(w, a))
  {
    hide Inv;
    match a
    case Begin(t, kind) => if CanBegin(w.p, kind) { BeginKeeps(w, t, kind); }
    case Create(t, created) => CreateKeeps(w, t, created);
    case PublishIt(t, readEvent, writeEvent, connected) => PublishKeeps(w, t, readEvent, writeEvent, connected);
    case IssueIo(t) => IssueKeeps(w, t);
    case IoDone(t, error) => IoDoneKeeps(w, t, error);
    case End(t) => EndKeeps(w, t);
    case AskClose(_, _) => CloseKeeps(w, a);
    case LockClose(_) => CloseKeeps(w, a);
    case TakeHandles(t) => TakeKeeps(w, t);
    case FinishClose(t) => FinishKeeps(w, t);
  }

  // ---- runs ------------------------------------------------------------------------------------------------

  predicate Leads(w: World, a: Action, v: World) {
    Enabled(w, a) && v == Next(w, a)
  }

  predicate Execution(worlds: seq<World>, actions: seq<Action>) {
    && |worlds| == |actions| + 1 && worlds[0] == Boot
    && forall i | 0 <= i < |actions| :: Leads(worlds[i], actions[i], worlds[i + 1])
  }

  lemma {:induction false} ExecutionKeeps(worlds: seq<World>, actions: seq<Action>, n: nat)
    requires Execution(worlds, actions) && n <= |actions|
    ensures Inv(worlds[n])
  {
    if n == 0 {
      assert Callers(Boot) == {};
    } else {
      hide Inv;
      ExecutionKeeps(worlds, actions, n - 1);
      assert Leads(worlds[n - 1], actions[n - 1], worlds[n]);
      NextKeeps(worlds[n - 1], actions[n - 1]);
    }
  }

  // Every handle ever created is closed exactly once, or is still owned and has not been closed.
  lemma HandlesCloseExactlyOnce(worlds: seq<World>, actions: seq<Action>, n: nat, h: nat)
    requires Execution(worlds, actions) && n <= |actions|
    ensures worlds[n].closed[h] == if h < worlds[n].next && !Owned(worlds[n], h) then 1 else 0
  {
    ExecutionKeeps(worlds, actions, n);
  }

  // A published handle is closed only while no call is active, and never under an outstanding operation.
  lemma NoCloseUnderACall(worlds: seq<World>, actions: seq<Action>, n: nat)
    requires Execution(worlds, actions) && n < |actions|
    ensures actions[n].FinishClose? ==> worlds[n].p.activeCalls == 0 && Callers(worlds[n]) == {}
    ensures forall t | t in worlds[n].threads && worlds[n].threads[t].InIo? ::
              worlds[n].closed[worlds[n].threads[t].target] == 0 && InHandles(worlds[n].threads[t].target, worlds[n].p.handles)
  {
    ExecutionKeeps(worlds, actions, n);
    assert Leads(worlds[n], actions[n], worlds[n + 1]);
    if actions[n].FinishClose? {
      NobodyCalls(worlds[n]);
      assert Callers(worlds[n]) == {};
    }
  }

  // At most one thread opens, one accepts and one reads.
  lemma OneOfEachKind(worlds: seq<World>, actions: seq<Action>, n: nat, kind: CallKind, t: nat, u: nat)
    requires Execution(worlds, actions) && n <= |actions| && kind != Write
    requires KindOf(At(worlds[n], t)) == Some(kind) && KindOf(At(worlds[n], u)) == Some(kind)
    ensures t == u
  {
    ExecutionKeeps(worlds, actions, n);
  }

  // Once a close has begun no call begins until some close that was to reopen the pipe finishes.
  lemma {:induction false} NothingBeginsWhileClosing(worlds: seq<World>, actions: seq<Action>, m: nat, n: nat)
    requires Execution(worlds, actions) && m <= n < |actions| && worlds[m].p.closing
    requires forall i | m <= i < n :: !(actions[i].FinishClose? && At(worlds[i], actions[i].t).Detached? && At(worlds[i], actions[i].t).reopenThen)
    ensures worlds[n].p.closing && (actions[n].Begin? ==> worlds[n + 1] == worlds[n])
    decreases n
  {
    assert Leads(worlds[n], actions[n], worlds[n + 1]);
    if m < n {
      NothingBeginsWhileClosing(worlds, actions, m, n - 1);
      assert Leads(worlds[n - 1], actions[n - 1], worlds[n]);
    }
  }

  // How many steps of its own a thread is away from leaving its call at most, once the pipe is closing.
  function Distance(s: Thread): (d: nat)
    ensures d <= 3 && (KindOf(s).Some? <==> d > 0)
  {
    match s
    case InCall(kind) => if kind == Open then 3 else 2
    case Made(_) => 2
    case InIo(_, _) => 3
    case Settled(_) => 1
    case Failed(_) => 1
    case _ => 0
  }

  // The steps a thread takes inside a call.
  predicate CallStep(a: Action) {
    a.Create? || a.PublishIt? || a.IssueIo? || a.IoDone? || a.End?
  }

  // While the pipe is closing every step inside a call brings its thread closer to leaving it, no other step
  // takes a thread further away, and no step touches another thread.
  lemma ClosingStep(w: World, a: Action)
    requires Inv(w) && w.p.closing && Enabled(w, a)
    ensures forall u | u != a.t :: At(Next(w, a), u) == At(w, u)
    ensures if CallStep(a) then Distance(At(Next(w, a), a.t)) < Distance(At(w, a.t))
            else Distance(At(Next(w, a), a.t)) == Distance(At(w, a.t)) == 0
  {
    if a.IoDone? { IoIsNoOpen(w, a.t); }
    StepCloser(w, a);
  }

  // What a step makes of the thread that takes it, while the pipe is closing.
  function Moved(w: World, a: Action): Thread
    requires Enabled(w, a)
  {
    match a
    case Begin(t, _) => At(w, t)
    case Create(t, created) => if created then Made(w.next) else Failed(Open)
    case PublishIt(t, _, _, _) => Failed(Open)
    case IssueIo(t) => Ended(At(w, t).kind)
    case IoDone(t, error) =>
      var kind := At(w, t).ioKind;
      if kind == Accept then Failed(Accept) else if error then Settled(kind) else InCall(kind)
    case End(t) => if At(w, t).Failed? then WantsClose(false) else Free
    case AskClose(_, reopen) => WantsClose(reopen)
    case LockClose(t) => Waiting(At(w, t).reopen)
    case TakeHandles(t) => Detached(w.p.handles, At(w, t).reopenAfter)
    case FinishClose(_) => Free
  }

  lemma ThreadMoves(w: World, a: Action)
    requires w.p.closing && Enabled(w, a)
    ensures forall u | u != a.t :: At(Next(w, a), u) == At(w, u)
    ensures At(Next(w, a), a.t) == Moved(w, a)
  {
    hide CloseAll, EndCall, Detach, PublishStep, BeginCall, MarkClosing;
    if a.PublishIt? { PublishMoves(w, a.t, a.readEvent, a.writeEvent, a.connected); }
  }

  lemma PublishMoves(w: World, t: nat, readEvent: bool, writeEvent: bool, connected: bool)
    requires w.p.closing && At(w, t).Made?
    ensures PublishStep(w, t, readEvent, writeEvent, connected).threads == w.threads[t := Failed(Open)]
  {}

  lemma StepCloser(w: World, a: Action)
    requires w.p.closing && Enabled(w, a) && (a.IoDone? ==> At(w, a.t).ioKind != Open)
    ensures forall u | u != a.t :: At(Next(w, a), u) == At(w, u)
    ensures if CallStep(a) then Distance(At(Next(w, a), a.t)) < Distance(At(w, a.t))
            else Distance(At(Next(w, a), a.t)) == Distance(At(w, a.t)) == 0
  {
    hide Next;
    ThreadMoves(w, a);
  }

  // The call steps of one thread from step m to step n.
  function CallSteps(actions: seq<Action>, m: nat, n: nat, u: nat): nat
    requires m <= n <= |actions|
  {
    if m == n then 0 else CallSteps(actions, m, n - 1, u) + if CallStep(actions[n - 1]) && actions[n - 1].t == u then 1 else 0
  }

  lemma OneStepCloser(w: World, a: Action, u: nat)
    requires Inv(w) && w.p.closing && Enabled(w, a)
    ensures Distance(At(Next(w, a), u)) + (if CallStep(a) && a.t == u then 1 else 0) <= Distance(At(w, u))
  {
    hide Inv, Next, Distance, CallStep;
    ClosingStep(w, a);
  }

  lemma LastStep(worlds: seq<World>, actions: seq<Action>, n: nat, u: nat)
    requires Execution(worlds, actions) && 0 < n <= |actions| && worlds[n - 1].p.closing
    ensures Distance(At(worlds[n], u)) + (if CallStep(actions[n - 1]) && actions[n - 1].t == u then 1 else 0) <= Distance(At(worlds[n - 1], u))
  {
    hide Inv, Next, Distance, CallStep, At;
    ExecutionKeeps(worlds, actions, n - 1);
    assert Leads(worlds[n - 1], actions[n - 1], worlds[n]);
    OneStepCloser(worlds[n - 1], actions[n - 1], u);
  }

  // So, once closing has started, a thread leaves its call after at most three steps of its own, and does not
  // enter another.
  lemma {:induction false} CallsRunOut(worlds: seq<World>, actions: seq<Action>, m: nat, n: nat, u: nat)
    requires Execution(worlds, actions) && m <= n <= |actions| && forall i | m <= i < n :: worlds[i].p.closing
    ensures CallSteps(actions, m, n, u) + Distance(At(worlds[n], u)) <= Distance(At(worlds[m], u)) <= 3
    decreases n
  {
    ExecutionLength(worlds, actions);
    hide Execution, Distance, CallStep, At;
    if m < n {
      CallsRunOut(worlds, actions, m, n - 1, u);
      LastStep(worlds, actions, n, u);
    }
  }

  lemma ExecutionLength(worlds: seq<World>, actions: seq<Action>)
    requires Execution(worlds, actions)
    ensures |worlds| == |actions| + 1
  {}

  // A close waits only for other threads, and each of those can take the step that brings it closer to leaving
  // its call. So a failed call, which ends its own call before it closes, never waits for itself.
  lemma CloseWaitsForOthersOnly(worlds: seq<World>, actions: seq<Action>, n: nat, t: nat)
    requires Execution(worlds, actions) && n <= |actions| && At(worlds[n], t).Waiting?
    ensures worlds[n].p.closing && KindOf(At(worlds[n], t)).None?
    ensures worlds[n].p.activeCalls == 0 ==> Enabled(worlds[n], TakeHandles(t))
    ensures worlds[n].p.activeCalls > 0 ==>
              exists u | u in Callers(worlds[n]) ::
                u != t && exists a: Action :: a.t == u && CallStep(a) && Enabled(worlds[n], a) && Distance(At(Next(worlds[n], a), u)) < Distance(At(worlds[n], u))
  {
    ExecutionKeeps(worlds, actions, n);
    var w := worlds[n];
    if w.p.activeCalls > 0 {
      assert Callers(w) != {};
      var u :| u in Callers(w);
      assert t !in Callers(w);
      var a := OwnStep(w, u);
      ClosingStep(w, a);
    }
  }

  // Whoever is in a call has a step to take.
  lemma OwnStep(w: World, u: nat) returns (a: Action)
    requires u in Callers(w)
    ensures a.t == u && CallStep(a) && Enabled(w, a)
  {
    match At(w, u)
    case InCall(kind) => a := if kind == Open then Create(u, false) else IssueIo(u);
    case Made(_) => a := PublishIt(u, true, true, false);
    case InIo(_, _) => a := IoDone(u, true);
    case _ => a := End(u);
  }

  // A failed call leaves its call first and closes afterwards.
  lemma FailureReleasesFirst(worlds: seq<World>, actions: seq<Action>, n: nat)
    requires Execution(worlds, actions) && n < |actions| && actions[n].End? && At(worlds[n], actions[n].t).Failed?
    ensures var t := actions[n].t;
            && At(worlds[n + 1], t) == WantsClose(false) && t !in Callers(worlds[n + 1])
            && worlds[n + 1].p.activeCalls + 1 == worlds[n].p.activeCalls
  {
    ExecutionKeeps(worlds, actions, n);
    assert Leads(worlds[n], actions[n], worlds[n + 1]);
    assert actions[n].t in Callers(worlds[n]);
  }
}
